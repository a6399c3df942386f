/** internal/gossip/transport.MessageGuard: which flooded deltas a node looks at. */
module Guard {
  import opened Base

  datatype Verdict = Accepted | Duplicate | Stale

  type Key = (NodeId, U64)

  function Unexpired(seen: map<Key, int>, now: int): map<Key, int> {
    map k | k in seen && now < seen[k] :: seen[k]
  }

  class MessageGuard {
    const ttl: int
    /** When the memory of an accepted message runs out. */
    var seen: map<Key, int>
    var highSeq: map<NodeId, U64>

    /** Nothing is remembered from above the sender's high-water mark. */
    ghost predicate Valid()
      reads this
    {
      ttl > 0 && forall k :: k in seen ==> k.0 in highSeq && k.1 <= highSeq[k.0]
    }

    constructor (ttl: int)
      ensures Valid() && highSeq == map[] && seen == map[]
    {
      this.ttl := if ttl <= 0 then 60 else ttl;
      seen := map[];
      highSeq := map[];
    }

    /** Whatever the clock shows, even when it runs backwards, a message passes exactly when its sequence lies
        above everything accepted from its sender; the memory of seen messages only names the refusal. */
    method Accept(from: NodeId, s: U64, now: int) returns (v: Verdict)
      requires Valid()
      modifies this
      ensures Valid()
      ensures v == Accepted <==> from !in old(highSeq) || s > old(highSeq)[from]
      ensures v == Duplicate <==> (from, s) in old(seen) && now < old(seen)[(from, s)]
      ensures highSeq == if v == Accepted then old(highSeq)[from := s] else old(highSeq)
      ensures seen == if v == Accepted then Unexpired(old(seen), now)[(from, s) := now + ttl]
                      else Unexpired(old(seen), now)
    {
      Prune(now);
      if (from, s) in seen && now < seen[(from, s)] {
        return Duplicate;
      }
      if from in highSeq && s <= highSeq[from] {
        return Stale;
      }
      seen := seen[(from, s) := now + ttl];
      highSeq := highSeq[from := s];
      return Accepted;
    }

    method Prune(now: int)
      modifies this`seen
      ensures seen == Unexpired(old(seen), now)
    {
      var todo := seen.Keys;
      while todo != {}
        invariant todo <= seen.Keys <= old(seen).Keys
        invariant forall k :: k in seen ==> seen[k] == old(seen)[k]
        invariant forall k :: k in old(seen) && k !in todo ==> (k in seen <==> now < old(seen)[k])
        decreases todo
      {
        var k :| k in todo;
        if !(now < seen[k]) {
          seen := seen - {k};
        }
        todo := todo - {k};
      }
    }
  }
}
