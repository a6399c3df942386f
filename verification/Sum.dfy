/** The grow-only counter of internal/aggregation/sum. */
module Sum {
  import opened Base

  type Contrib = map<NodeId, U64>

  /** The value of a counter: also what Serialize writes and Deserialize reads. */
  datatype SumState = SumState(contrib: Contrib, version: U64)

  datatype Error = InvalidIncrement | InvalidPeerState | Overflow

  datatype Result<+T> = Ok(value: T) | Err(error: Error)

  predicate ValidContrib(c: Contrib) {
    forall k :: k in c ==> ValidNodeId(k)
  }

  // ---------------------------------------------------------------- pointwise order

  /** Counters are compared as total functions: a missing entry is a zero. */
  ghost predicate SumLeq(a: Contrib, b: Contrib) {
    forall k: NodeId :: Get(a, k) <= Get(b, k)
  }

  ghost predicate SameSum(a: Contrib, b: Contrib) {
    forall k: NodeId :: Get(a, k) == Get(b, k)
  }

  /** The loop of Merge: a peer entry is copied when it is strictly larger. */
  function MergeSum(c: Contrib, p: Contrib): Contrib {
    map k | k in c.Keys + p.Keys && (k in c || p[k] > 0)
      :: if k in p && p[k] > Get(c, k) then p[k] else Get(c, k)
  }

  predicate SumAdvances(c: Contrib, p: Contrib) {
    exists k :: k in p && p[k] > Get(c, k)
  }

  lemma MergeSumMax(c: Contrib, p: Contrib, k: NodeId)
    ensures Get(MergeSum(c, p), k) == Max64(Get(c, k), Get(p, k))
  {
  }

  /** Merge computes the pointwise maximum, and reports advancement exactly when it changed. */
  lemma MergeSumIsJoin(c: Contrib, p: Contrib)
    ensures SumLeq(c, MergeSum(c, p)) && SumLeq(p, MergeSum(c, p))
    ensures forall u: Contrib :: SumLeq(c, u) && SumLeq(p, u) ==> SumLeq(MergeSum(c, p), u)
    ensures SumAdvances(c, p) <==> !SumLeq(p, c)
    ensures !SumAdvances(c, p) ==> MergeSum(c, p) == c
  {
    forall k: NodeId ensures Get(MergeSum(c, p), k) == Max64(Get(c, k), Get(p, k)) {
      MergeSumMax(c, p, k);
    }
    if !SumLeq(p, c) {
      var k :| Get(p, k) > Get(c, k);
      assert k in p && p[k] > Get(c, k);
    }
    if !SumAdvances(c, p) {
      forall k | k in p ensures k in c || p[k] == 0 {
        assert !(p[k] > Get(c, k));
      }
      assert MergeSum(c, p) == c;
    }
  }

  lemma MergeSumCommutes(a: Contrib, b: Contrib)
    ensures SameSum(MergeSum(a, b), MergeSum(b, a))
  {
    forall k: NodeId ensures Get(MergeSum(a, b), k) == Get(MergeSum(b, a), k) {
      MergeSumMax(a, b, k);
      MergeSumMax(b, a, k);
    }
  }

  lemma MergeSumAssociates(a: Contrib, b: Contrib, c: Contrib)
    ensures SameSum(MergeSum(MergeSum(a, b), c), MergeSum(a, MergeSum(b, c)))
  {
    var ab, bc := MergeSum(a, b), MergeSum(b, c);
    forall k: NodeId ensures Get(MergeSum(ab, c), k) == Get(MergeSum(a, bc), k) {
      MergeSumMax(a, b, k);
      MergeSumMax(b, c, k);
      MergeSumMax(ab, c, k);
      MergeSumMax(a, bc, k);
    }
  }

  function MergeSumState(s: SumState, peer: SumState): SumState {
    SumState(MergeSum(s.contrib, peer.contrib),
             if SumAdvances(s.contrib, peer.contrib) then Next64(Max64(s.version, peer.version))
             else Max64(s.version, peer.version))
  }

  predicate IncrementFits(s: SumState, node: NodeId, increment: int) {
    0 < increment && Get(s.contrib, node) + increment <= MAX_U64
  }

  function UpdateSumState(s: SumState, node: NodeId, increment: int): SumState
    requires IncrementFits(s, node, increment)
  {
    SumState(s.contrib[node := Get(s.contrib, node) + increment], Next64(s.version))
  }

  // ---------------------------------------------------------------- the estimate

  /** The mathematical sum of all contributions, in unbounded integers. */
  ghost function Total(c: Contrib): nat
    decreases |c|
  {
    if c == map[] then 0
    else
      var k :| k in c;
      assert |c - {k}| < |c| by { RemoveSmaller(c, k); }
      c[k] + Total(c - {k})
  }

  lemma RemoveSmaller(c: Contrib, k: NodeId)
    requires k in c
    ensures |c - {k}| == |c| - 1
  {
    assert (c - {k}).Keys == c.Keys - {k};
    assert |c.Keys - {k}| == |c.Keys| - 1;
    assert |(c - {k}).Keys| == |c - {k}| && |c.Keys| == |c|;
  }

  /** The sum does not depend on the order in which the map is ranged over. */
  lemma {:induction false} TotalRemove(c: Contrib, k: NodeId)
    requires k in c
    ensures Total(c) == c[k] + Total(c - {k})
    decreases |c|
  {
    var j :| j in c && Total(c) == c[j] + Total(c - {j});
    if j != k {
      RemoveSmaller(c, j);
      RemoveSmaller(c, k);
      TotalRemove(c - {j}, k);
      TotalRemove(c - {k}, j);
      assert c - {j} - {k} == c - {k} - {j};
    }
  }

  /** Estimates never fall as a replica advances. */
  lemma {:induction false} TotalMonotone(a: Contrib, b: Contrib)
    requires SumLeq(a, b)
    ensures Total(a) <= Total(b)
    decreases |a|
  {
    if a != map[] {
      var k :| k in a;
      TotalRemove(a, k);
      RemoveSmaller(a, k);
      if k in b {
        TotalRemove(b, k);
        forall n: NodeId ensures Get(a - {k}, n) <= Get(b - {k}, n) {
          assert Get(a, n) <= Get(b, n);
        }
        assert a[k] == Get(a, k) <= Get(b, k);
        TotalMonotone(a - {k}, b - {k});
      } else {
        assert a[k] == Get(a, k) <= Get(b, k);
        forall n: NodeId ensures Get(a - {k}, n) <= Get(b, n) {
          assert Get(a, n) <= Get(b, n);
        }
        TotalMonotone(a - {k}, b);
      }
    }
  }

  class GCounter {
    const nodeID: NodeId
    var version: U64
    var contrib: Contrib

    ghost predicate Valid()
      reads this
    {
      ValidNodeId(nodeID) && nodeID in contrib && ValidContrib(contrib)
    }

    function Value(): SumState
      reads this
    {
      SumState(contrib, version)
    }

    constructor (nodeID: NodeId)
      requires ValidNodeId(nodeID)
      ensures Valid() && this.nodeID == nodeID && Value() == SumState(map[nodeID := 0], 0)
    {
      this.nodeID := nodeID;
      version := 0;
      contrib := map[nodeID := 0];
    }

    method Update(increment: int) returns (r: Result<bool>)
      requires Valid()
      modifies this
      ensures Valid()
      ensures increment <= 0 ==> r == Err(InvalidIncrement)
      ensures increment > 0 && !IncrementFits(old(Value()), nodeID, increment) ==> r == Err(Overflow)
      ensures !IncrementFits(old(Value()), nodeID, increment) ==> Value() == old(Value())
      ensures IncrementFits(old(Value()), nodeID, increment) ==>
        r == Ok(true) && Value() == UpdateSumState(old(Value()), nodeID, increment)
    {
      if increment <= 0 {
        return Err(InvalidIncrement);
      }
      var current := Get(contrib, nodeID);
      if MAX_U64 - current < increment {
        return Err(Overflow);
      }
      contrib := contrib[nodeID := current + increment];
      version := Next64(version);
      return Ok(true);
    }

    method Merge(peer: SumState) returns (r: Result<bool>)
      requires Valid()
      modifies this
      ensures Valid()
      ensures !ValidContrib(peer.contrib) ==> r == Err(InvalidPeerState) && Value() == old(Value())
      ensures ValidContrib(peer.contrib) ==>
        && Value() == MergeSumState(old(Value()), peer)
        && r == Ok(SumAdvances(old(contrib), peer.contrib))
    {
      if !ValidContrib(peer.contrib) {
        return Err(InvalidPeerState);
      }
      var advanced := false;
      var todo := peer.contrib.Keys;
      ghost var before := contrib;
      while todo != {}
        invariant todo <= peer.contrib.Keys
        invariant version == old(version)
        invariant contrib == MergeSum(before, Visited(peer.contrib, todo))
        invariant advanced <==> SumAdvances(before, Visited(peer.contrib, todo))
        decreases todo
      {
        var k :| k in todo;
        ghost var was := contrib;
        assert Get(contrib, k) == Get(before, k);
        if peer.contrib[k] > Get(contrib, k) {
          contrib := contrib[k := peer.contrib[k]];
          advanced := true;
        }
        VisitOne(before, peer.contrib, todo, k);
        todo := todo - {k};
      }
      assert Visited(peer.contrib, {}) == peer.contrib;
      if advanced {
        version := Next64(Max64(version, peer.version));
      } else if peer.version > version {
        version := peer.version;
      }
      return Ok(advanced);
    }

    method Estimate() returns (r: Result<U64>)
      ensures r == if Total(contrib) <= MAX_U64 then Ok(Total(contrib)) else Err(Overflow)
    {
      var total: U64 := 0;
      var rest := contrib;
      while rest != map[]
        invariant total + Total(rest) == Total(contrib)
        decreases |rest|
      {
        var k :| k in rest;
        TotalRemove(rest, k);
        RemoveSmaller(rest, k);
        if MAX_U64 - total < rest[k] {
          return Err(Overflow);
        }
        total := total + rest[k];
        rest := rest - {k};
      }
      return Ok(total);
    }

    method Serialize() returns (raw: SumState)
      ensures raw == Value()
    {
      raw := SumState(contrib, version);
    }

    method Deserialize(raw: SumState) returns (r: Result<()>)
      requires Valid()
      modifies this
      ensures Valid()
      ensures !ValidContrib(raw.contrib) ==> r == Err(InvalidPeerState) && Value() == old(Value())
      ensures ValidContrib(raw.contrib) ==> r == Ok(()) && Value() == WithOwnEntry(raw, nodeID)
      ensures ValidContrib(raw.contrib) && nodeID in raw.contrib ==> r == Ok(()) && Value() == raw
    {
      if !ValidContrib(raw.contrib) {
        return Err(InvalidPeerState);
      }
      contrib := raw.contrib;
      if nodeID !in contrib {
        contrib := contrib[nodeID := 0];
      }
      version := raw.version;
      return Ok(());
    }
  }

  /** Deserialize stores an explicit zero for this node when the payload has no entry. */
  function WithOwnEntry(s: SumState, node: NodeId): SumState {
    if node in s.contrib then s else s.(contrib := s.contrib[node := 0])
  }

  ghost function Visited(p: Contrib, todo: set<NodeId>): Contrib {
    map k | k in p && k !in todo :: p[k]
  }

  lemma MergeOneMore(before: Contrib, v: Contrib, k: NodeId, x: U64)
    requires k !in v
    ensures MergeSum(before, v[k := x]) ==
            if x > Get(before, k) then MergeSum(before, v)[k := x] else MergeSum(before, v)
  {
  }

  lemma VisitOne(before: Contrib, p: Contrib, todo: set<NodeId>, k: NodeId)
    requires k in todo && todo <= p.Keys
    ensures MergeSum(before, Visited(p, todo - {k})) ==
            if p[k] > Get(before, k) then MergeSum(before, Visited(p, todo))[k := p[k]]
            else MergeSum(before, Visited(p, todo))
    ensures SumAdvances(before, Visited(p, todo - {k})) <==>
            p[k] > Get(before, k) || SumAdvances(before, Visited(p, todo))
  {
    var v, w := Visited(p, todo), Visited(p, todo - {k});
    assert w == v[k := p[k]];
    MergeOneMore(before, v, k, p[k]);
    if SumAdvances(before, v) {
      var j :| j in v && v[j] > Get(before, j);
      assert j in w && w[j] > Get(before, j);
    }
    if p[k] > Get(before, k) {
      assert k in w && w[k] > Get(before, k);
    }
  }
}
