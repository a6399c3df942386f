/** The TOPK error that a received delta loses, seen from the watermarks (internal/aggregation/pipeline, runtime.go). */
module Swallowed {
  import opened Base
  import opened TopK
  import opened Protocol
  import opened History
  import opened Pipeline
  import opened Recovery
  import opened Runtime

  /** The next expected delta of its origin, with room in the history. */
  ghost predicate NextWithRoom(n: Node, d: StateDelta) {
    && HistValid(n.history) && ValidNodeId(d.origin)
    && Watermark(n.history, d.origin) < MAX_U64 && d.sequence == Watermark(n.history, d.origin) + 1
    && |Above(n.history, d.origin)| < n.history.capacity
  }

  /** A node that applies the next TOPK delta advertises it from then on. What it advertises is true of its contents if
      and only if the candidate is valid, or was outranked already. */
  lemma AdvertisedTruly(n: Node, d: StateDelta, io: Append)
    requires ReplicaValid(n.replica) && d.kind == TOPK && NextWithRoom(n, d) && DeltaApplied(n, d, io)
    ensures var m := ApplyDelta(n, d, io);
            && Advertised(m, d.origin) >= d.sequence
            && DecodeTopDelta(d).Some?
            && var c := DecodeTopDelta(d).value;
               Covers(m.replica.topk.candidates, c, m.replica.kmax) <==>
               ValidCandidate(c) || Covers(n.replica.topk.candidates, c, n.replica.kmax)
  {
    hide Covers, HistValid, AfterRecord, LocalDigest, ReplicaValid, Above, ValidCandidate, MergeTop, TopAdvances;
    AppliedIsCovered(n.replica, d);
    NextRecordAdvances(n.history, d);
    AdvertisedIs(ApplyDelta(n, d, io), d.origin);
  }

  /** An invalid candidate is always applied with success, whatever the journal does: contents and disk stay as they are,
      the history records the delta, and the watermark passes it. */
  lemma InvalidCandidatePasses(n: Node, d: StateDelta, io: Append)
    requires ReplicaValid(n.replica) && d.kind == TOPK
    requires DecodeTopDelta(d).Some? && !ValidCandidate(DecodeTopDelta(d).value)
    ensures var m := ApplyDelta(n, d, io);
            && DeltaApplied(n, d, io) && m.replica.sum == n.replica.sum && m.replica.topk == n.replica.topk
            && m.disk == n.disk && m.history == AfterRecord(n.history, d) && d in m.observed
            && (NextWithRoom(n, d) ==> Advertised(m, d.origin) >= d.sequence)
  {
    if NextWithRoom(n, d) {
      AdvertisedTruly(n, d, io);
    }
    hide AfterRecord, LocalDigest;
  }

  /** One such delta passes the checks on received deltas, and a new node then advertises it without holding it. */
  lemma EmptyItemPasses(cfg: Config, io: Append)
    requires cfg.kmax > 0 && cfg.historyCapacity > 0
    ensures var d := StateDelta(TOPK, 1, "a", 1, TopBody(Candidate("", 1, 1, "a")));
            var m := ApplyDelta(NewNode(cfg, "b"), d, io);
            && ValidRecoveredDelta(d) && DeltaApplied(NewNode(cfg, "b"), d, io)
            && Advertised(m, "a") >= 1 && m.replica.topk.candidates == []
            && !Covers(m.replica.topk.candidates, d.body.candidate, cfg.kmax)
  {
    var d := StateDelta(TOPK, 1, "a", 1, TopBody(Candidate("", 1, 1, "a")));
    hide LocalDigest, AfterRecord, HistValid, ReplicaValid, NextWithRoom, ApplyDelta, DeltaApplied, Advertised;
    NewNodeIsReady(cfg, d);
    InvalidCandidatePasses(NewNode(cfg, "b"), d, io);
  }

  lemma NewNodeIsReady(cfg: Config, d: StateDelta)
    requires cfg.kmax > 0 && cfg.historyCapacity > 0 && d.origin == "a" && d.sequence == 1
    ensures ReplicaValid(NewNode(cfg, "b").replica) && NextWithRoom(NewNode(cfg, "b"), d)
  {
    assert Above(NewNode(cfg, "b").history, "a") == {};
  }
}
