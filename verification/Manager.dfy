/** The Manager object of internal/aggregation/pipeline: mutate, journal, publish, and undo on failure. */
module Manager {
  import opened Base
  import TopK
  import Sum
  import opened Protocol
  import opened Pipeline
  import opened Recovery
  import opened Storage
  import Wal

  class Manager {
    const nodeID: NodeId
    const sum: Sum.GCounter
    const topk: TopK.Set
    const queueSize: nat
    var deltaSeq: U64
    var outbound: seq<StateDelta>
    var closed: bool
    var dropped: nat
    var journal: Store?

    ghost predicate Valid()
      reads this, sum, topk
    {
      sum.Valid() && topk.Valid() && sum.nodeID == nodeID && |outbound| <= queueSize
    }

    function Value(): Replica
      reads this, sum, topk
    {
      Replica(nodeID, topk.kmax, sum.Value(), topk.Value(), deltaSeq)
    }

    /** The objects that a journaled call may change. */
    ghost function Footprint(): set<object>
      reads this
    {
      {this, sum, topk} + if journal == null then {} else {journal.wal}
    }

    /** A journal in working order with room for one more index; no journal is fine too. */
    ghost predicate CanAppend()
      reads this, journal, if journal == null then {} else {journal.wal}
    {
      journal != null ==> journal.Valid() && journal.wal.lastIndex < MAX_U64
    }

    /** What the next append will amount to; without a journal it always succeeds. */
    ghost function Outcome(io: Wal.IO): Append
      reads this, journal, if journal == null then {} else {journal.wal}
    {
      if journal == null then Done else journal.AppendOutcome(io)
    }

    ghost function DiskOf(): Disk
      requires journal != null ==> journal.Valid()
      reads this, journal, if journal == null then {} else {journal.wal}
    {
      if journal == null then Disk([], None) else journal.DiskOf()
    }

    ghost function State(): Live
      requires journal != null ==> journal.Valid()
      reads this, sum, topk, journal, if journal == null then {} else {journal.wal}
    {
      Live(Value(), DiskOf())
    }

    constructor (nodeID: NodeId, kmax: nat, queueSize: nat)
      requires ValidNodeId(nodeID) && kmax > 0 && queueSize > 0
      ensures Valid() && Value() == NewReplica(nodeID, kmax) && journal == null && outbound == [] && !closed
      ensures fresh(sum) && fresh(topk) && this.queueSize == queueSize
    {
      this.nodeID := nodeID;
      sum := new Sum.GCounter(nodeID);
      topk := new TopK.Set(kmax);
      this.queueSize := queueSize;
      deltaSeq := 0;
      outbound := [];
      closed := false;
      dropped := 0;
      journal := null;
    }

    // -------------------------------------------------------------- publishing

    /** A closed or full queue drops the delta and counts it. */
    method Enqueue(d: StateDelta)
      requires Valid()
      modifies this`outbound, this`dropped
      ensures Valid()
      ensures outbound == if closed || |old(outbound)| == queueSize then old(outbound) else old(outbound) + [d]
      ensures dropped == if closed || |old(outbound)| == queueSize then old(dropped) + 1 else old(dropped)
    {
      if closed || |outbound| == queueSize {
        dropped := dropped + 1;
        return;
      }
      outbound := outbound + [d];
    }

    method AppendDelta(d: StateDelta, io: Wal.IO) returns (ok: bool)
      requires CanAppend()
      modifies if journal == null then {} else {journal.wal}
      ensures journal != null ==> journal.Valid()
      ensures ok == old(Outcome(io)).Done?
      ensures journal != null ==> DiskOf() == Write(old(DiskOf()), DeltaRecord(d), old(Outcome(io)))
    {
      if journal == null {
        return true;
      }
      ok := journal.AppendDelta(d, io);
    }

    method AppendSnapshot(s: SnapshotResp, io: Wal.IO) returns (ok: bool)
      requires CanAppend()
      modifies if journal == null then {} else {journal.wal}
      ensures journal != null ==> journal.Valid()
      ensures ok == old(Outcome(io)).Done?
      ensures journal != null ==> DiskOf() == Write(old(DiskOf()), SnapshotRecord(s), old(Outcome(io)))
    {
      if journal == null {
        return true;
      }
      ok := journal.AppendSnapshot(s, io);
    }

    /** Journal first, publish only what has been journaled. */
    method Publish(d: StateDelta, io: Wal.IO) returns (ok: bool)
      requires Valid() && CanAppend()
      modifies this`outbound, this`dropped, if journal == null then {} else {journal.wal}
      ensures Valid() && (journal != null ==> journal.Valid())
      ensures ok == old(Outcome(io)).Done?
      ensures outbound == if ok && !closed && |old(outbound)| < queueSize then old(outbound) + [d] else old(outbound)
      ensures journal != null ==> DiskOf() == Write(old(DiskOf()), DeltaRecord(d), old(Outcome(io)))
    {
      hide Storage.Store.Valid, Storage.Outcome;
      ok := AppendDelta(d, io);
      if ok {
        Enqueue(d);
      }
    }

    // -------------------------------------------------------------- local updates

    /** Journal before publishing; when the append fails, contents, versions and sequence are exactly as
        before and nothing is enqueued. */
    method ApplyLocalUpdate(u: LocalUpdate, io: Wal.IO) returns (delta: Option<StateDelta>, ok: bool)
      requires Valid() && CanAppend()
      modifies Footprint()
      ensures Valid() && journal == old(journal) && (journal != null ==> journal.Valid()) && closed == old(closed)
      ensures var a := IssueLocal(old(Value()), u);
              var published := a.Issued? && old(Outcome(io)).Done?;
              && Value() == (if published then a.replica else old(Value()))
              && delta == (if published then Some(a.delta) else None)
              && outbound == (if published && !closed && |old(outbound)| < queueSize
                              then old(outbound) + [a.delta] else old(outbound))
              && ok == (a.Unchanged? || published)
      ensures journal != null ==> State() == Step(old(State()), Local(u, old(Outcome(io))))
    {
      match u
      case SumUpdate(x) =>
        delta, ok := UpdateSum(x, io);
      case TopUpdate(c) =>
        delta, ok := UpdateTop(c, io);
      case BadUpdate =>
        delta, ok := None, false;
    }

    method UpdateSum(x: int, io: Wal.IO) returns (delta: Option<StateDelta>, ok: bool)
      requires Valid() && CanAppend()
      modifies Footprint()
      ensures Valid() && journal == old(journal) && (journal != null ==> journal.Valid())
      ensures closed == old(closed)
      ensures var a := IssueLocal(old(Value()), SumUpdate(x));
              var published := a.Issued? && old(Outcome(io)).Done?;
              && Value() == (if published then a.replica else old(Value()))
              && delta == (if published then Some(a.delta) else None)
              && outbound == (if published && !closed && |old(outbound)| < queueSize
                              then old(outbound) + [a.delta] else old(outbound))
              && ok == published
              && (journal != null ==>
                    DiskOf() == if a.Issued? then Write(old(DiskOf()), DeltaRecord(a.delta), old(Outcome(io)))
                                else old(DiskOf()))
    {
      hide Storage.Store.Valid, Storage.Outcome, TopK.CanonicalState, Sum.ValidContrib, IssueLocal;
      var before := sum.Serialize();
      var beforeSequence := deltaSeq;
      var d := IssueSum(x);
      if d.None? {
        return None, false;
      }
      var published := Publish(d.value, io);
      if !published {
        var _ := sum.Deserialize(before);
        deltaSeq := beforeSequence;
        return None, false;
      }
      return d, true;
    }

    /** Change the counter and number the delta. */
    method IssueSum(x: int) returns (d: Option<StateDelta>)
      requires Valid()
      modifies this`deltaSeq, sum
      ensures Valid()
      ensures match IssueLocal(old(Value()), SumUpdate(x))
              case Issued(e, r) => d == Some(e) && Value() == r
              case _ => d == None && Value() == old(Value())
    {
      var advanced := sum.Update(x);
      if advanced.Err? {
        return None;
      }
      deltaSeq := Next64(deltaSeq);
      d := Some(StateDelta(SUM, sum.version, nodeID, deltaSeq, SumBody(nodeID, Get(sum.contrib, nodeID))));
    }

    method UpdateTop(candidate: TopK.Candidate, io: Wal.IO) returns (delta: Option<StateDelta>, ok: bool)
      requires Valid() && CanAppend()
      modifies Footprint()
      ensures Valid() && journal == old(journal) && (journal != null ==> journal.Valid())
      ensures closed == old(closed)
      ensures var a := IssueLocal(old(Value()), TopUpdate(candidate));
              var published := a.Issued? && old(Outcome(io)).Done?;
              && Value() == (if published then a.replica else old(Value()))
              && delta == (if published then Some(a.delta) else None)
              && outbound == (if published && !closed && |old(outbound)| < queueSize
                              then old(outbound) + [a.delta] else old(outbound))
              && ok == (a.Unchanged? || published)
              && (journal != null ==>
                    DiskOf() == if a.Issued? then Write(old(DiskOf()), DeltaRecord(a.delta), old(Outcome(io)))
                                else old(DiskOf()))
    {
      hide Storage.Store.Valid, Storage.Outcome, TopK.CanonicalState, Sum.ValidContrib, IssueLocal;
      var before := topk.Serialize();
      var beforeSequence := deltaSeq;
      var d;
      d, ok := IssueTop(candidate);
      if d.None? {
        return None, ok;
      }
      var published := Publish(d.value, io);
      if !published {
        var _ := topk.Deserialize(before);
        deltaSeq := beforeSequence;
        return None, false;
      }
      return d, true;
    }

    /** Change the candidate set and number the delta; a candidate that makes no difference is no error. */
    method IssueTop(candidate: TopK.Candidate) returns (d: Option<StateDelta>, ok: bool)
      requires Valid()
      modifies this`deltaSeq, topk
      ensures Valid()
      ensures match IssueLocal(old(Value()), TopUpdate(candidate))
              case Issued(e, r) => d == Some(e) && ok && Value() == r
              case Unchanged => d == None && ok && Value() == old(Value())
              case Refused => d == None && !ok && Value() == old(Value())
    {
      var c := candidate.(origin := nodeID);
      var advanced := topk.Update(c);
      if advanced.Err? {
        return None, false;
      }
      if !advanced.value {
        return None, true;
      }
      deltaSeq := Next64(deltaSeq);
      return Some(StateDelta(TOPK, topk.version, nodeID, deltaSeq, TopBody(c))), true;
    }

    // -------------------------------------------------------------- received mutations

    method ApplyReceivedDelta(d: StateDelta, io: Wal.IO) returns (advanced: bool, ok: bool)
      requires Valid() && CanAppend()
      modifies Footprint()
      ensures Valid() && journal == old(journal) && (journal != null ==> journal.Valid())
      ensures outbound == old(outbound) && closed == old(closed)
      ensures Attempt(ok, advanced, Value()) ==
              Persist(old(Value()), Receive(old(Value()), d), old(Outcome(io)).Done?)
      ensures journal != null ==> State() == Step(old(State()), Received(d, old(Outcome(io))))
    {
      advanced, ok := ApplyReceivedDeltaLocked(d, true, io);
    }

    /** Merge first, journal if it was news, and undo the merge if the journal fails. */
    method ApplyReceivedDeltaLocked(d: StateDelta, persist: bool, io: Wal.IO) returns (advanced: bool, ok: bool)
      requires Valid() && (persist ==> CanAppend())
      modifies {this, sum, topk} + if persist then Footprint() else {}
      ensures Valid() && journal == old(journal) && outbound == old(outbound) && closed == old(closed)
      ensures persist && journal != null ==> journal.Valid()
      ensures var a := Receive(old(Value()), d);
              && Attempt(ok, advanced, Value()) == Persist(old(Value()), a, !persist || old(Outcome(io)).Done?)
              && (persist && journal != null ==>
                    DiskOf() == JournalOf(a, DeltaRecord(d), old(DiskOf()), old(Outcome(io))))
    {
      hide Storage.Store.Valid, Receive, TopK.CanonicalState, TopK.ValidCandidates, TopK.Canonical, Sum.ValidContrib;
      var beforeSequence := deltaSeq;
      var beforeSum := sum.Serialize();
      var beforeTop := topk.Serialize();
      advanced, ok := MergeDelta(d);
      if ok && advanced && persist {
        var appended := AppendDelta(d, io);
        if !appended {
          UndoDelta(d.kind, beforeSum, beforeTop, beforeSequence);
          return false, false;
        }
      }
    }

    /** The rollback of the aggregate that was merged. */
    method UndoDelta(kind: Kind, beforeSum: Sum.SumState, beforeTop: TopK.TopState, beforeSequence: U64)
      requires Valid()
      requires if kind == SUM then topk.Value() == beforeTop else sum.Value() == beforeSum
      requires nodeID in beforeSum.contrib && Sum.ValidContrib(beforeSum.contrib)
      requires TopK.CanonicalState(beforeTop, topk.kmax)
      modifies this`deltaSeq, sum, topk
      ensures Valid() && Value() == Replica(nodeID, topk.kmax, beforeSum, beforeTop, beforeSequence)
    {
      if kind == SUM {
        var _ := sum.Deserialize(beforeSum);
      } else {
        var _ := topk.Deserialize(beforeTop);
      }
      deltaSeq := beforeSequence;
    }

    method MergeDelta(d: StateDelta) returns (advanced: bool, ok: bool)
      requires Valid()
      modifies this`deltaSeq, sum, topk
      ensures Valid()
      ensures Attempt(ok, advanced, Value()) == Receive(old(Value()), d)
      ensures if d.kind == SUM then topk.Value() == old(topk.Value()) else sum.Value() == old(sum.Value())
    {
      match d.kind {
        case SUM =>
          var body := DecodeSumDelta(d);
          if body.None? {
            return false, false;
          }
          var merged := sum.Merge(Sum.SumState(map[body.value.node := body.value.value], d.version));
          advanced := merged.value;
        case TOPK =>
          var candidate := DecodeTopDelta(d);
          if candidate.None? {
            return false, false;
          }
          var merged := topk.Merge(TopK.TopState([candidate.value], d.version));
          // The error of an invalid candidate is lost here.
          advanced := merged.Ok? && merged.value;
        case OtherKind =>
          return false, false;
      }
      if d.origin == nodeID && d.sequence > deltaSeq {
        deltaSeq := d.sequence;
      }
      ok := true;
    }

    method ApplySnapshot(s: SnapshotResp, io: Wal.IO) returns (advanced: bool, ok: bool)
      requires Valid() && CanAppend()
      modifies Footprint()
      ensures Valid() && journal == old(journal) && (journal != null ==> journal.Valid())
      ensures outbound == old(outbound) && closed == old(closed)
      ensures Attempt(ok, advanced, Value()) ==
              Persist(old(Value()), MergeSnapshot(old(Value()), s), old(Outcome(io)).Done?)
      ensures journal != null ==> State() == Step(old(State()), Event.Snapshot(s, old(Outcome(io))))
    {
      hide Storage.Store.Valid, MergeSnapshot, Storage.Outcome, TopK.CanonicalState, TopK.ValidCandidates, TopK.Canonical,
        Sum.ValidContrib;
      var beforeSum := sum.Serialize();
      var beforeTop := topk.Serialize();
      var beforeSequence := deltaSeq;
      advanced, ok := ApplySnapshotLocked(s);
      if !ok || !advanced {
        return;
      }
      var appended := AppendSnapshot(s, io);
      if !appended {
        UndoSnapshot(beforeSum, beforeTop, beforeSequence);
        return false, false;
      }
    }

    /** Back to an earlier value of this manager, read from its serialised aggregates. */
    method UndoSnapshot(beforeSum: Sum.SumState, beforeTop: TopK.TopState, beforeSequence: U64)
      requires Valid()
      requires nodeID in beforeSum.contrib && Sum.ValidContrib(beforeSum.contrib)
      requires TopK.CanonicalState(beforeTop, topk.kmax)
      modifies this`deltaSeq, sum, topk
      ensures Valid() && Value() == Replica(nodeID, topk.kmax, beforeSum, beforeTop, beforeSequence)
    {
      var _ := sum.Deserialize(beforeSum);
      var _ := topk.Deserialize(beforeTop);
      deltaSeq := beforeSequence;
    }

    method ApplySnapshotLocked(s: SnapshotResp) returns (advanced: bool, ok: bool)
      requires Valid()
      modifies this`deltaSeq, sum, topk
      ensures Valid()
      ensures Attempt(ok, advanced, Value()) == MergeSnapshot(old(Value()), s)
    {
      advanced := false;
      if !s.sumState.Absent? {
        if s.sumState.Malformed? {
          return false, false;
        }
        var merged := sum.Merge(s.sumState.payload);
        if merged.Err? {
          return false, false;
        }
        advanced := merged.value;
      }
      if !s.topkState.Absent? {
        if s.topkState.Malformed? {
          return false, false;
        }
        var merged := topk.Merge(s.topkState.payload);
        if merged.Err? {
          return false, false;
        }
        advanced := advanced || merged.value;
      }
      if Get(s.sequences, nodeID) > deltaSeq {
        deltaSeq := Get(s.sequences, nodeID);
      }
      return advanced, true;
    }

    // -------------------------------------------------------------- recovery

    method RestoreCheckpoint(s: SnapshotResp) returns (ok: bool)
      requires Valid()
      modifies this`deltaSeq, sum, topk
      ensures Valid()
      ensures ok == Restore(old(Value()), s).ok && Value() == Restore(old(Value()), s).replica
    {
      if s.sumState.Absent? || s.topkState.Absent? || s.sumState.Malformed? {
        return false;
      }
      var restoredSum := sum.Deserialize(s.sumState.payload);
      if restoredSum.Err? || s.topkState.Malformed? {
        return false;
      }
      var restoredTop := topk.Deserialize(s.topkState.payload);
      if restoredTop.Err? {
        return false;
      }
      if Get(s.sequences, nodeID) > deltaSeq {
        deltaSeq := Get(s.sequences, nodeID);
      }
      return true;
    }

    method SetJournal(store: Store)
      requires Valid()
      modifies this`journal
      ensures Valid() && journal == store
    {
      journal := store;
    }

    method ReplayDelta(d: StateDelta) returns (ok: bool)
      requires Valid()
      modifies this, sum, topk
      ensures Valid() && journal == old(journal) && outbound == old(outbound) && closed == old(closed)
      ensures ok == Replay(old(Value()), DeltaRecord(d)).ok
      ensures Value() == Replay(old(Value()), DeltaRecord(d)).replica
    {
      var _, done := ApplyReceivedDeltaLocked(d, false, Wal.AllOk);
      return done;
    }

    method ReplaySnapshot(s: SnapshotResp) returns (ok: bool)
      requires Valid()
      modifies this`deltaSeq, sum, topk
      ensures Valid()
      ensures ok == Replay(old(Value()), SnapshotRecord(s)).ok
      ensures Value() == Replay(old(Value()), SnapshotRecord(s)).replica
    {
      var _, done := ApplySnapshotLocked(s);
      return done;
    }

    // -------------------------------------------------------------- reading

    method Digest() returns (d: StateDigest)
      ensures d == DigestOf(Value())
    {
      var sumState := sum.Serialize();
      var topkState := topk.Serialize();
      d := StateDigest(AggregateDigest(sum.version, OfSum(sumState)), AggregateDigest(topk.version, OfTop(topkState)), map[]);
      if deltaSeq > 0 {
        d := d.(sequences := map[nodeID := deltaSeq]);
      }
    }

    method Snapshot(want: seq<Kind>) returns (r: Option<SnapshotResp>)
      ensures r == SnapshotOf(Value(), want)
    {
      var resp := SnapshotResp(0, Absent, Absent, if deltaSeq > 0 then map[nodeID := deltaSeq] else map[]);
      for i := 0 to |want|
        invariant resp == SnapshotSoFar(Value(), want[..i])
        invariant forall k :: 0 <= k < i ==> want[k] != OtherKind
      {
        assert want[..i + 1] == want[..i] + [want[i]];
        match want[i]
        case SUM =>
          var raw := sum.Serialize();
          resp := resp.(sumState := Present(raw), version := Max64(resp.version, sum.version));
        case TOPK =>
          var raw := topk.Serialize();
          resp := resp.(topkState := Present(raw), version := Max64(resp.version, topk.version));
        case OtherKind =>
          return None;
      }
      assert want[..|want|] == want;
      if resp.sumState.Absent? && resp.topkState.Absent? {
        assert want != [] ==> want[0] == SUM || want[0] == TOPK;
        return None;
      }
      return Some(resp);
    }

    /** Publish the whole state as a checkpoint of everything journaled so far. */
    method Checkpoint(store: Store?, io: Wal.IO, publishes: bool) returns (ok: bool)
      requires Valid() && (store != null ==> store.Valid())
      modifies if store == null then {} else {store, store.wal}
      ensures store != null ==> store.Valid()
      ensures ok <==> store != null && !old(store.closed) && io == Wal.AllOk && publishes
      ensures store != null && store == journal ==>
                State() == if ok then Step(old(State()), CheckpointTaken) else old(State())
    {
      if store == null {
        return false;
      }
      hide Storage.Store.Valid;
      var state := Snapshot([SUM, TOPK]);
      assert SUM in [SUM, TOPK] && TOPK in [SUM, TOPK];
      ok := store.SaveCheckpoint(state.value, io, publishes);
    }

    /** The oldest published delta; None when the queue is empty. */
    method NextOutbound() returns (d: Option<StateDelta>)
      requires Valid()
      modifies this`outbound
      ensures Valid()
      ensures old(outbound) == [] ==> d == None && outbound == []
      ensures old(outbound) != [] ==> d.Some? && [d.value] + outbound == old(outbound)
    {
      if outbound == [] {
        return None;
      }
      d := Some(outbound[0]);
      outbound := outbound[1..];
    }
  }

  /** The response of snapshotLocked after the first names in `want`. */
  function SnapshotSoFar(r: Replica, want: seq<Kind>): SnapshotResp {
    var sumVersion := if SUM in want then r.sum.version else 0;
    var topVersion := if TOPK in want then r.topk.version else 0;
    SnapshotResp(Max64(sumVersion, topVersion),
                 if SUM in want then Present(r.sum) else Absent,
                 if TOPK in want then Present(r.topk) else Absent,
                 if r.deltaSeq > 0 then map[r.nodeId := r.deltaSeq] else map[])
  }

  /** recoverAggregation: a new manager ends as exactly what recovery from the store's disk computes, or the
      start-up fails, and then either the store could not be read or some replayed mutation failed. */
  method RecoverAggregation(manager: Manager, store: Store, io: Wal.IO) returns (ok: bool)
    requires manager.Valid() && store.Valid() && manager.journal == null
    requires manager.Value() == NewReplica(manager.nodeID, manager.topk.kmax)
    modifies manager, manager.sum, manager.topk, store.wal`durable
    ensures manager.Valid() && store.Valid() && manager.journal == null && store.DiskOf() == old(store.DiskOf())
    ensures manager.outbound == old(manager.outbound) && manager.closed == old(manager.closed)
    ensures ok ==> Recover(manager.nodeID, manager.topk.kmax, store.DiskOf()) == Some(manager.Value())
    ensures !ok <==> store.closed || io != Wal.AllOk || Recover(manager.nodeID, manager.topk.kmax, store.DiskOf()) == None
  {
    hide Storage.Store.Valid, Restore, ReplayAll, Manager.Valid;
    var recovery := store.Recover(io);
    if recovery.None? {
      return false;
    }
    var r := recovery.value;
    if r.checkpoint.Some? {
      var restored := manager.RestoreCheckpoint(r.checkpoint.value);
      if !restored {
        return false;
      }
    }
    ok := ReplayEach(manager, r.mutations);
  }

  /** The loop over the recovered mutations. */
  method ReplayEach(manager: Manager, ms: seq<Mutation>) returns (ok: bool)
    requires manager.Valid() && manager.journal == null
    modifies manager, manager.sum, manager.topk
    ensures manager.Valid() && manager.journal == null
    ensures manager.outbound == old(manager.outbound) && manager.closed == old(manager.closed)
    ensures ok ==> ReplayAll(old(manager.Value()), ms) == Some(manager.Value())
    ensures !ok ==> ReplayAll(old(manager.Value()), ms) == None
  {
    hide Receive, MergeSnapshot, Manager.Valid;
    ghost var start := manager.Value();
    for i := 0 to |ms|
      invariant manager.Valid() && manager.journal == null
      invariant manager.outbound == old(manager.outbound) && manager.closed == old(manager.closed)
      invariant ReplayAll(start, ms[..i]) == Some(manager.Value())
    {
      assert ms[..i + 1][..i] == ms[..i];
      var replayed;
      match ms[i] {
        case DeltaRecord(d) => replayed := manager.ReplayDelta(d);
        case SnapshotRecord(s) => replayed := manager.ReplaySnapshot(s);
      }
      if !replayed {
        ReplayStops(start, ms, i + 1);
        return false;
      }
    }
    assert ms[..|ms|] == ms;
    return true;
  }

  /** A replay that fails on a prefix fails. */
  lemma {:induction false} ReplayStops(r: Replica, ms: seq<Mutation>, n: nat)
    requires n <= |ms| && ReplayAll(r, ms[..n]) == None
    ensures ReplayAll(r, ms) == None
    decreases |ms|
  {
    if n == |ms| {
      assert ms[..n] == ms;
    } else {
      var init := ms[..|ms| - 1];
      assert init[..n] == ms[..n];
      ReplayStops(r, init, n);
    }
  }
}
