/** The Runtime object of internal/gossip/delta: handlers over one manager, one history and one message guard. */
module GossipRuntime {
  import opened Base
  import opened Protocol
  import opened History
  import opened Pipeline
  import opened Recovery
  import opened Runtime
  import Guard
  import Manager
  import Storage
  import Sum
  import Wal

  const DEFAULT_HISTORY_SIZE: nat := 1024

  function HistorySize(configured: int): nat {
    if configured <= 0 then DEFAULT_HISTORY_SIZE else configured
  }

  /** mergeWatermarks: the loop over the source, copying each strictly larger entry. */
  method CopyLarger(destination: map<NodeId, U64>, source: map<NodeId, U64>) returns (out: map<NodeId, U64>)
    ensures out == MergeWatermarks(destination, source)
    ensures forall o: NodeId :: Get(out, o) == Max64(Get(destination, o), Get(source, o))
  {
    out := destination;
    var todo := source.Keys;
    while todo != {}
      invariant todo <= source.Keys
      invariant out == MergeWatermarks(destination, Sum.Visited(source, todo))
      decreases todo
    {
      var o :| o in todo;
      Sum.VisitOne(destination, source, todo, o);
      if source[o] > Get(out, o) {
        out := out[o := source[o]];
      }
      todo := todo - {o};
    }
    assert Sum.Visited(source, {}) == source;
    forall o: NodeId ensures Get(out, o) == Max64(Get(destination, o), Get(source, o)) {
      Sum.MergeSumMax(destination, source, o);
    }
  }

  // ---------------------------------------------------------------- the loop over recovered deltas

  /** An append that was not needed might as well have succeeded. */
  lemma AppliedAsDone(n: Node, d: StateDelta, io: Append)
    requires DeltaApplied(n, d, io)
    ensures DeltaApplied(n, d, Done) && ApplyDelta(n, d, io) == ApplyDelta(n, d, Done)
  {
    hide Receive, AfterRecord;
  }

  /** A first part that went through can be split off. */
  lemma {:induction false} ApplyDeltasSplit(n: Node, ds: seq<StateDelta>, i: nat, failAt: nat, io: Append)
    requires i <= |ds| && i <= failAt && ApplyDeltas(n, ds[..i], i, Done).1
    ensures ApplyDeltas(n, ds, failAt, io) == ApplyDeltas(ApplyDeltas(n, ds[..i], i, Done).0, ds[i..], failAt - i, io)
    decreases i
  {
    hide ApplyDelta, DeltaApplied;
    if i == 0 {
      assert ds[0..] == ds && ds[..0] == [];
    } else {
      var n1 := ApplyDelta(n, ds[0], Done);
      assert ds[..i][0] == ds[0] && ds[..i][1..] == ds[1..][..i - 1];
      assert ds[1..][i - 1..] == ds[i..];
      ApplyDeltasSplit(n1, ds[1..], i - 1, failAt - 1, io);
    }
  }

  /** One more delta that went through, whatever its append did. */
  lemma ApplyDeltasOneMore(n: Node, m: Node, ds: seq<StateDelta>, i: nat, io: Append)
    requires i < |ds| && ApplyDeltas(n, ds[..i], i, Done) == (m, true) && DeltaApplied(m, ds[i], io)
    ensures ApplyDeltas(n, ds[..i + 1], i + 1, Done) == (ApplyDelta(m, ds[i], io), true)
  {
    AppliedAsDone(m, ds[i], io);
    hide ApplyDelta, DeltaApplied;
    assert ds[..i + 1][..i] == ds[..i] && ds[..i + 1][i..] == [ds[i]];
    ApplyDeltasSplit(n, ds[..i + 1], i, i + 1, Done);
    assert [ds[i]][1..] == [];
  }

  lemma ApplyDeltasStop(n: Node, m: Node, ds: seq<StateDelta>, i: nat, io: Append)
    requires i < |ds| && ApplyDeltas(n, ds[..i], i, Done) == (m, true) && !DeltaApplied(m, ds[i], io)
    ensures ApplyDeltas(n, ds, i, io) == (ApplyDelta(m, ds[i], io), false)
  {
    hide ApplyDelta, DeltaApplied;
    ApplyDeltasSplit(n, ds, i, i, io);
    assert ds[i..][0] == ds[i];
  }

  function Prepend(a: seq<StateDelta>, r: Option<seq<StateDelta>>): Option<seq<StateDelta>> {
    if r.None? then None else Some(a + r.value)
  }

  lemma PrependNothing(r: Option<seq<StateDelta>>)
    ensures Prepend([], r) == r
  {
    if r.Some? {
      assert [] + r.value == r.value;
    }
  }

  lemma PrependTwice(a: seq<StateDelta>, b: seq<StateDelta>, r: Option<seq<StateDelta>>)
    ensures Prepend(a, Prepend(b, r)) == Prepend(a + b, r)
  {
    if r.Some? {
      assert a + (b + r.value) == a + b + r.value;
    }
  }

  class GossipNode {
    const manager: Manager.Manager
    const history: DeltaHistory
    const guard: Guard.MessageGuard
    var outSeq: U64
    /** The history variable of Runtime.Node: no branch reads it. */
    var observed: set<StateDelta>

    ghost predicate Valid()
      reads this, manager, manager.sum, manager.topk, manager.journal, history, guard,
            if manager.journal == null then {} else {manager.journal.wal}
    {
      && manager.Valid() && history.Valid() && guard.Valid()
      && manager.journal != null && manager.journal.Valid()
    }

    ghost function NodeOf(): Node
      requires Valid()
      reads this, manager, manager.sum, manager.topk, manager.journal, history, guard,
            if manager.journal == null then {} else {manager.journal.wal}
    {
      Node(manager.Value(), history.Value(), manager.outbound, guard.highSeq, outSeq, manager.DiskOf(), observed)
    }

    /** Room in the journal for `k` more records. */
    ghost predicate Room(k: nat)
      reads manager, manager.journal, if manager.journal == null then {} else {manager.journal.wal}
    {
      manager.journal != null && manager.journal.wal.lastIndex + k <= MAX_U64
    }

    /** NewRuntime: the history starts at the sequence that the manager recovered. */
    constructor (manager: Manager.Manager, historySize: int, observed: set<StateDelta>)
      requires manager.Valid() && manager.journal != null && manager.journal.Valid()
      ensures Valid() && this.manager == manager && fresh(history) && fresh(guard)
      ensures this.observed == observed && outSeq == 0 && guard.highSeq == map[]
      ensures history.Value() ==
              AfterAdvance(NewHistory(HistorySize(historySize)), DigestOf(manager.Value()).sequences)
    {
      this.manager := manager;
      history := new DeltaHistory(HistorySize(historySize));
      guard := new Guard.MessageGuard(60);
      outSeq := 0;
      this.observed := observed;
      new;
      var digest := manager.Digest();
      history.AdvanceWatermarks(digest.sequences);
    }

    // -------------------------------------------------------------- sending

    method NewEnvelope(body: Body) returns (e: Envelope)
      modifies this`outSeq
      ensures outSeq == Next64(old(outSeq)) && e == Envelope(manager.nodeID, outSeq, body)
    {
      outSeq := Next64(outSeq);
      e := Envelope(manager.nodeID, outSeq, body);
    }

    method Known() returns (d: StateDigest)
      requires Valid()
      ensures d == LocalDigest(NodeOf())
    {
      d := manager.Digest();
      var reported := history.Watermarks();
      var merged := CopyLarger(d.sequences, reported);
      d := d.(sequences := merged);
    }

    method Broadcast() returns (sent: set<Envelope>)
      requires Valid()
      modifies this`outSeq
      ensures Valid()
      ensures var f := BroadcastDigest(old(NodeOf())); NodeOf() == f.node && sent == f.sent
    {
      var d := Known();
      var e := NewEnvelope(DigestMsg(d));
      sent := {e};
    }

    method SendState(want: seq<Kind>) returns (sent: set<Envelope>)
      requires Valid()
      modifies this`outSeq
      ensures Valid()
      ensures var f := SendSnapshot(old(NodeOf()), want); NodeOf() == f.node && sent == f.sent
    {
      var s := manager.Snapshot(want);
      if s.None? {
        return {};
      }
      var reported := history.Watermarks();
      var merged := CopyLarger(s.value.sequences, reported);
      var e := NewEnvelope(SnapRespMsg(s.value.(sequences := merged), observed));
      sent := {e};
    }

    // -------------------------------------------------------------- deltas

    method ApplyAndRecord(d: StateDelta, io: Wal.IO) returns (advanced: bool, ok: bool)
      requires Valid() && Room(1)
      modifies this`observed, manager.Footprint(), history
      ensures Valid() && manager.journal == old(manager.journal)
      ensures NodeOf() == ApplyDelta(old(NodeOf()), d, old(manager.Outcome(io)))
      ensures ok == DeltaApplied(old(NodeOf()), d, old(manager.Outcome(io)))
      ensures ok ==> advanced == Receive(old(manager.Value()), d).advanced
      ensures manager.journal.wal.lastIndex <= old(manager.journal.wal.lastIndex) + 1
    {
      hide Receive, Storage.Store.Valid, HistValid, AfterRecord, Manager.Manager.Valid, Guard.MessageGuard.Valid;
      advanced, ok := manager.ApplyReceivedDelta(d, io);
      if ok {
        var _ := history.Record(d);
        observed := observed + {d};
      }
    }

    method HandleStateDelta(e: Envelope, d: StateDelta, io: Wal.IO, now: int) returns (sent: set<Envelope>)
      requires Valid() && Room(1)
      modifies this`observed, guard, manager.Footprint(), history
      ensures Valid() && manager.journal == old(manager.journal)
      ensures var f := HandleDelta(old(NodeOf()), e, d, old(manager.Outcome(io)));
              NodeOf() == f.node && sent == f.sent
    {
      hide Receive, Storage.Store.Valid, HistValid, AfterRecord, ApplyDelta;
      ghost var n := NodeOf();
      var verdict := guard.Accept(e.from, e.sequence, now);
      if verdict != Guard.Accepted {
        return {};
      }
      GuardIrrelevant(n, n.(guard := guard.highSeq), d, manager.Outcome(io));
      var advanced, ok := ApplyAndRecord(d, io);
      if !ok || !advanced {
        return {};
      }
      sent := {e};
    }

    /** Apply the recovered deltas in order; the first one that is not applied ends the loop. `failAt` and
        `outcome` say how far the journal took them. */
    method ApplyRecovered(ds: seq<StateDelta>, ios: seq<Wal.IO>)
        returns (all: bool, ghost failAt: nat, ghost outcome: Append)
      requires Valid() && |ios| == |ds| && Room(|ds|)
      modifies this`observed, manager.Footprint(), history
      ensures Valid() && manager.journal == old(manager.journal)
      ensures ApplyDeltas(old(NodeOf()), ds, failAt, outcome) == (NodeOf(), all)
      ensures outcome != Done ==> failAt < |ds| && (manager.journal.closed || ios[failAt] != Wal.AllOk)
    {
      hide ApplyDelta, DeltaApplied, Storage.Store.Valid, HistValid, Manager.Manager.Valid, Guard.MessageGuard.Valid,
        GossipNode.NodeOf;
      failAt, outcome := |ds|, Done;
      ghost var n := NodeOf();
      assert ds[..0] == [];
      for i := 0 to |ds|
        invariant Valid() && manager.journal == old(manager.journal) && Room(|ds| - i)
        invariant ApplyDeltas(n, ds[..i], i, Done) == (NodeOf(), true)
      {
        ghost var m := NodeOf();
        ghost var o := manager.Outcome(ios[i]);
        var advanced, ok := ApplyAndRecord(ds[i], ios[i]);
        if !ok {
          failAt, outcome := i, o;
          ApplyDeltasStop(n, m, ds, i, o);
          return false, failAt, outcome;
        }
        ApplyDeltasOneMore(n, m, ds, i, o);
      }
      assert ds[..|ds|] == ds;
      return true, failAt, outcome;
    }

    /** A loop that stops early suppresses the digest. */
    method HandleDeltaRangeResp(ds: seq<StateDelta>, ios: seq<Wal.IO>)
        returns (sent: set<Envelope>, ghost failAt: nat, ghost outcome: Append)
      requires Valid() && |ios| == |ds| && Room(|ds|)
      modifies this`observed, this`outSeq, manager.Footprint(), history
      ensures Valid() && manager.journal == old(manager.journal)
      ensures var f := HandleRangeResp(old(NodeOf()), ds, failAt, outcome);
              NodeOf() == f.node && sent == f.sent
      ensures outcome != Done ==> failAt < |ds| && (manager.journal.closed || ios[failAt] != Wal.AllOk)
    {
      hide ApplyDeltas, Storage.Store.Valid, HistValid, ValidRecovered, Manager.Manager.Valid, Guard.MessageGuard.Valid;
      var valid := ValidateRecoveredDeltas(ds);
      if !valid {
        return {}, 0, Done;
      }
      var all;
      all, failAt, outcome := ApplyRecovered(ds, ios);
      if !all {
        return {}, failAt, outcome;
      }
      sent := Broadcast();
    }

    // -------------------------------------------------------------- digests and requests

    method HandleStateDigest(peer: StateDigest) returns (sent: set<Envelope>)
      requires Valid()
      modifies this`outSeq
      ensures Valid()
      ensures var f := HandleDigest(old(NodeOf()), peer); NodeOf() == f.node && sent == f.sent
    {
      hide LocalDigest, MissingRanges, AggregatesNeedingSnapshot, HistValid, Storage.Store.Valid;
      if !ValidSequences(peer.sequences) {
        return {};
      }
      var local := Known();
      var ranges := MissingDeltaRanges(local, peer);
      if |ranges| > 0 {
        RequestAgreement(local.sequences, peer.sequences);
        var valid := ValidateDeltaRanges(ranges);
        assert valid;
        var e := NewEnvelope(RangeReqMsg(ranges, local));
        return {e};
      }
      var want := AggregatesNeedingSnapshot(local, peer);
      if |want| == 0 {
        return {};
      }
      var e := NewEnvelope(SnapReqMsg(want, local));
      sent := {e};
    }

    /** All requested ranges in order, or nothing if one of them cannot be served in full. */
    method CollectDeltas(ranges: seq<DeltaRange>) returns (r: Option<seq<StateDelta>>)
      requires Valid()
      ensures r == CollectRanges(history.Value(), ranges)
    {
      hide RangeOf, HistValid;
      var deltas: seq<StateDelta> := [];
      PrependNothing(CollectRanges(history.Value(), ranges));
      assert ranges[0..] == ranges;
      for i := 0 to |ranges|
        invariant CollectRanges(history.Value(), ranges) == Prepend(deltas, CollectRanges(history.Value(), ranges[i..]))
      {
        assert ranges[i..][0] == ranges[i] && ranges[i..][1..] == ranges[i + 1..];
        var items := history.Range(ranges[i]);
        if items.None? {
          return None;
        }
        PrependTwice(deltas, items.value, CollectRanges(history.Value(), ranges[i + 1..]));
        deltas := deltas + items.value;
      }
      assert ranges[|ranges|..] == [] && deltas + [] == deltas;
      return Some(deltas);
    }

    method HandleDeltaRangeReq(ranges: seq<DeltaRange>, known: StateDigest) returns (sent: set<Envelope>)
      requires Valid()
      modifies this`outSeq
      ensures Valid()
      ensures var f := HandleRangeReq(old(NodeOf()), ranges, known); NodeOf() == f.node && sent == f.sent
    {
      hide HistValid, Storage.Store.Valid, RangeOf, SendSnapshot, FallbackWant, ValidRecovered, ValidRanges,
        CollectRanges;
      var valid := ValidateDeltaRanges(ranges);
      if !valid {
        return {};
      }
      var deltas := CollectDeltas(ranges);
      if deltas.None? {
        sent := SendFallback(known);
        return;
      }
      var servable := ValidateRecoveredDeltas(deltas.value);
      if !servable {
        return {};
      }
      var e := NewEnvelope(RangeRespMsg(deltas.value));
      sent := {e};
    }

    method SendFallback(known: StateDigest) returns (sent: set<Envelope>)
      requires Valid()
      modifies this`outSeq
      ensures Valid()
      ensures var f := SendSnapshot(old(NodeOf()), FallbackWant(old(NodeOf()), known)); NodeOf() == f.node && sent == f.sent
    {
      hide SendSnapshot, HistValid, Storage.Store.Valid;
      var local := manager.Digest();
      var want := AggregatesNeedingSnapshot(known, local);
      if |want| == 0 {
        want := [SUM, TOPK];
      }
      sent := SendState(want);
    }

    method HandleSnapshotReq(want: seq<Kind>) returns (sent: set<Envelope>)
      requires Valid()
      modifies this`outSeq
      ensures Valid()
      ensures var f := HandleSnapReq(old(NodeOf()), want); NodeOf() == f.node && sent == f.sent
    {
      hide SendSnapshot, HistValid, Storage.Store.Valid;
      if |want| == 0 {
        return {};
      }
      for i := 0 to |want|
        invariant forall k :: 0 <= k < i ==> want[k] != OtherKind
      {
        if want[i] == OtherKind {
          return {};
        }
      }
      sent := SendState(want);
    }

    /** Apply a snapshot and, if that succeeded, adopt its watermarks. */
    method Adopt(s: SnapshotResp, carried: set<StateDelta>, io: Wal.IO) returns (advanced: bool, ok: bool)
      requires Valid() && Room(1)
      modifies this`observed, manager.Footprint(), history
      ensures Valid() && manager.journal == old(manager.journal) && outSeq == old(outSeq)
      ensures Persist(old(manager.Value()), MergeSnapshot(old(manager.Value()), s), old(manager.Outcome(io)).Done?)
              == Attempt(ok, advanced, manager.Value())
      ensures var n1 := WithLive(old(NodeOf()), Step(LiveOf(old(NodeOf())), Event.Snapshot(s, old(manager.Outcome(io)))));
              NodeOf() == if ok then n1.(history := AfterAdvance(n1.history, s.sequences),
                                         observed := n1.observed + OfKinds(carried, Carries(s))) else n1
    {
      hide MergeSnapshot, AfterAdvance, HistValid, Storage.Store.Valid, OfKinds, Carries, Manager.Manager.Valid,
        Guard.MessageGuard.Valid;
      advanced, ok := manager.ApplySnapshot(s, io);
      if ok {
        history.AdvanceWatermarks(s.sequences);
        observed := observed + OfKinds(carried, Carries(s));
      }
    }

    method HandleSnapshotResp(s: SnapshotResp, carried: set<StateDelta>, io: Wal.IO) returns (sent: set<Envelope>)
      requires Valid() && Room(1)
      modifies this`observed, this`outSeq, manager.Footprint(), history
      ensures Valid() && manager.journal == old(manager.journal)
      ensures var f := HandleSnapResp(old(NodeOf()), s, carried, old(manager.Outcome(io)));
              NodeOf() == f.node && sent == f.sent
    {
      hide MergeSnapshot, AfterAdvance, HistValid, Storage.Store.Valid, LocalDigest, OfKinds, Manager.Manager.Valid,
        Guard.MessageGuard.Valid, ValidSequences, Step, GossipNode.NodeOf;
      NodeValue();
      if !ValidSequences(s.sequences) || (s.sumState.Absent? && s.topkState.Absent?) {
        return {};
      }
      assert Carries(s) != {};
      var advanced, ok := Adopt(s, carried, io);
      if !ok || !advanced {
        return {};
      }
      sent := Broadcast();
    }

    lemma NodeValue()
      requires Valid()
      ensures NodeOf().replica == manager.Value()
    {
    }

    // -------------------------------------------------------------- local updates

    /** ApplyLocalUpdate on the manager, with the history variable. */
    method Update(u: LocalUpdate, io: Wal.IO) returns (ok: bool)
      requires Valid() && Room(1) && !manager.closed
      modifies this`observed, manager.Footprint()
      ensures Valid() && manager.journal == old(manager.journal)
      ensures NodeOf() == LocalStep(old(NodeOf()), u, old(manager.Outcome(io)), manager.queueSize)
    {
      hide IssueLocal, HistValid, Storage.Store.Valid, Guard.MessageGuard.Valid, Storage.Outcome;
      var delta;
      delta, ok := manager.ApplyLocalUpdate(u, io);
      if delta.Some? {
        observed := observed + {delta.value};
      }
    }

    // -------------------------------------------------------------- dispatch and outbound

    /** The object does on every envelope exactly what the cluster model's step does, for the outcome that its
        journal had. */
    method HandleEnvelope(e: Envelope, ios: seq<Wal.IO>, now: int)
        returns (sent: set<Envelope>, ghost io: Append, ghost failAt: nat)
      requires Valid() && |ios| == (if e.body.RangeRespMsg? then |e.body.deltas| else 1) && Room(|ios|)
      modifies this`observed, this`outSeq, guard, manager.Footprint(), history
      ensures Valid() && manager.journal == old(manager.journal)
      ensures var f := Handle(old(NodeOf()), e, io, failAt); NodeOf() == f.node && sent == f.sent
    {
      hide HandleDelta, HandleDigest, HandleRangeReq, HandleRangeResp, HandleSnapReq, HandleSnapResp, HistValid,
        Storage.Store.Valid;
      failAt, io := 0, Done;
      match e.body
      case DeltaMsg(d) =>
        io := manager.Outcome(ios[0]);
        sent := HandleStateDelta(e, d, ios[0], now);
      case DigestMsg(digest) =>
        sent := HandleStateDigest(digest);
      case RangeReqMsg(ranges, known) =>
        sent := HandleDeltaRangeReq(ranges, known);
      case RangeRespMsg(ds) =>
        sent, failAt, io := HandleDeltaRangeResp(ds, ios);
      case SnapReqMsg(want, known) =>
        sent := HandleSnapshotReq(want);
      case SnapRespMsg(s, carried) =>
        io := manager.Outcome(ios[0]);
        sent := HandleSnapshotResp(s, carried, ios[0]);
    }

    /** One turn of runOutbound. */
    method TurnOutbound() returns (sent: set<Envelope>)
      requires Valid()
      modifies this`outSeq, manager`outbound, history
      ensures Valid() && manager.journal == old(manager.journal)
      ensures old(manager.outbound) == [] ==> NodeOf() == old(NodeOf()) && sent == {}
      ensures old(manager.outbound) != [] ==>
                var f := DequeueStep(old(NodeOf())); NodeOf() == f.node && sent == f.sent
    {
      hide AfterRecord, HistValid, Storage.Store.Valid;
      var d := manager.NextOutbound();
      if d.None? {
        return {};
      }
      var e := NewEnvelope(DeltaMsg(d.value));
      var _ := history.Record(d.value);
      sent := {e};
    }
  }

  /** The start of the service on what a crash of `n` left: a new manager is recovered from the store, only then is the
      store its journal, and a new runtime starts from it. Nothing volatile survives; start-up fails exactly when the
      store cannot be read or recovery has no result. */
  method Restart(store: Storage.Store, nodeID: NodeId, kmax: nat, queueSize: nat, historySize: int, io: Wal.IO,
                 ghost n: Node, observed: set<StateDelta>) returns (r: Option<GossipNode>)
    requires ValidNodeId(nodeID) && kmax > 0 && queueSize > 0 && store.Valid()
    requires n.replica.nodeId == nodeID && n.replica.kmax == kmax && n.observed == observed && n.disk == store.DiskOf()
    modifies store.wal`durable
    ensures r.None? <==> store.closed || io != Wal.AllOk || Recover(nodeID, kmax, n.disk) == None
    ensures r.Some? ==>
              && r.value.Valid() && fresh(r.value) && r.value.manager.journal == store && !r.value.manager.closed
              && r.value.NodeOf() == RestartStep(n, HistorySize(historySize))
  {
    hide Storage.Store.Valid, Recover, HistValid, AfterAdvance, Manager.Manager.Valid, Guard.MessageGuard.Valid;
    var manager := new Manager.Manager(nodeID, kmax, queueSize);
    var ok := Manager.RecoverAggregation(manager, store, io);
    if !ok {
      return None;
    }
    manager.SetJournal(store);
    var node := new GossipNode(manager, historySize, observed);
    return Some(node);
  }

  /** The message guard plays no part in applying a delta. */
  lemma GuardIrrelevant(n: Node, m: Node, d: StateDelta, io: Append)
    requires m == n.(guard := m.guard)
    ensures ApplyDelta(m, d, io) == ApplyDelta(n, d, io).(guard := m.guard)
    ensures DeltaApplied(m, d, io) == DeltaApplied(n, d, io)
  {
  }
}
