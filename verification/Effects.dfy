/** What each handler sends, and what it leaves for later: the half of a step that other nodes see. */
module Effects {
  import opened Base
  import opened TopK
  import opened Sum
  import opened Protocol
  import opened History
  import opened Pipeline
  import opened Recovery
  import opened Runtime
  import opened Knowledge
  import opened Handlers
  import opened Cluster
  import opened Rounds
  import opened RangeRepair
  import opened SnapshotRepair

  /** The one envelope with this body that `n` can send next. */
  function NextFrom(n: Node, body: Body): Envelope {
    Envelope(n.replica.nodeId, if n.outSeq == MAX_U64 then 0 else n.outSeq + 1, body)
  }

  // ---------------------------------------------------------------- flooded deltas

  /** News is flooded on as it came, and nothing else is: not what was accounted for, and not what the journal refused. */
  lemma DeltaFlooded(n: Node, e: Envelope, d: StateDelta, io: Append, failAt: nat)
    requires ReplicaValid(n.replica) && WellFormed(d) && e.body == DeltaMsg(d)
    requires e.from !in n.guard || e.sequence > n.guard[e.from]
    ensures var f := Handle(n, e, io, failAt);
            && (if io.Done? && !Subsumes(n.replica, d) then f.sent == {e} && f.forwarded == Some(d)
                else f.sent == {} && f.forwarded == None)
            && (io.Done? ==> Subsumes(f.node.replica, d))
            && (io.Done? || Subsumes(n.replica, d) ==> f.node.history == AfterRecord(n.history, d) && d in f.node.observed)
            && (!io.Done? && !Subsumes(n.replica, d) ==>
                  f.node.replica == n.replica && f.node.history == n.history && f.node.observed == n.observed)
            && f.node.queue == n.queue && f.node.outSeq == n.outSeq
  {
    ReceiveAdvancesOnce(n.replica, d);
    hide Subsumes, AfterRecord, Receive, ReplicaValid, WellFormed;
  }

  /** The guard lets an envelope of a flood in once: not again, and nothing older from the same sender. */
  lemma DeltaHeardOnce(n: Node, e: Envelope, d: StateDelta, io: Append, failAt: nat, e2: Envelope, x: StateDelta, io2: Append)
    requires e.body == DeltaMsg(d) && e2.body == DeltaMsg(x) && e2.from == e.from && e2.sequence <= e.sequence
    ensures var m := Handle(n, e, io, failAt).node; Handle(m, e2, io2, failAt) == Quiet(m)
  {
    hide ApplyDelta, DeltaApplied;
    GuardKept(n.(guard := n.guard[e.from := e.sequence]), d, io);
  }

  lemma GuardKept(n: Node, d: StateDelta, io: Append)
    ensures ApplyDelta(n, d, io).guard == n.guard
  {
  }

  /** In every run the delivery of a delta is one more forward exactly when it is accepted, journaled and news. */
  lemma FloodsOn(cfg: Config, ids: set<NodeId>, actions: seq<Action>, id: NodeId, e: Envelope, d: StateDelta, io: Append,
                 failAt: nat)
    requires ConfigOk(cfg) && ValidIds(ids) && id in ids && !io.WrittenNotSynced?
    requires e in Run(Start(cfg, ids), actions).net && e.body == DeltaMsg(d)
    ensures var c := Run(Start(cfg, ids), actions);
            && id in c.nodes && WellFormed(d)
            && var n := c.nodes[id];
               var news := (e.from !in n.guard || e.sequence > n.guard[e.from]) && io.Done? && !Subsumes(n.replica, d);
               var c' := Next(c, Action.Deliver(id, e, io, failAt));
               c'.forwards == (if news then c.forwards + [(id, d)] else c.forwards) && e in c'.net
  {
    var c := Run(Start(cfg, ids), actions);
    RunFacts(cfg, ids, actions, id, e);
    var n := c.nodes[id];
    hide Run, Start, Subsumes, WellFormed, ReplicaValid;
    if e.from !in n.guard || e.sequence > n.guard[e.from] {
      DeltaFlooded(n, e, d, io, failAt);
      hide Handle, AfterRecord;
    } else {
      Unheard(n, e, d, io, failAt);
      hide Handle, AfterRecord;
    }
  }

  lemma Unheard(n: Node, e: Envelope, d: StateDelta, io: Append, failAt: nat)
    requires e.body == DeltaMsg(d) && e.from in n.guard && e.sequence <= n.guard[e.from]
    ensures Handle(n, e, io, failAt) == Quiet(n)
  {
  }

  lemma RunFacts(cfg: Config, ids: set<NodeId>, actions: seq<Action>, id: NodeId, e: Envelope)
    requires ConfigOk(cfg) && ValidIds(ids) && id in ids && e in Run(Start(cfg, ids), actions).net
    ensures var c := Run(Start(cfg, ids), actions);
            id in c.nodes && ReplicaValid(c.nodes[id].replica) && (e.body.DeltaMsg? ==> WellFormed(e.body.delta))
  {
    var c := Run(Start(cfg, ids), actions);
    RunInv(cfg, ids, actions, {});
    hide Run, Start, WellFormed, ReplicaValid, Recover, Represents, HistoryOk, OwnOk;
    assert NodeInv(c.issued, cfg.kmax, {}, id, c.nodes[id]);
    assert MsgInv(c.issued, cfg.kmax, {}, e);
  }

  // ---------------------------------------------------------------- the outbound turn

  /** The oldest published delta is broadcast under the next sequence, recorded, and gone from the queue. */
  lemma OutboundTurn(n: Node)
    requires HistValid(n.history) && n.queue != [] && Recordable(n.queue[0])
    ensures var f := DequeueStep(n);
            var d := n.queue[0];
            var m := At(n.history, d.origin);
            && f.sent == {NextFrom(n, DeltaMsg(d))} && f.node.queue == n.queue[1..] && f.forwarded == None
            && f.node.replica == n.replica && f.node.disk == n.disk && f.node.guard == n.guard
            && (d.sequence in At(f.node.history, d.origin) <==>
                  d.sequence in m || |m| < n.history.capacity || exists s :: s in m && s < d.sequence)
            && (d.sequence !in m && d.sequence in At(f.node.history, d.origin) ==> At(f.node.history, d.origin)[d.sequence] == d)
  {
    var d := n.queue[0];
    RecordedWhen(n.history, d);
    if d.sequence !in At(n.history, d.origin) {
      RecordExact(n.history, d);
    }
    hide AfterRecord, HistValid;
  }

  /** A journaled update is the next message of a node that has nothing waiting, and the only one. */
  lemma UpdatePublished(n: Node, u: LocalUpdate, queueSize: nat)
    requires n.queue == [] && queueSize > 0 && IssueLocal(n.replica, u).Issued?
    ensures var m := LocalStep(n, u, Done, queueSize);
            && m.queue != [] && DequeueStep(m).node.queue == []
            && DequeueStep(m).sent == {NextFrom(n, DeltaMsg(IssueLocal(n.replica, u).delta))}
  {
    hide IssueLocal, AfterRecord;
    var a := IssueLocal(n.replica, u);
    assert a.replica.nodeId == n.replica.nodeId by { IssuedByItself(n.replica, u); }
  }

  lemma IssuedByItself(r: Replica, u: LocalUpdate)
    requires IssueLocal(r, u).Issued?
    ensures IssueLocal(r, u).replica.nodeId == r.nodeId
  {
  }

  /** First in, first out: an update never overtakes what is waiting, and with room for it in the queue it does not matter
      whether the next turn comes before or after it. A full queue keeps what it has. */
  lemma QueueOrder(n: Node, u: LocalUpdate, io: Append, queueSize: nat)
    requires n.queue != []
    ensures var m := LocalStep(n, u, io, queueSize);
            var turn := DequeueStep(n);
            && m.queue != [] && DequeueStep(m).sent == turn.sent
            && (|n.queue| < queueSize ==> DequeueStep(m).node.queue == LocalStep(turn.node, u, io, queueSize).queue)
            && (|n.queue| >= queueSize || !io.Done? || !IssueLocal(n.replica, u).Issued? ==> m.queue == n.queue)
  {
    if IssueLocal(n.replica, u).Issued? {
      IssuedByItself(n.replica, u);
    }
    hide IssueLocal, AfterRecord;
  }

  /** What the invariant says about the head of the queue: it was issued, and nothing else is stored in its place. */
  lemma HeadIssued(I: Issues, kmax: nat, K: set<Kind>, id: NodeId, n: Node)
    requires IssuesOk(I) && NodeInv(I, kmax, K, id, n) && n.queue != []
    ensures var d := n.queue[0];
            && WellFormed(d) && HistValid(n.history)
            && (d.sequence in At(n.history, d.origin) ==> At(n.history, d.origin)[d.sequence] == d)
  {
    var d := n.queue[0];
    hide Exact, Represents, OwnOk, AllIssued;
    assert IsIssued(I, d);
    if d.sequence in At(n.history, d.origin) {
      assert IsIssued(I, At(n.history, d.origin)[d.sequence]);
      assert SlotValid(d.origin, At(n.history, d.origin), Watermark(n.history, d.origin), n.history.capacity);
    }
  }

  /** A node can serve what it has just sent: a request for exactly that delta is answered with exactly that delta, as long
      as the history had room for it or something older to give up. */
  lemma OwnDeltaServed(I: Issues, kmax: nat, K: set<Kind>, id: NodeId, n: Node, e: Envelope, known: StateDigest)
    requires IssuesOk(I) && NodeInv(I, kmax, K, id, n) && n.queue != []
    requires var d := n.queue[0];
             e.body == RangeReqMsg([DeltaRange(d.origin, d.sequence, d.sequence)], known)
    requires var d := n.queue[0];
             var m := At(n.history, d.origin);
             d.sequence in m || |m| < n.history.capacity || exists s :: s in m && s < d.sequence
    ensures var m := DequeueStep(n).node;
            Handle(m, e, Done, 0) == Send(m, RangeRespMsg([n.queue[0]]))
  {
    hide NodeInv, IssuesOk, HistValid, WellFormed, AfterRecord, CollectRanges, ValidRanges, ValidRecovered, DequeueStep;
    OwnDeltaHeld(I, kmax, K, id, n);
    ServesOne(DequeueStep(n).node.history, n.queue[0]);
  }

  lemma OwnDeltaHeld(I: Issues, kmax: nat, K: set<Kind>, id: NodeId, n: Node)
    requires IssuesOk(I) && NodeInv(I, kmax, K, id, n) && n.queue != []
    requires var d := n.queue[0];
             var m := At(n.history, d.origin);
             d.sequence in m || |m| < n.history.capacity || exists s :: s in m && s < d.sequence
    ensures var d := n.queue[0];
            var h := DequeueStep(n).node.history;
            WellFormed(d) && d.sequence in At(h, d.origin) && At(h, d.origin)[d.sequence] == d
  {
    var d := n.queue[0];
    HeadIssued(I, kmax, K, id, n);
    hide NodeInv, IssuesOk, HistValid;
    assert Recordable(d);
    hide WellFormed, Recordable;
    OutboundTurn(n);
    if d.sequence in At(n.history, d.origin) {
      RecordView(n.history, d, d.origin);
    }
    hide AfterRecord;
  }

  lemma ServesOne(h: Hist, d: StateDelta)
    requires WellFormed(d) && d.sequence in At(h, d.origin) && At(h, d.origin)[d.sequence] == d
    ensures var r := DeltaRange(d.origin, d.sequence, d.sequence);
            ValidRanges([r]) && CollectRanges(h, [r]) == Some([d]) && ValidRecovered([d])
  {
    var r := DeltaRange(d.origin, d.sequence, d.sequence);
    RangeOkMeaning(r);
    var w := RangeOf(h, r);
    assert w.Some? && |w.value| == 1 && w.value[0] == d;
    assert w.value == [d];
    assert CollectRanges(h, []) == Some([]) && [r][1..] == [] && [d] + [] == [d];
  }

  // ---------------------------------------------------------------- snapshots and recovered deltas

  /** A good snapshot that is journaled raises every watermark to its own, and its news is announced by the new digest; a
      snapshot without news is not. */
  lemma SnapshotAnnounced(n: Node, e: Envelope, s: SnapshotResp, carried: set<StateDelta>, failAt: nat)
    requires ReplicaValid(n.replica) && HistValid(n.history) && e.body == SnapRespMsg(s, carried)
    requires ValidSequences(s.sequences) && !(s.sumState.Absent? && s.topkState.Absent?)
    requires SumFragmentOk(s.sumState) && TopFragmentOk(s.topkState)
    ensures var f := Handle(n, e, Done, failAt);
            && f.sent == (if SameContents(n.replica, f.node.replica) then {} else {NextFrom(n, DigestMsg(LocalDigest(f.node)))})
            && f.forwarded == None && f.node.history == AfterAdvance(n.history, s.sequences)
            && f.node.replica == MergeSnapshot(n.replica, s).replica
            && forall o :: Advertised(f.node, o) >= Get(s.sequences, o)
  {
    assert Carries(s) != {} by { assert SUM in Carries(s) || TOPK in Carries(s); }
    PulledContents(n.replica, s);
    SnapshotNews(n.replica, s);
    hide SumFragmentOk, TopFragmentOk, SameContents, Carries, MergeSnapshot;
    var f := HandleSnapResp(n, s, carried, Done);
    AnnouncedDigest(n, s, carried);
    hide AfterAdvance, HistValid, ReplicaValid, LocalDigest;
    assert Handle(n, e, Done, failAt) == f;
    forall o ensures Advertised(f.node, o) >= Get(s.sequences, o) {
      AdvertisedIs(f.node, o);
      AdoptedWatermark(n.history, s.sequences, o);
    }
  }

  lemma AdoptedWatermark(h: Hist, ws: map<NodeId, U64>, o: NodeId)
    requires HistValid(h) && ValidSequences(ws)
    ensures Watermark(AfterAdvance(h, ws), o) >= Get(ws, o)
  {
    AdvanceEffect(h, ws);
  }

  lemma SnapshotNews(r: Replica, s: SnapshotResp)
    requires ReplicaValid(r) && MergeSnapshot(r, s).ok
    ensures MergeSnapshot(r, s).advanced <==> !SameContents(r, MergeSnapshot(r, s).replica)
  {
    SnapshotGrows(r, s);
    if MergeSnapshot(r, s).advanced {
      AdvancedDiffers(r, SnapshotRecord(s));
    }
  }

  lemma AnnouncedDigest(n: Node, s: SnapshotResp, carried: set<StateDelta>)
    ensures var f := HandleSnapResp(n, s, carried, Done);
            && f.node.replica.nodeId == n.replica.nodeId && f.forwarded == None
            && (f.sent != {} ==> f.sent == {NextFrom(n, DigestMsg(LocalDigest(f.node)))})
  {
    assert MergeSnapshot(n.replica, s).replica.nodeId == n.replica.nodeId;
    hide MergeSnapshot, AfterAdvance, LocalDigest, Carries, ValidSequences;
    var f := HandleSnapResp(n, s, carried, Done);
    var m := f.node.(outSeq := n.outSeq);
    SameAdvertised(m, f.node);
  }

  /** A snapshot that fails, or whose news the journal refuses, says nothing and moves no watermark in the history. */
  lemma SnapshotNotAdopted(n: Node, e: Envelope, s: SnapshotResp, carried: set<StateDelta>, io: Append, failAt: nat)
    requires ReplicaValid(n.replica) && e.body == SnapRespMsg(s, carried)
    requires !SumFragmentOk(s.sumState) || !TopFragmentOk(s.topkState)
             || (!io.Done? && MergeSnapshot(n.replica, s).advanced)
    ensures var f := Handle(n, e, io, failAt);
            f.sent == {} && f.forwarded == None && f.node.history == n.history && f.node.observed == n.observed
  {
    hide AfterAdvance;
  }

  /** Recovered deltas that are all applied are answered by the new digest, with all of them accounted for; news that the
      journal refuses ends the response in silence. */
  lemma RecoveredAnnounced(n: Node, e: Envelope, ds: seq<StateDelta>, io: Append, failAt: nat)
    requires ReplicaValid(n.replica) && e.body == RangeRespMsg(ds)
    requires ds != [] && forall d :: d in ds ==> WellFormed(d)
    ensures var f := Handle(n, e, io, failAt);
            && f.sent == (if ApplyDeltas(n, ds, failAt, io).1 then {NextFrom(n, DigestMsg(LocalDigest(f.node)))} else {})
            && f.forwarded == None
            && (io.Done? ==> f.sent != {} && f.node.history == RecordAll(n.history, ds)
                             && forall d :: d in ds ==> Subsumes(f.node.replica, d))
            && (!io.Done? && failAt == 0 && !Subsumes(n.replica, ds[0]) ==>
                  f.sent == {} && f.node.history == n.history && f.node.replica == n.replica)
  {
    hide RecordAll, Subsumes, LocalDigest, WellFormed, ApplyDeltas, ValidRecovered;
    RecoveredSent(n, e, ds, io, failAt);
    hide Handle, ReplicaValid;
    if io.Done? {
      AnyFailAt(n, ds, failAt, |ds|);
      ApplyDeltasRecords(n, ds);
      ApplyDeltasSubsume(n, ds);
    } else if failAt == 0 && !Subsumes(n.replica, ds[0]) {
      FirstRefused(n, ds, io);
    }
  }

  /** What goes out, and that sending it changes nothing else. */
  lemma RecoveredSent(n: Node, e: Envelope, ds: seq<StateDelta>, io: Append, failAt: nat)
    requires e.body == RangeRespMsg(ds) && ds != [] && forall d :: d in ds ==> WellFormed(d)
    ensures var f := Handle(n, e, io, failAt);
            var r := ApplyDeltas(n, ds, failAt, io);
            && f.sent == (if r.1 then {NextFrom(n, DigestMsg(LocalDigest(f.node)))} else {})
            && f.forwarded == None && f.node.history == r.0.history && f.node.replica == r.0.replica
  {
    hide LocalDigest, WellFormed, ApplyDeltas, ValidRecovered;
    AllRecoverable(ds);
    ApplyDeltasSends(n, ds, failAt, io);
    SameAdvertised(ApplyDeltas(n, ds, failAt, io).0, Handle(n, e, io, failAt).node);
  }

  lemma AllRecoverable(ds: seq<StateDelta>)
    requires ds != [] && forall d :: d in ds ==> WellFormed(d)
    ensures ValidRecovered(ds)
  {
    forall i | 0 <= i < |ds| ensures ValidRecoveredDelta(ds[i]) {
      assert ds[i] in ds;
    }
  }

  lemma FirstRefused(n: Node, ds: seq<StateDelta>, io: Append)
    requires ReplicaValid(n.replica) && ds != [] && WellFormed(ds[0]) && !io.Done? && !Subsumes(n.replica, ds[0])
    ensures var r := ApplyDeltas(n, ds, 0, io);
            !r.1 && r.0.history == n.history && r.0.replica == n.replica
  {
    ReceiveAdvancesOnce(n.replica, ds[0]);
    hide Subsumes, ReplicaValid, WellFormed, Receive;
  }

  lemma {:induction false} ApplyDeltasSends(n: Node, ds: seq<StateDelta>, failAt: nat, io: Append)
    ensures ApplyDeltas(n, ds, failAt, io).0.outSeq == n.outSeq
    ensures ApplyDeltas(n, ds, failAt, io).0.replica.nodeId == n.replica.nodeId
    decreases |ds|
  {
    hide ApplyDelta, DeltaApplied;
    if ds != [] {
      var now := if failAt > 0 then Done else io;
      ApplyDeltaSends(n, ds[0], now);
      ApplyDeltasSends(ApplyDelta(n, ds[0], now), ds[1..], if failAt > 0 then failAt - 1 else 0, io);
    }
  }

  lemma ApplyDeltaSends(n: Node, d: StateDelta, io: Append)
    ensures ApplyDelta(n, d, io).outSeq == n.outSeq && ApplyDelta(n, d, io).replica.nodeId == n.replica.nodeId
  {
  }

  lemma {:induction false} AnyFailAt(n: Node, ds: seq<StateDelta>, i: nat, j: nat)
    ensures ApplyDeltas(n, ds, i, Done) == ApplyDeltas(n, ds, j, Done)
    decreases |ds|
  {
    hide ApplyDelta, DeltaApplied;
    if ds != [] {
      AnyFailAt(ApplyDelta(n, ds[0], Done), ds[1..], if i > 0 then i - 1 else 0, if j > 0 then j - 1 else 0);
    }
  }

  lemma {:induction false} ApplyDeltasSubsume(n: Node, ds: seq<StateDelta>)
    requires ReplicaValid(n.replica) && forall d :: d in ds ==> WellFormed(d)
    ensures var r := ApplyDeltas(n, ds, |ds|, Done).0.replica;
            ContentsLeq(n.replica, r) && forall d :: d in ds ==> Subsumes(r, d)
    decreases |ds|
  {
    if ds == [] {
      ReflexiveLeq(n.replica);
    } else {
      assert ds[0] in ds;
      ReceiveAdvancesOnce(n.replica, ds[0]);
      ReceiveGrows(n.replica, ds[0]);
      hide ReplicaValid, WellFormed, ContentsLeq, Subsumes, AfterRecord, Receive;
      var n1 := ApplyDelta(n, ds[0], Done);
      ApplyDeltasSubsume(n1, ds[1..]);
      var r := ApplyDeltas(n1, ds[1..], |ds| - 1, Done).0.replica;
      LeqTransitive(n.replica, n1.replica, r);
      StaysSubsumed(n1.replica, r, ds[0]);
    }
  }

  lemma StaysSubsumed(a: Replica, b: Replica, d: StateDelta)
    requires WellFormed(d) && ContentsLeq(a, b) && Subsumes(a, d)
    ensures Subsumes(b, d)
  {
    assert Get(a.sum.contrib, d.origin) <= Get(b.sum.contrib, d.origin);
  }

  // ---------------------------------------------------------------- digests and requests

  /** A digest that shows gaps is answered by a request for them, one range for each, from just above the own watermark; one
      that shows none, by a request for the aggregates in which the peer is ahead or differs, if there are any. Either way
      the request tells what this node has. */
  lemma DigestAnswered(x: Node, y: Node, e: Envelope, io: Append, failAt: nat)
    requires Ready(x) && e.body == DigestMsg(LocalDigest(x))
    ensures var f := Handle(y, e, io, failAt);
            var ranges := MissingRanges(LocalDigest(y).sequences, LocalDigest(x).sequences);
            var want := AggregatesNeedingSnapshot(LocalDigest(y), LocalDigest(x));
            && f.sent == (if !NoGap(x, y) then {NextFrom(y, RangeReqMsg(ranges, LocalDigest(y)))}
                          else if want != [] then {NextFrom(y, SnapReqMsg(want, LocalDigest(y)))} else {})
            && f.node == y.(outSeq := f.node.outSeq) && f.forwarded == None
            && (forall r :: r in ranges ==>
                  && Gap(x, y, r.origin) > 0 && r.from == Advertised(y, r.origin) + 1
                  && r.to == Advertised(y, r.origin) + (if Gap(x, y, r.origin) > 256 then 256 else Gap(x, y, r.origin)))
            && (forall o :: Gap(x, y, o) > 0 ==> exists r :: r in ranges && r.origin == o)
            && (ranges != [] ==> DistinctOrigins(ranges))
            && (SUM in want <==> x.replica.sum.version > y.replica.sum.version
                                 || (x.replica.sum.version == y.replica.sum.version && x.replica.sum != y.replica.sum))
            && (TOPK in want <==> x.replica.topk.version > y.replica.topk.version
                                  || (x.replica.topk.version == y.replica.topk.version && x.replica.topk != y.replica.topk))
  {
    var ranges := MissingRanges(LocalDigest(y).sequences, LocalDigest(x).sequences);
    var want := AggregatesNeedingSnapshot(LocalDigest(y), LocalDigest(x));
    WantMeans(x, y);
    hide LocalDigest, AggregatesNeedingSnapshot, HistValid, ReplicaValid;
    DigestValid(x);
    RequestIs(x, y);
    hide MissingRanges, Asked, Ready;
    forall r | r in ranges
      ensures r.from == Advertised(y, r.origin) + 1
      ensures r.to == Advertised(y, r.origin) + (if Gap(x, y, r.origin) > 256 then 256 else Gap(x, y, r.origin))
    {
      AskedIs(x, y, r.origin);
    }
    forall o | Gap(x, y, o) > 0 ensures exists r :: r in ranges && r.origin == o {
      AskedIs(x, y, o);
      assert Asked(x, y, o) in ranges;
    }
    SomeRangeOrNone(ranges);
    hide Gap, Advertised;
    assert ranges != [] <==> !NoGap(x, y);
  }

  lemma SomeRangeOrNone(ranges: seq<DeltaRange>)
    ensures ranges == [] || exists r :: r in ranges
  {
    if ranges != [] {
      assert ranges[0] in ranges;
    }
  }

  lemma WantMeans(x: Node, y: Node)
    ensures var want := AggregatesNeedingSnapshot(LocalDigest(y), LocalDigest(x));
            && (SUM in want <==> x.replica.sum.version > y.replica.sum.version
                                 || (x.replica.sum.version == y.replica.sum.version && x.replica.sum != y.replica.sum))
            && (TOPK in want <==> x.replica.topk.version > y.replica.topk.version
                                  || (x.replica.topk.version == y.replica.topk.version && x.replica.topk != y.replica.topk))
  {
  }

  /** A request that the history covers is answered by all its deltas. */
  lemma RangesServed(x: Node, e: Envelope, ranges: seq<DeltaRange>, known: StateDigest, io: Append, failAt: nat)
    requires Ready(x) && StoredWellFormed(x.history) && ValidRanges(ranges) && e.body == RangeReqMsg(ranges, known)
    requires forall r :: r in ranges ==> RangeOf(x.history, r).Some?
    ensures CollectRanges(x.history, ranges).Some?
    ensures var ds := CollectRanges(x.history, ranges).value;
            && Handle(x, e, io, failAt) == Send(x, RangeRespMsg(ds))
            && forall r, d :: r in ranges && d in RangeOf(x.history, r).value ==> d in ds
  {
    hide RangeOf, HistValid, ReplicaValid;
    CollectAll(x.history, ranges);
    var ds := CollectRanges(x.history, ranges).value;
    assert ranges[0] in ranges;
    ServedValid(x, ranges, ds, ranges[0]);
    forall r, d | r in ranges && d in RangeOf(x.history, r).value ensures d in ds {
      var i :| 0 <= i < |ranges| && ranges[i] == r;
      var pre, post := CollectSplits(x.history, ranges, i);
    }
    hide CollectRanges, ValidRanges, ValidRecovered, Ready, StoredWellFormed, Send;
  }

  /** One that it does not cover is answered by a snapshot of what the requester's digest lacks. */
  lemma RangesNotServed(x: Node, e: Envelope, ranges: seq<DeltaRange>, known: StateDigest, r: DeltaRange, io: Append,
                        failAt: nat)
    requires Ready(x) && ValidRanges(ranges) && e.body == RangeReqMsg(ranges, known)
    requires r in ranges && RangeOf(x.history, r).None?
    ensures var want := FallbackWant(x, known);
            Wanted(want) && Handle(x, e, io, failAt) == Send(x, SnapRespMsg(AnswerTo(x, want), x.observed))
  {
    hide RangeOf, ValidRanges, StoredWellFormed, HistValid, ReplicaValid, LocalDigest;
    NotCollected(x.history, ranges, r);
    assert Wanted(FallbackWant(x, known));
    AnswerIs(x, FallbackWant(x, known));
    hide FallbackWant, AnswerTo, CollectRanges, Ready;
  }

  lemma {:induction false} NotCollected(h: Hist, ranges: seq<DeltaRange>, r: DeltaRange)
    requires r in ranges && RangeOf(h, r).None?
    ensures CollectRanges(h, ranges).None?
  {
    hide RangeOf;
    if ranges[0] != r {
      assert r in ranges[1..];
      NotCollected(h, ranges[1..], r);
    }
  }

  /** The fallback carries the aggregates in which the requester's digest is behind or differs, or both when there is no
      such aggregate. */
  lemma FallbackCarries(x: Node, y: Node)
    ensures var want := FallbackWant(x, LocalDigest(y));
            var sum := x.replica.sum.version > y.replica.sum.version
                       || (x.replica.sum.version == y.replica.sum.version && x.replica.sum != y.replica.sum);
            var top := x.replica.topk.version > y.replica.topk.version
                       || (x.replica.topk.version == y.replica.topk.version && x.replica.topk != y.replica.topk);
            (SUM in want <==> sum || !top) && (TOPK in want <==> top || !sum)
  {
  }

  /** A snapshot request is answered with what it wants, under every watermark that the node advertises. */
  lemma SnapshotRequestAnswered(x: Node, e: Envelope, want: seq<Kind>, known: StateDigest, io: Append, failAt: nat)
    requires Ready(x) && e.body == SnapReqMsg(want, known)
    ensures var f := Handle(x, e, io, failAt);
            && f.node == x.(outSeq := f.node.outSeq) && f.forwarded == None
            && (if want != [] && OtherKind !in want then
                  Wanted(want) && f.sent == {NextFrom(x, SnapRespMsg(AnswerTo(x, want), x.observed))}
                else f.sent == {})
    ensures Wanted(want) ==> forall o :: Get(AnswerTo(x, want).sequences, o) == Advertised(x, o)
  {
    if want != [] && OtherKind !in want {
      assert forall i :: 0 <= i < |want| ==> want[i] in want;
      AnswerIs(x, want);
    } else if want != [] {
      var i :| 0 <= i < |want| && want[i] == OtherKind;
    }
    hide LocalDigest, HistValid, ReplicaValid;
  }

  // ---------------------------------------------------------------- restarts

  /** After a restart only what was on disk is left: contents and own sequence, and of all watermarks the own one. */
  lemma RestartView(n: Node, capacity: nat)
    requires Exact(LiveOf(n)) && capacity > 0 && ValidNodeId(n.replica.nodeId)
    ensures var m := RestartStep(n, capacity);
            && m.queue == [] && m.guard == map[] && m.outSeq == 0 && m.disk == n.disk && m.observed == n.observed
            && SameContents(m.replica, n.replica) && m.replica.deltaSeq == n.replica.deltaSeq
            && Watermark(m.history, n.replica.nodeId) == n.replica.deltaSeq
            && (forall o :: At(m.history, o) == map[])
            && (forall o :: Advertised(m, o) == if o == n.replica.nodeId then n.replica.deltaSeq else 0)
  {
    var m := RestartStep(n, capacity);
    var h := NewHistory(capacity);
    var ws := DigestOf(m.replica).sequences;
    assert m.replica.nodeId == n.replica.nodeId && m.replica.deltaSeq == n.replica.deltaSeq
           && SameContents(m.replica, n.replica);
    hide Exact, SameContents, Recover, AfterAdvance, LocalDigest;
    forall o
      ensures At(m.history, o) == map[]
      ensures Watermark(m.history, o) == if o == n.replica.nodeId then n.replica.deltaSeq else 0
      ensures Advertised(m, o) == if o == n.replica.nodeId then n.replica.deltaSeq else 0
    {
      AdvanceView(h, ws, o);
      AdvertisedIs(m, o);
      assert DropThrough(map[], Get(ws, o)) == map[];
    }
  }

  /** A restarted node counts its envelopes from 1 again, while its peers' guards remember: its first flood reaches a peer
      if and only if that peer has not accepted a flood of it before. Digests and repair do not pass the guard. */
  lemma FloodAfterRestart(n: Node, p: Node, capacity: nat, d: StateDelta, io: Append, failAt: nat)
    ensures var m := RestartStep(n, capacity).(queue := [d]);
            var e := Envelope(m.replica.nodeId, 1, DeltaMsg(d));
            && DequeueStep(m).sent == {e}
            && (Accepts(p.guard, e.from, e.sequence) <==> e.from !in p.guard || p.guard[e.from] == 0)
            && (e.from in p.guard && p.guard[e.from] > 0 ==> Handle(p, e, io, failAt) == Quiet(p))
  {
    hide AfterAdvance, AfterRecord, Recover;
  }
}
