/** Every handler keeps the node invariant and sends only honest messages. */
module Handlers {
  import opened Base
  import opened TopK
  import opened Sum
  import opened Protocol
  import opened History
  import opened Pipeline
  import opened Recovery
  import opened Runtime
  import opened Knowledge

  // ---------------------------------------------------------------- watermarks

  lemma CoveredExtends(I: Issues, o: NodeId, w: U64, w': U64, S: set<StateDelta>, T: set<StateDelta>, K: set<Kind>)
    requires SeqCovered(I, o, w, S, K) && S <= T
    requires forall s: U64 :: w < s <= w' ==> Reached(I, o, s, T, K)
    ensures SeqCovered(I, o, w', T, K)
  {
    forall s: U64 | 1 <= s <= w' ensures Reached(I, o, s, T, K) {
      if s <= w { assert Reached(I, o, s, S, K); }
    }
  }

  lemma StoredReached(I: Issues, K: set<Kind>, h: Hist, S: set<StateDelta>, o: NodeId, s: U64)
    requires HistoryOk(I, K, h, S) && s in At(h, o)
    ensures Reached(I, o, s, S, K)
  {
    assert SlotValid(o, At(h, o), Watermark(h, o), h.capacity);
  }

  lemma RecordCovers(I: Issues, K: set<Kind>, h: Hist, d: StateDelta, S: set<StateDelta>, T: set<StateDelta>, o: NodeId)
    requires HistoryOk(I, K, h, S) && S <= T && IsIssued(I, d) && d in T
    ensures SeqCovered(I, o, Watermark(AfterRecord(h, d), o), T, K)
  {
    RecordView(h, d, o);
    var w := Watermark(h, o);
    assert SeqCovered(I, o, w, S, K) && SlotValid(o, At(h, o), w, h.capacity);
    if o == d.origin && Recordable(d) && d.sequence !in At(h, o) {
      SlotRecord(At(h, o), w, d, h.capacity);
      var w' := Watermark(AfterRecord(h, d), o);
      forall s: U64 | w < s <= w' ensures Reached(I, o, s, T, K) {
        if s in At(h, o) { StoredReached(I, K, h, S, o, s); }
      }
      CoveredExtends(I, o, w, w', S, T, K);
    } else {
      CoveredExtends(I, o, w, w, S, T, K);
    }
  }

  lemma RecordKeepsHistoryOk(I: Issues, K: set<Kind>, h: Hist, d: StateDelta, S: set<StateDelta>, T: set<StateDelta>)
    requires HistoryOk(I, K, h, S) && S <= T && IsIssued(I, d) && d in T
    ensures HistoryOk(I, K, AfterRecord(h, d), T)
  {
    RecordEffect(h, d);
    forall o ensures SeqCovered(I, o, Watermark(AfterRecord(h, d), o), T, K) {
      RecordCovers(I, K, h, d, S, T, o);
    }
  }

  lemma AdvanceCovers(I: Issues, K: set<Kind>, h: Hist, ws: map<NodeId, U64>,
                      S: set<StateDelta>, T: set<StateDelta>, o: NodeId)
    requires HistoryOk(I, K, h, S) && S <= T && SeqCovered(I, o, Get(ws, o), T, K)
    ensures SeqCovered(I, o, Watermark(AfterAdvance(h, ws), o), T, K)
  {
    AdvanceView(h, ws, o);
    var w := Watermark(h, o);
    assert SeqCovered(I, o, w, S, K) && SlotValid(o, At(h, o), w, h.capacity);
    if Lifts(h, ws, o) {
      SlotAdvance(o, At(h, o), w, ws[o], h.capacity);
      var w' := Watermark(AfterAdvance(h, ws), o);
      forall s: U64 | ws[o] < s <= w' ensures Reached(I, o, s, T, K) {
        StoredReached(I, K, h, S, o, s);
      }
      CoveredExtends(I, o, ws[o], w', T, T, K);
    } else {
      CoveredExtends(I, o, w, w, S, T, K);
    }
  }

  lemma AdvanceKeepsHistoryOk(I: Issues, K: set<Kind>, h: Hist, ws: map<NodeId, U64>,
                              S: set<StateDelta>, T: set<StateDelta>)
    requires HistoryOk(I, K, h, S) && S <= T
    requires forall o :: SeqCovered(I, o, Get(ws, o), T, K)
    ensures HistoryOk(I, K, AfterAdvance(h, ws), T)
  {
    AdvanceEffect(h, ws);
    forall o ensures SeqCovered(I, o, Watermark(AfterAdvance(h, ws), o), T, K) {
      AdvanceCovers(I, K, h, ws, S, T, o);
    }
  }

  /** What a node advertises is honest. */
  lemma AdvertisedCovered(I: Issues, kmax: nat, K: set<Kind>, id: NodeId, n: Node, o: NodeId)
    requires NodeInv(I, kmax, K, id, n)
    ensures SeqCovered(I, o, Advertised(n, o), n.observed, K)
  {
    AdvertisedIs(n, o);
    assert SeqCovered(I, o, Watermark(n.history, o), n.observed, K);
  }

  // ---------------------------------------------------------------- received deltas

  lemma ReceiveRepresentsSum(r: Replica, S: set<StateDelta>, d: StateDelta)
    requires RepSum(r.sum.contrib, S) && WellFormed(d)
    ensures RepSum(Receive(r, d).replica.sum.contrib, S + {d})
  {
    if d.kind == SUM {
      RepSumDelta(d);
      RepSumMerge(r.sum.contrib, map[d.origin := d.body.value], S, {d});
    } else {
      RepOwnKind(r.sum.contrib, [], S, S + {d}, 0);
    }
  }

  lemma ReceiveRepresentsTop(r: Replica, S: set<StateDelta>, d: StateDelta)
    requires RepTop(r.topk.candidates, S, r.kmax) && WellFormed(d) && r.kmax > 0
    ensures RepTop(Receive(r, d).replica.topk.candidates, S + {d}, r.kmax)
  {
    if d.kind == TOPK {
      RepTopDelta(d, r.kmax);
      RepTopMerge(r.topk.candidates, [d.body.candidate], S, {d}, r.kmax);
    } else {
      RepOwnKind(map[], r.topk.candidates, S, S + {d}, r.kmax);
    }
  }

  lemma ReceiveRepresents(r: Replica, S: set<StateDelta>, d: StateDelta)
    requires r.kmax > 0 && Represents(r, S) && WellFormed(d)
    ensures Represents(Receive(r, d).replica, S + {d})
  {
    ReceiveRepresentsSum(r, S, d);
    ReceiveRepresentsTop(r, S, d);
  }

  /** The durable half of applying an issued delta. */
  lemma ReceivedLive(I: Issues, kmax: nat, K: set<Kind>, id: NodeId, n: Node, d: StateDelta, io: Append)
    requires IssuesOk(I) && NodeInv(I, kmax, K, id, n) && IsIssued(I, d) && !io.WrittenNotSynced?
    ensures var s := Step(LiveOf(n), Received(d, io));
            && Exact(s) && s.replica.deltaSeq == n.replica.deltaSeq && ContentsLeq(n.replica, s.replica)
    ensures Receive(n.replica, d).ok && WellFormed(d)
  {
    ReceivedExact(LiveOf(n), d, io);
    ReceiveGrows(n.replica, d);
    ReceiveAdvancesOnce(n.replica, d);
    ReflexiveLeq(n.replica);
  }

  /** Applying an issued delta, whether or not its journal append succeeds. */
  lemma ApplyDeltaInv(I: Issues, kmax: nat, K: set<Kind>, id: NodeId, n: Node, d: StateDelta, io: Append)
    requires IssuesOk(I) && NodeInv(I, kmax, K, id, n) && IsIssued(I, d) && !io.WrittenNotSynced?
    ensures var n' := ApplyDelta(n, d, io);
            && NodeInv(I, kmax, K, id, n')
            && ContentsLeq(n.replica, n'.replica) && n.observed <= n'.observed
            && (DeltaApplied(n, d, io) ==> d in n'.observed)
            && (Receive(n.replica, d).advanced ==> d !in n.observed)
  {
    ReceivedLive(I, kmax, K, id, n, d, io);
    assert Receive(n.replica, d).advanced ==> d !in n.observed by {
      ReceiveAdvancesOnce(n.replica, d);
      if d in n.observed { RepresentsSubsumes(n.replica, n.observed, d); }
    }
    if DeltaApplied(n, d, io) {
      ReceiveRepresents(n.replica, n.observed, d);
      RecordKeepsHistoryOk(I, K, n.history, d, n.observed, n.observed + {d});
    }
  }

  lemma {:induction false} ApplyDeltasInv(I: Issues, kmax: nat, K: set<Kind>, id: NodeId, n: Node,
                                          ds: seq<StateDelta>, failAt: nat, io: Append)
    requires IssuesOk(I) && NodeInv(I, kmax, K, id, n) && forall d :: d in ds ==> IsIssued(I, d)
    requires !io.WrittenNotSynced?
    ensures var r := ApplyDeltas(n, ds, failAt, io);
            && NodeInv(I, kmax, K, id, r.0)
            && ContentsLeq(n.replica, r.0.replica) && n.observed <= r.0.observed
    decreases |ds|
  {
    if ds == [] {
      ReflexiveLeq(n.replica);
    } else {
      var now := if failAt > 0 then Done else io;
      ApplyDeltaInv(I, kmax, K, id, n, ds[0], now);
      RecordEffect(n.history, ds[0]);
      if DeltaApplied(n, ds[0], now) {
        var n1 := ApplyDelta(n, ds[0], now);
        var rest := if failAt > 0 then failAt - 1 else 0;
        ApplyDeltasInv(I, kmax, K, id, n1, ds[1..], rest, io);
        LeqTransitive(n.replica, n1.replica, ApplyDeltas(n1, ds[1..], rest, io).0.replica);
      }
    }
  }

  // ---------------------------------------------------------------- snapshots

  lemma SnapshotRepresents(r: Replica, S: set<StateDelta>, s: SnapshotResp, T: set<StateDelta>)
    requires ReplicaValid(r) && Represents(r, S)
    requires !s.sumState.Malformed? && !s.topkState.Malformed?
    requires s.sumState.Present? ==> ValidContrib(s.sumState.payload.contrib) && RepSum(s.sumState.payload.contrib, T)
    requires s.topkState.Present? ==>
               ValidCandidates(s.topkState.payload.candidates) && RepTop(s.topkState.payload.candidates, T, r.kmax)
    ensures Represents(MergeSnapshot(r, s).replica, S + OfKinds(T, Carries(s)))
  {
    var U := S + OfKinds(T, Carries(s));
    var m := MergeSnapshot(r, s).replica;
    if s.sumState.Present? {
      RepSumMerge(r.sum.contrib, s.sumState.payload.contrib, S, T);
      RepOwnKind(m.sum.contrib, m.topk.candidates, S + T, U, r.kmax);
    } else {
      RepOwnKind(r.sum.contrib, m.topk.candidates, S, U, r.kmax);
    }
    if s.topkState.Present? {
      RepTopMerge(r.topk.candidates, s.topkState.payload.candidates, S, T, r.kmax);
      RepOwnKind(m.sum.contrib, m.topk.candidates, S + T, U, r.kmax);
    } else {
      RepOwnKind(m.sum.contrib, r.topk.candidates, S, U, r.kmax);
    }
  }

  lemma SnapshotLive(I: Issues, kmax: nat, K: set<Kind>, id: NodeId, n: Node,
                     s: SnapshotResp, carried: set<StateDelta>, io: Append)
    requires NodeInv(I, kmax, K, id, n) && SnapshotOk(I, kmax, K, s, carried) && !io.WrittenNotSynced?
    ensures var t := Step(LiveOf(n), Snapshot(s, io));
            && Exact(t) && t.replica.deltaSeq == n.replica.deltaSeq && ContentsLeq(n.replica, t.replica)
            && t.replica.nodeId == id && t.replica.kmax == kmax
  {
    assert Get(s.sequences, id) <= n.replica.deltaSeq by {
      if Get(s.sequences, id) > 0 { assert Reached(I, id, Get(s.sequences, id), carried, K); }
    }
    SnapshotExact(LiveOf(n), s, io);
    SnapshotGrows(n.replica, s);
    ReflexiveLeq(n.replica);
  }

  lemma LearnedCovers(I: Issues, o: NodeId, w: U64, carried: set<StateDelta>, S: set<StateDelta>,
                      K: set<Kind>, kinds: set<Kind>)
    requires SeqCovered(I, o, w, carried, K) && K <= kinds
    ensures SeqCovered(I, o, w, S + OfKinds(carried, kinds), K)
  {
    forall s: U64 | 1 <= s <= w ensures Reached(I, o, s, S + OfKinds(carried, kinds), K) {
      assert Reached(I, o, s, carried, K);
    }
  }

  lemma SendInv(I: Issues, kmax: nat, K: set<Kind>, id: NodeId, n: Node, m: Node, body: Body)
    requires NodeInv(I, kmax, K, id, m) && ContentsLeq(n.replica, m.replica) && n.observed <= m.observed
    requires MsgInv(I, kmax, K, Envelope(m.replica.nodeId, Next64(m.outSeq), body))
    ensures EffectOk(I, kmax, K, id, n, Send(m, body))
  {
    SameKnowledgeInv(I, kmax, K, id, m, Send(m, body).node);
  }

  lemma SameKnowledgeInv(I: Issues, kmax: nat, K: set<Kind>, id: NodeId, n: Node, m: Node)
    requires NodeInv(I, kmax, K, id, n) && SameKnowledge(n, m)
    ensures NodeInv(I, kmax, K, id, m)
  {
  }

  lemma SnapshotHistory(I: Issues, kmax: nat, K: set<Kind>, id: NodeId, n: Node,
                        s: SnapshotResp, carried: set<StateDelta>)
    requires NodeInv(I, kmax, K, id, n) && SnapshotOk(I, kmax, K, s, carried) && K <= Carries(s)
    ensures HistoryOk(I, K, AfterAdvance(n.history, s.sequences), n.observed + OfKinds(carried, Carries(s)))
  {
    var T := n.observed + OfKinds(carried, Carries(s));
    forall o ensures SeqCovered(I, o, Get(s.sequences, o), T, K) {
      LearnedCovers(I, o, Get(s.sequences, o), carried, n.observed, K, Carries(s));
    }
    AdvanceKeepsHistoryOk(I, K, n.history, s.sequences, n.observed, T);
  }

  /** The node after a snapshot has been merged, journaled, and its watermarks adopted. */
  function SnapshotApplied(n: Node, s: SnapshotResp, carried: set<StateDelta>, io: Append): Node {
    WithLive(n, Step(LiveOf(n), Snapshot(s, io))).(
      history := AfterAdvance(n.history, s.sequences),
      observed := n.observed + OfKinds(carried, Carries(s)))
  }

  lemma SnapshotAppliedInv(I: Issues, kmax: nat, K: set<Kind>, id: NodeId, n: Node,
                           s: SnapshotResp, carried: set<StateDelta>, io: Append)
    requires NodeInv(I, kmax, K, id, n) && SnapshotOk(I, kmax, K, s, carried) && !io.WrittenNotSynced?
    requires K <= Carries(s) && Persist(n.replica, MergeSnapshot(n.replica, s), io.Done?).ok
    ensures NodeInv(I, kmax, K, id, SnapshotApplied(n, s, carried, io))
    ensures ContentsLeq(n.replica, SnapshotApplied(n, s, carried, io).replica)
  {
    SnapshotLive(I, kmax, K, id, n, s, carried, io);
    SnapshotRepresents(n.replica, n.observed, s, carried);
    SnapshotHistory(I, kmax, K, id, n, s, carried);
  }

  lemma SnapshotRefused(I: Issues, kmax: nat, K: set<Kind>, id: NodeId, n: Node,
                        s: SnapshotResp, carried: set<StateDelta>, io: Append)
    requires NodeInv(I, kmax, K, id, n) && SnapshotOk(I, kmax, K, s, carried) && !io.WrittenNotSynced?
    requires !Persist(n.replica, MergeSnapshot(n.replica, s), io.Done?).ok
    ensures EffectOk(I, kmax, K, id, n, Quiet(WithLive(n, Step(LiveOf(n), Snapshot(s, io)))))
  {
    ReflexiveLeq(n.replica);
    SnapshotLive(I, kmax, K, id, n, s, carried, io);
  }

  /** Applying a snapshot that carries every kind in `K` keeps watermarks of those kinds honest. */
  lemma SnapRespInv(I: Issues, kmax: nat, K: set<Kind>, id: NodeId, n: Node,
                    s: SnapshotResp, carried: set<StateDelta>, io: Append)
    requires NodeInv(I, kmax, K, id, n) && SnapshotOk(I, kmax, K, s, carried) && !io.WrittenNotSynced?
    requires K <= Carries(s)
    ensures EffectOk(I, kmax, K, id, n, HandleSnapResp(n, s, carried, io))
  {
    hide Carries, MergeSnapshot, HistoryOk, Represents, ReplicaValid, OwnOk, SameContents, LocalDigest, ValidSequences;
    ReflexiveLeq(n.replica);
    if ValidSequences(s.sequences) && Carries(s) != {} {
      if Persist(n.replica, MergeSnapshot(n.replica, s), io.Done?).ok {
        SnapshotAppliedInv(I, kmax, K, id, n, s, carried, io);
        var m := SnapshotApplied(n, s, carried, io);
        SendInv(I, kmax, K, id, n, m, DigestMsg(LocalDigest(m)));
      } else {
        SnapshotRefused(I, kmax, K, id, n, s, carried, io);
      }
    }
  }

  lemma SnapshotSent(I: Issues, kmax: nat, K: set<Kind>, id: NodeId, n: Node, want: seq<Kind>)
    requires NodeInv(I, kmax, K, id, n) && Wanted(want)
    ensures var s := SnapshotOf(n.replica, want).value;
            SnapshotOk(I, kmax, K, s.(sequences := MergeWatermarks(s.sequences, Reported(n.history))), n.observed)
  {
    var s := SnapshotOf(n.replica, want).value;
    forall o ensures SeqCovered(I, o, Get(MergeWatermarks(s.sequences, Reported(n.history)), o), n.observed, K) {
      AdvertisedCovered(I, kmax, K, id, n, o);
    }
  }

  lemma SendSnapshotInv(I: Issues, kmax: nat, K: set<Kind>, id: NodeId, n: Node, want: seq<Kind>)
    requires NodeInv(I, kmax, K, id, n)
    ensures EffectOk(I, kmax, K, id, n, SendSnapshot(n, want))
  {
    ReflexiveLeq(n.replica);
    if Wanted(want) {
      var s := SnapshotOf(n.replica, want).value;
      SnapshotSent(I, kmax, K, id, n, want);
      SendInv(I, kmax, K, id, n, n,
              SnapRespMsg(s.(sequences := MergeWatermarks(s.sequences, Reported(n.history))), n.observed));
    }
  }

  // ---------------------------------------------------------------- the remaining handlers

  lemma DeltaHandlerInv(I: Issues, kmax: nat, K: set<Kind>, id: NodeId, n: Node, e: Envelope, io: Append)
    requires IssuesOk(I) && NodeInv(I, kmax, K, id, n) && e.body.DeltaMsg? && MsgInv(I, kmax, K, e)
    requires !io.WrittenNotSynced?
    ensures EffectOk(I, kmax, K, id, n, HandleDelta(n, e, e.body.delta, io))
  {
    ReflexiveLeq(n.replica);
    if Accepts(n.guard, e.from, e.sequence) {
      var m := n.(guard := n.guard[e.from := e.sequence]);
      SameKnowledgeInv(I, kmax, K, id, n, m);
      ApplyDeltaInv(I, kmax, K, id, m, e.body.delta, io);
    }
  }

  lemma {:induction false} CollectedIssued(I: Issues, h: Hist, ranges: seq<DeltaRange>)
    requires forall o, s :: s in At(h, o) ==> IsIssued(I, At(h, o)[s])
    requires CollectRanges(h, ranges).Some?
    ensures forall d :: d in CollectRanges(h, ranges).value ==> IsIssued(I, d)
  {
    if ranges != [] {
      CollectedIssued(I, h, ranges[1..]);
      var first := RangeOf(h, ranges[0]).value;
      forall d | d in first ensures IsIssued(I, d) {
        var i :| 0 <= i < |first| && first[i] == d;
        var s: U64 := ranges[0].from + i;
        assert s in At(h, ranges[0].origin);
      }
    }
  }

  lemma DigestHandlerInv(I: Issues, kmax: nat, K: set<Kind>, id: NodeId, n: Node, peer: StateDigest)
    requires NodeInv(I, kmax, K, id, n)
    ensures EffectOk(I, kmax, K, id, n, HandleDigest(n, peer))
  {
    ReflexiveLeq(n.replica);
    var local := LocalDigest(n);
    SendInv(I, kmax, K, id, n, n, RangeReqMsg(MissingRanges(local.sequences, peer.sequences), local));
    SendInv(I, kmax, K, id, n, n, SnapReqMsg(AggregatesNeedingSnapshot(local, peer), local));
  }

  lemma RangeReqHandlerInv(I: Issues, kmax: nat, K: set<Kind>, id: NodeId, n: Node,
                           ranges: seq<DeltaRange>, known: StateDigest)
    requires NodeInv(I, kmax, K, id, n)
    ensures EffectOk(I, kmax, K, id, n, HandleRangeReq(n, ranges, known))
  {
    ReflexiveLeq(n.replica);
    if ValidRanges(ranges) {
      if CollectRanges(n.history, ranges).Some? {
        CollectedIssued(I, n.history, ranges);
        SendInv(I, kmax, K, id, n, n, RangeRespMsg(CollectRanges(n.history, ranges).value));
      } else {
        SendSnapshotInv(I, kmax, K, id, n, FallbackWant(n, known));
      }
    }
  }

  lemma RangeRespHandlerInv(I: Issues, kmax: nat, K: set<Kind>, id: NodeId, n: Node, ds: seq<StateDelta>, failAt: nat, io: Append)
    requires IssuesOk(I) && NodeInv(I, kmax, K, id, n) && forall d :: d in ds ==> IsIssued(I, d)
    requires !io.WrittenNotSynced?
    ensures EffectOk(I, kmax, K, id, n, HandleRangeResp(n, ds, failAt, io))
  {
    hide HistoryOk, Represents, OwnOk, ApplyDeltas, LocalDigest, ValidRecoveredDelta;
    ReflexiveLeq(n.replica);
    ApplyDeltasInv(I, kmax, K, id, n, ds, failAt, io);
    var m := ApplyDeltas(n, ds, failAt, io).0;
    SendInv(I, kmax, K, id, n, m, DigestMsg(LocalDigest(m)));
  }

  lemma HandleInv(I: Issues, kmax: nat, K: set<Kind>, id: NodeId, n: Node, e: Envelope, io: Append, failAt: nat)
    requires IssuesOk(I) && NodeInv(I, kmax, K, id, n) && MsgInv(I, kmax, K, e) && !io.WrittenNotSynced?
    requires e.body.SnapRespMsg? ==> K <= Carries(e.body.resp)
    ensures EffectOk(I, kmax, K, id, n, Handle(n, e, io, failAt))
  {
    match e.body
    case DeltaMsg(d) => DeltaHandlerInv(I, kmax, K, id, n, e, io);
    case DigestMsg(digest) => DigestHandlerInv(I, kmax, K, id, n, digest);
    case RangeReqMsg(ranges, known) => RangeReqHandlerInv(I, kmax, K, id, n, ranges, known);
    case RangeRespMsg(ds) => RangeRespHandlerInv(I, kmax, K, id, n, ds, failAt, io);
    case SnapReqMsg(want, known) =>
      ReflexiveLeq(n.replica);
      SendSnapshotInv(I, kmax, K, id, n, want);
    case SnapRespMsg(s, carried) => SnapRespInv(I, kmax, K, id, n, s, carried, io);
  }

  // ---------------------------------------------------------------- local steps

  function Publish(I: Issues, id: NodeId, d: StateDelta): Issues {
    I[id := IssuedBy(I, id) + [d]]
  }

  lemma PublishExtends(I: Issues, id: NodeId, d: StateDelta)
    requires IssuesOk(I) && WellFormed(d) && d.origin == id && d.sequence == |IssuedBy(I, id)| + 1
    ensures Extends(I, Publish(I, id, d)) && IssuesOk(Publish(I, id, d)) && IsIssued(Publish(I, id, d), d)
  {
  }

  lemma IssueRepresents(r: Replica, S: set<StateDelta>, u: LocalUpdate)
    requires ReplicaValid(r) && Represents(r, S) && r.deltaSeq < MAX_U64 && IssueLocal(r, u).Issued?
    ensures Represents(IssueLocal(r, u).replica, S + {IssueLocal(r, u).delta})
  {
    IssueGrows(r, u);
    ReplayIssued(r, u);
    var a := IssueLocal(r, u);
    ReceiveRepresents(r, S, a.delta);
    SameContentsRepresents(Receive(r, a.delta).replica, a.replica, S + {a.delta});
  }

  lemma LocalInv(I: Issues, kmax: nat, K: set<Kind>, id: NodeId, n: Node, u: LocalUpdate, io: Append, queueSize: nat)
    requires IssuesOk(I) && NodeInv(I, kmax, K, id, n) && !io.WrittenNotSynced? && n.replica.deltaSeq < MAX_U64
    ensures var n' := LocalStep(n, u, io, queueSize);
            var a := IssueLocal(n.replica, u);
            && ContentsLeq(n.replica, n'.replica) && n.observed <= n'.observed
            && (if a.Issued? && io.Done? then
                  && WellFormed(a.delta) && a.delta.origin == id && a.delta.sequence == |IssuedBy(I, id)| + 1
                  && NodeInv(Publish(I, id, a.delta), kmax, K, id, n')
                else NodeInv(I, kmax, K, id, n'))
  {
    hide Represents, SameContents, HistoryOk, Covers, WellFormed, SeqCovered, Recover;
    var n' := LocalStep(n, u, io, queueSize);
    var a := IssueLocal(n.replica, u);
    ReflexiveLeq(n.replica);
    LocalExact(LiveOf(n), u, io);
    if a.Issued? && io.Done? {
      IssueGrows(n.replica, u);
      IssueRepresents(n.replica, n.observed, u);
      var J := Publish(I, id, a.delta);
      PublishExtends(I, id, a.delta);
      HistoryGrows(I, J, K, n.history, n.observed, n'.observed);
      forall d | d in n.observed ensures IsIssued(J, d) { IssuedGrows(I, J, d); }
    }
  }

  lemma DequeueInv(I: Issues, kmax: nat, K: set<Kind>, id: NodeId, n: Node)
    requires IssuesOk(I) && NodeInv(I, kmax, K, id, n) && n.queue != []
    ensures EffectOk(I, kmax, K, id, n, DequeueStep(n))
  {
    ReflexiveLeq(n.replica);
    RecordKeepsHistoryOk(I, K, n.history, n.queue[0], n.observed, n.observed);
  }

  lemma CheckpointInv(I: Issues, kmax: nat, K: set<Kind>, id: NodeId, n: Node)
    requires NodeInv(I, kmax, K, id, n)
    ensures NodeInv(I, kmax, K, id, CheckpointStep(n)) && ContentsLeq(n.replica, CheckpointStep(n).replica)
  {
    CheckpointExact(LiveOf(n));
    ReflexiveLeq(n.replica);
  }

  /** A restarted node reports only its own sequence, and has seen all of that. */
  lemma RestartHistory(I: Issues, kmax: nat, K: set<Kind>, id: NodeId, n: Node, capacity: nat, own: map<NodeId, U64>)
    requires NodeInv(I, kmax, K, id, n) && capacity > 0
    requires forall o :: o in own ==> o == id && own[o] == n.replica.deltaSeq
    ensures HistoryOk(I, K, AfterAdvance(NewHistory(capacity), own), n.observed)
  {
    hide Exact, Represents;
    var empty := NewHistory(capacity);
    forall o ensures SeqCovered(I, o, Watermark(empty, o), n.observed, K) {}
    forall o ensures SeqCovered(I, o, Get(own, o), n.observed, K) {}
    AdvanceKeepsHistoryOk(I, K, empty, own, n.observed, n.observed);
  }

  lemma RestartInv(I: Issues, kmax: nat, K: set<Kind>, id: NodeId, n: Node, capacity: nat)
    requires NodeInv(I, kmax, K, id, n) && capacity > 0
    ensures NodeInv(I, kmax, K, id, RestartStep(n, capacity)) && ContentsLeq(n.replica, RestartStep(n, capacity).replica)
  {
    hide HistoryOk, WellFormed, ReplicaValid, SeqCovered;
    var n' := RestartStep(n, capacity);
    SameContentsRepresents(n.replica, n'.replica, n.observed) by {
      SameContentsChain(n'.replica, n.replica, n.replica);
    }
    RestartHistory(I, kmax, K, id, n, capacity, DigestOf(n'.replica).sequences);
    forall c | Covers(n.replica.topk.candidates, c, kmax) ensures Covers(n'.replica.topk.candidates, c, kmax) {}
  }
}
