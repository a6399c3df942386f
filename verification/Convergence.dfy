/** All repair together: ranges, the snapshot fallback and version pulls, between two nodes that hear nothing else. */
module Convergence {
  import opened Base
  import opened TopK
  import opened Sum
  import opened Protocol
  import opened History
  import opened Pipeline
  import opened Recovery
  import opened Runtime
  import opened Cluster
  import opened Rounds
  import opened RangeRepair
  import opened SnapshotRepair

  /** Nothing jammed: the history has room for every origin but the node's own, which it needs no room for. */
  ghost predicate Free(n: Node) {
    && Ready(n) && StoredWellFormed(n.history)
    && forall o :: o != n.replica.nodeId ==> Room(n.history, o)
  }

  /** What `y` has learned when it has become `y'`: it advertises no less, more where it lagged behind, and nothing else
      where it did not. */
  ghost predicate Learned(x: Node, y: Node, y': Node) {
    && Free(y') && y'.replica.nodeId == y.replica.nodeId && y'.replica.kmax == y.replica.kmax
    && (forall o :: Advertised(y, o) <= Advertised(y', o))
    && (forall o :: Gap(x, y, o) == 0 ==> Advertised(y', o) == Advertised(y, o))
    && (forall o :: Gap(x, y, o) > 0 ==> Advertised(y', o) > Advertised(y, o))
  }

  ghost predicate SameParts(n: Node, m: Node) {
    n.replica == m.replica && n.history == m.history
  }

  lemma LearnedSame(x: Node, y: Node, m: Node, m': Node)
    requires Learned(x, y, m) && SameParts(m, m')
    ensures Learned(x, y, m')
  {
    SameDigestParts(m, m');
    hide LocalDigest;
    forall o ensures Advertised(m', o) == Advertised(m, o) {}
  }

  // ---------------------------------------------------------------- ranges

  lemma {:induction false} RecordAllContents(h: Hist, ds: seq<StateDelta>)
    requires HistValid(h) && StoredWellFormed(h) && forall d :: d in ds ==> WellFormed(d)
    ensures var g := RecordAll(h, ds); HistValid(g) && StoredWellFormed(g)
  {
    hide WellFormed, HistValid;
    if ds != [] {
      var init, d := ds[..|ds| - 1], ds[|ds| - 1];
      assert d in ds;
      RecordAllContents(h, init);
      RecordEffect(RecordAll(h, init), d);
    }
  }

  /** Applying the response of a served request. */
  lemma RangesLearned(x: Node, y: Node, o: NodeId)
    requires Free(x) && Free(y) && Served(x, y) && Gap(x, y, o) > 0
    ensures var r := DigestRound(x, y); SameParts(r.0, x) && Learned(x, y, r.1)
  {
    hide LocalDigest, RangeOf, MissingRanges, CollectRanges, ApplyDeltas, DigestRound, RecordAll, HistValid,
         ReplicaValid, Above, Asked, WellFormed;
    var ds := RoundApplies(x, y, o);
    var y' := DigestRound(x, y).1;
    ApplyDeltasRecords(y, ds);
    RecordAllContents(y.history, ds);
    RecordAllEffect(y.history, ds);
    assert Ready(y');
    forall p
      ensures Gap(x, y, p) == 0 ==> Advertised(y', p) == Advertised(y, p)
      ensures Gap(x, y, p) > 0 ==> Advertised(y', p) > Advertised(y, p)
      ensures p != y.replica.nodeId ==> Room(y'.history, p)
    {
      if Gap(x, y, p) > 0 {
        RangeRepairProgress(x, y, p);
      } else {
        RecordOthers(y.history, ds, p);
        SameRoom(y.history, y'.history, p);
        AdvertisedIs(y, p);
        AdvertisedIs(y', p);
      }
    }
  }

  lemma SameRoom(h: Hist, g: Hist, o: NodeId)
    requires At(g, o) == At(h, o) && Watermark(g, o) == Watermark(h, o) && g.capacity == h.capacity
    ensures Room(g, o) == Room(h, o)
  {
    assert Above(g, o) == Above(h, o);
  }

  // ---------------------------------------------------------------- snapshots

  /** Adopting the watermarks of a peer closes every gap and moves nothing else. */
  lemma AdoptLearned(x: Node, y: Node, y': Node)
    requires Free(x) && Free(y)
    requires y'.replica.nodeId == y.replica.nodeId && y'.replica.kmax == y.replica.kmax && ReplicaValid(y'.replica)
    requires y'.replica.deltaSeq == Max64(y.replica.deltaSeq, Advertised(x, y.replica.nodeId))
    requires y'.history == AfterAdvance(y.history, LocalDigest(x).sequences)
    ensures Learned(x, y, y')
  {
    hide LocalDigest, ReplicaValid, HistValid, AfterAdvance, WellFormed, Room, Advertised;
    DigestValid(x);
    AdvanceEffect(y.history, LocalDigest(x).sequences);
    assert Ready(y') && StoredWellFormed(y'.history);
    hide Ready, StoredWellFormed;
    forall o
      ensures Advertised(y, o) <= Advertised(y', o)
      ensures Gap(x, y, o) == 0 ==> Advertised(y', o) == Advertised(y, o)
      ensures Gap(x, y, o) > 0 ==> Advertised(y', o) > Advertised(y, o)
      ensures o != y.replica.nodeId ==> Room(y'.history, o)
    {
      AdoptOrigin(x, y, y', o);
    }
  }

  lemma AdoptOrigin(x: Node, y: Node, y': Node, o: NodeId)
    requires Ready(x) && Ready(y)
    requires y'.replica.nodeId == y.replica.nodeId
    requires y'.replica.deltaSeq == Max64(y.replica.deltaSeq, Advertised(x, y.replica.nodeId))
    requires y'.history == AfterAdvance(y.history, LocalDigest(x).sequences)
    ensures Advertised(y', o) == Max64(Advertised(y, o), Advertised(y', o))
    ensures Advertised(x, o) <= Advertised(y', o)
    ensures Advertised(x, o) <= Advertised(y, o) ==> Advertised(y', o) == Advertised(y, o)
    ensures Room(y.history, o) ==> Room(y'.history, o)
  {
    hide LocalDigest, AfterAdvance, Room;
    var ws := LocalDigest(x).sequences;
    DigestValid(x);
    AdvertisedIs(y, o);
    AdvertisedIs(y', o);
    AdoptOne(y.history, ws, o);
    if o == y.replica.nodeId {
      OwnAdopted(y, ws);
    }
  }

  lemma AdoptOne(h: Hist, ws: map<NodeId, U64>, o: NodeId)
    requires HistValid(h) && ValidSequences(ws)
    ensures var g := AfterAdvance(h, ws);
            && Watermark(g, o) >= Max64(Watermark(h, o), Get(ws, o))
            && (Get(ws, o) <= Watermark(h, o) ==> Watermark(g, o) == Watermark(h, o))
            && (Room(h, o) ==> Room(g, o))
  {
    var g := AfterAdvance(h, ws);
    AdvanceEffect(h, ws);
    AdvanceView(h, ws, o);
    if Room(h, o) {
      assert Above(g, o) <= Above(h, o);
      AboveShrinks(h, g, o);
    }
  }

  /** The own watermark runs on through own deltas only, so it does not pass the own sequence that way. */
  lemma OwnAdopted(y: Node, ws: map<NodeId, U64>)
    requires Ready(y)
    ensures Watermark(AfterAdvance(y.history, ws), y.replica.nodeId)
            <= Max64(Max64(y.replica.deltaSeq, Watermark(y.history, y.replica.nodeId)), Get(ws, y.replica.nodeId))
  {
    var o := y.replica.nodeId;
    AdvanceView(y.history, ws, o);
    hide HistValid, ReplicaValid, AfterAdvance;
    if Lifts(y.history, ws, o) {
      var m := DropThrough(At(y.history, o), ws[o]);
      ExtendMeaning(m, ws[o]);
      var w := Extend(m, ws[o]);
      assert w > ws[o] ==> w in m;
    }
  }

  /** A snapshot of `x` reaches `y`, which has just sent something. */
  lemma SnapshotLearned(x: Node, y: Node, y0: Node, want: seq<Kind>)
    requires Free(x) && Free(y) && Wanted(want) && y0 == y.(outSeq := Next64(y.outSeq))
    ensures Learned(x, y, HandleSnapResp(y0, AnswerTo(x, want), x.observed, Done).node)
  {
    hide LocalDigest, MergeSnapshot, HistValid, WellFormed, StoredWellFormed, Room;
    var s := AnswerTo(x, want);
    AnswerIs(x, want);
    PulledContents(y.replica, s);
    var y' := y.(replica := MergeSnapshot(y.replica, s).replica, history := AfterAdvance(y.history, s.sequences));
    AdoptLearned(x, y, y');
    var m := HandleSnapResp(y0, s, x.observed, Done).node;
    assert SameParts(y', m);
    LearnedSame(x, y, y', m);
  }

  lemma {:induction false} CollectNone(h: Hist, ranges: seq<DeltaRange>, r: DeltaRange)
    requires r in ranges && RangeOf(h, r).None?
    ensures CollectRanges(h, ranges).None?
  {
    hide RangeOf;
    if ranges[0] != r {
      assert r in ranges[1..];
      CollectNone(h, ranges[1..], r);
    }
  }

  /** The snapshot fallback. */
  lemma FallbackLearned(x: Node, y: Node, o: NodeId)
    requires Free(x) && Free(y) && !Served(x, y) && Gap(x, y, o) > 0
    ensures var r := DigestRound(x, y); SameParts(r.0, x) && Learned(x, y, r.1)
  {
    hide LocalDigest, RangeOf, MissingRanges, CollectRanges, Learned, AnswerTo, HandleSnapResp, HistValid, ReplicaValid,
         WellFormed, Asked, Gap, FallbackWant, HandleRangeReq, Room, DigestRound;
    var ranges := MissingRanges(LocalDigest(y).sequences, LocalDigest(x).sequences);
    RequestIs(x, y);
    DigestValid(x);
    var p :| Gap(x, y, p) > 0 && RangeOf(x.history, Asked(x, y, p)).None?;
    CollectNone(x.history, ranges, Asked(x, y, p));
    var want := FallbackWant(x, LocalDigest(y));
    var x1, y0 := Bumped(x, Next64(x.outSeq)), Bumped(y, Next64(y.outSeq));
    FallbackAnswers(x, x1, ranges, LocalDigest(y));
    assert HandleDigest(y, LocalDigest(x)) == Send(y, RangeReqMsg(ranges, LocalDigest(y)));
    FullRound(x, y, RangeReqMsg(ranges, LocalDigest(y)), SnapRespMsg(AnswerTo(x, want), x.observed));
    SnapshotLearned(x, y, y0, want);
  }

  /** A request that the history cannot serve is answered by a snapshot under all of the node's watermarks. */
  lemma FallbackAnswers(x: Node, x1: Node, ranges: seq<DeltaRange>, known: StateDigest)
    requires Ready(x) && x1 == Bumped(x, x1.outSeq) && ValidRanges(ranges) && CollectRanges(x.history, ranges).None?
    ensures var want := FallbackWant(x, known);
            Wanted(want) && HandleRangeReq(x1, ranges, known) == Send(x1, SnapRespMsg(AnswerTo(x, want), x.observed))
  {
    hide LocalDigest, HistValid, ReplicaValid, ValidRanges, CollectRanges, AnswerTo;
    var want := FallbackWant(x, known);
    FallbackWanted(x, known);
    SameAdvertised(x, x1);
    AnswerIs(x1, want);
    AnswerSame(x, x1, want);
  }

  lemma AnswerSame(x: Node, x': Node, want: seq<Kind>)
    requires SameParts(x, x') && Wanted(want)
    ensures AnswerTo(x, want) == AnswerTo(x', want)
  {
  }

  lemma FallbackWanted(x: Node, known: StateDigest)
    ensures Wanted(FallbackWant(x, known))
  {
  }

  lemma SomeRange(ranges: seq<DeltaRange>)
    ensures ranges == [] || exists r :: r in ranges
  {
    if ranges != [] {
      assert ranges[0] in ranges;
    }
  }

  /** Without a gap, the round is a pull of what the versions call for, or nothing. */
  lemma PullLearned(x: Node, y: Node)
    requires Free(x) && Free(y) && NoGap(x, y)
    ensures var r := DigestRound(x, y); SameParts(r.0, x) && Learned(x, y, r.1)
  {
    hide LocalDigest, MissingRanges, Learned, AnswerTo, HandleSnapResp, HistValid, ReplicaValid, WellFormed, Asked, Room,
         DigestRound;
    var ranges := MissingRanges(LocalDigest(y).sequences, LocalDigest(x).sequences);
    RequestIs(x, y);
    SomeRange(ranges);
    DigestValid(x);
    var want := AggregatesNeedingSnapshot(LocalDigest(y), LocalDigest(x));
    if want == [] {
      QuietRound(x, y);
      NothingLearned(x, y);
    } else {
      PullRound(x, y, want);
      SnapshotLearned(x, y, Bumped(y, Next64(y.outSeq)), want);
    }
  }

  lemma NothingLearned(x: Node, y: Node)
    requires Free(y) && NoGap(x, y)
    ensures Learned(x, y, y)
  {
    hide LocalDigest;
  }

  /** Every digest round teaches the receiver something about every origin on which it lags behind. */
  lemma RoundLearned(x: Node, y: Node)
    requires Free(x) && Free(y)
    ensures var r := DigestRound(x, y); SameParts(r.0, x) && Learned(x, y, r.1)
  {
    hide DigestRound, Free, Learned, Served, Gap;
    if NoGap(x, y) {
      PullLearned(x, y);
    } else {
      var o :| Gap(x, y, o) != 0;
      if Served(x, y) {
        RangesLearned(x, y, o);
      } else {
        FallbackLearned(x, y, o);
      }
    }
  }

  // ---------------------------------------------------------------- rounds in both directions

  /** `n` digest rounds, first from `x` to `y`, then back, and so on. */
  ghost function Exchange(x: Node, y: Node, n: nat): (Node, Node)
    decreases n
  {
    hide DigestRound;
    if n == 0 then (x, y) else var r := DigestRound(x, y); Exchange(r.1, r.0, n - 1)
  }

  lemma {:induction false} ExchangeAdds(x: Node, y: Node, m: nat, n: nat)
    ensures Exchange(x, y, m + n) == Exchange(Exchange(x, y, m).0, Exchange(x, y, m).1, n)
    decreases m
  {
    hide DigestRound;
    if m > 0 {
      var r := DigestRound(x, y);
      ExchangeAdds(r.1, r.0, m - 1, n);
    }
  }

  /** How far the two nodes are from the end of all sequences, over the origins in `os`. */
  ghost function Deficit(x: Node, y: Node, os: seq<NodeId>): nat {
    if os == [] then 0
    else (MAX_U64 - Advertised(x, os[0])) + (MAX_U64 - Advertised(y, os[0])) + Deficit(x, y, os[1..])
  }

  lemma {:induction false} DeficitFalls(x: Node, y: Node, x': Node, y': Node, os: seq<NodeId>)
    requires forall o :: Advertised(x, o) == Advertised(x', o) && Advertised(y, o) <= Advertised(y', o)
    ensures Deficit(y', x', os) <= Deficit(x, y, os)
    ensures (exists o :: o in os && Advertised(y, o) < Advertised(y', o)) ==> Deficit(y', x', os) < Deficit(x, y, os)
  {
    hide Advertised;
    if os != [] {
      DeficitFalls(x, y, x', y', os[1..]);
      assert os == [os[0]] + os[1..];
    }
  }

  ghost predicate Known(x: Node, y: Node, os: seq<NodeId>) {
    forall o :: Advertised(x, o) > 0 || Advertised(y, o) > 0 ==> o in os
  }

  lemma KnownExists(x: Node, y: Node) returns (os: seq<NodeId>)
    ensures Known(x, y, os)
  {
    hide LocalDigest;
    var p, q := LocalDigest(x).sequences.Keys, LocalDigest(y).sequences.Keys;
    os := SortStrings(p + q);
    SortStringsIncreasing(p + q);
  }

  lemma LearnedFacts(x: Node, y: Node, y': Node)
    requires Learned(x, y, y')
    ensures Free(y') && y'.replica.kmax == y.replica.kmax
    ensures forall o :: Advertised(y, o) <= Advertised(y', o)
    ensures forall o :: Advertised(y', o) > 0 ==> Advertised(x, o) > 0 || Advertised(y, o) > 0
    ensures NoGap(x, y) ==> forall o :: Advertised(y', o) == Advertised(y, o)
    ensures !NoGap(x, y) ==> exists o :: Advertised(y, o) < Advertised(x, o) && Advertised(y, o) < Advertised(y', o)
  {
    hide Free, Advertised;
    if !NoGap(x, y) {
      var o :| Gap(x, y, o) != 0;
      assert Advertised(y, o) < Advertised(x, o) && Advertised(y, o) < Advertised(y', o);
    }
    forall o | Advertised(y', o) > 0 ensures Advertised(x, o) > 0 || Advertised(y, o) > 0 {
      assert Gap(x, y, o) == 0 ==> Advertised(y', o) == Advertised(y, o);
    }
  }

  /** One round of the loop below: the pair that results, in the order of the next round. */
  lemma RoundSteps(x: Node, y: Node, os: seq<NodeId>)
    requires Free(x) && Free(y) && Known(x, y, os) && x.replica.kmax == y.replica.kmax
    ensures var r := DigestRound(x, y);
            && Free(r.0) && Free(r.1) && Known(r.1, r.0, os) && r.1.replica.kmax == r.0.replica.kmax
            && Deficit(r.1, r.0, os) <= Deficit(x, y, os)
            && (!NoGap(x, y) ==> Deficit(r.1, r.0, os) < Deficit(x, y, os))
            && (NoGap(x, y) ==> (NoGap(r.1, r.0) <==> NoGap(y, x)))
  {
    hide DigestRound, Advertised, Free, Learned, NoGap, Deficit;
    RoundLearned(x, y);
    var r := DigestRound(x, y);
    SameAdvertisedParts(x, r.0);
    LearnedFacts(x, y, r.1);
    DeficitFalls(x, y, r.0, r.1, os);
    if NoGap(x, y) {
      SameGaps(y, x, r.1, r.0);
    }
  }

  lemma SameGaps(x: Node, y: Node, x': Node, y': Node)
    requires forall o :: Advertised(x, o) == Advertised(x', o) && Advertised(y, o) == Advertised(y', o)
    ensures NoGap(x, y) <==> NoGap(x', y')
  {
    hide Advertised;
    assert forall o :: Gap(x, y, o) == Gap(x', y', o);
  }

  lemma SameAdvertisedParts(n: Node, m: Node)
    requires SameParts(n, m)
    ensures forall o :: Advertised(n, o) == Advertised(m, o)
    ensures Free(n) ==> Free(m)
  {
    SameDigestParts(n, m);
    hide LocalDigest;
  }

  /** Rounds in both directions end with equal watermarks. */
  lemma {:induction false} ReachesAligned(x: Node, y: Node, os: seq<NodeId>) returns (n: nat)
    requires Free(x) && Free(y) && Known(x, y, os) && x.replica.kmax == y.replica.kmax
    ensures var r := Exchange(x, y, n); Ready(r.0) && Ready(r.1) && Aligned(r.0, r.1)
    decreases Deficit(x, y, os), if NoGap(x, y) then 1 else 0
  {
    hide DigestRound, Known, Deficit, LocalDigest;
    if NoGap(x, y) && NoGap(y, x) {
      forall o ensures Advertised(x, o) == Advertised(y, o) {
        assert Gap(x, y, o) == 0 && Gap(y, x, o) == 0;
      }
      n := 0;
    } else {
      hide Free, NoGap, Aligned, Ready;
      RoundSteps(x, y, os);
      var r := DigestRound(x, y);
      var m := ReachesAligned(r.1, r.0, os);
      n := m + 1;
    }
  }

  /** The two nodes answer SUM and TOPK queries alike. */
  ghost predicate Agree(x: Node, y: Node) {
    SameSum(x.replica.sum.contrib, y.replica.sum.contrib) && x.replica.topk.candidates == y.replica.topk.candidates
  }

  predicate VersionsLeft(x: Node, y: Node) {
    && Max64(x.replica.sum.version, y.replica.sum.version) < MAX_U64
    && Max64(x.replica.topk.version, y.replica.topk.version) < MAX_U64
  }

  /** After `n` rounds the watermarks are equal, and three rounds later so are the contents, unless a version is
      exhausted by then. */
  ghost predicate ConvergesAfter(x: Node, y: Node, n: nat) {
    var r := Exchange(x, y, n);
    var s := Exchange(x, y, n + 3);
    Aligned(r.0, r.1) && (VersionsLeft(r.0, r.1) ==> Agree(s.0, s.1))
  }

  /** Repair converges, whether the code answers the digests by ranges, by the fallback or by pulls. */
  lemma RepairConverges(x: Node, y: Node) returns (n: nat)
    requires Free(x) && Free(y) && x.replica.kmax == y.replica.kmax
    ensures ConvergesAfter(x, y, n)
  {
    hide DigestRound, Aligned, Ready, Free, VersionsLeft, Agree, Known;
    var os := KnownExists(x, y);
    n := ReachesAligned(x, y, os);
    var r := Exchange(x, y, n);
    ExchangeAdds(x, y, n, 3);
    ThreeMore(r.0, r.1);
  }

  lemma ThreeMore(x: Node, y: Node)
    requires Ready(x) && Ready(y) && Aligned(x, y)
    ensures var s := Exchange(x, y, 3); VersionsLeft(x, y) ==> Agree(s.0, s.1)
  {
    hide DigestRound, Aligned, Ready, Exchange;
    SnapshotRepairConverges(x, y);
    ExchangeThree(x, y);
    var one := DigestRound(x, y);
    var two := DigestRound(one.1, one.0);
    var three := DigestRound(two.1, two.0);
    hide SameSum, TopLeq, SumLeq;
    SameSumSymmetric(three.0.replica.sum.contrib, three.1.replica.sum.contrib);
  }

  lemma ExchangeThree(x: Node, y: Node)
    ensures var one := DigestRound(x, y);
            var two := DigestRound(one.1, one.0);
            var three := DigestRound(two.1, two.0);
            Exchange(x, y, 3) == (three.1, three.0)
  {
    hide DigestRound;
    var one := DigestRound(x, y);
    var two := DigestRound(one.1, one.0);
    var three := DigestRound(two.1, two.0);
    assert Exchange(three.1, three.0, 0) == (three.1, three.0);
    assert Exchange(two.1, two.0, 1) == (three.1, three.0);
    assert Exchange(one.1, one.0, 2) == (three.1, three.0);
  }

  lemma SameSumSymmetric(a: Contrib, b: Contrib)
    ensures SameSum(a, b) <==> SameSum(b, a)
  {
    if SameSum(a, b) {
      forall k: NodeId ensures Get(b, k) == Get(a, k) { assert Get(a, k) == Get(b, k); }
    }
    if SameSum(b, a) {
      forall k: NodeId ensures Get(a, k) == Get(b, k) { assert Get(b, k) == Get(a, k); }
    }
  }

  /** In particular from any two nodes of any run, once nothing else happens and neither history is jammed. */
  lemma QuiescentNodesConverge(cfg: Config, ids: set<NodeId>, actions: seq<Action>, a: NodeId, b: NodeId)
    requires ConfigOk(cfg) && ValidIds(ids) && a in ids && b in ids
    ensures var c := Run(Start(cfg, ids), actions);
            && a in c.nodes && b in c.nodes
            && var x, y := c.nodes[a], c.nodes[b];
               ((forall o :: (o != a ==> Room(x.history, o)) && (o != b ==> Room(y.history, o))) ==>
                  exists n :: ConvergesAfter(x, y, n))
  {
    hide Run, Start, ConvergesAfter, Ready, StoredWellFormed, Room;
    var c := Run(Start(cfg, ids), actions);
    ReachableReady(cfg, ids, actions, a);
    ReachableReady(cfg, ids, actions, b);
    ReachableKinds(cfg, ids, actions, a);
    ReachableKinds(cfg, ids, actions, b);
    var x, y := c.nodes[a], c.nodes[b];
    if forall o :: (o != a ==> Room(x.history, o)) && (o != b ==> Room(y.history, o)) {
      var n := RepairConverges(x, y);
    }
  }

  lemma ReachableKinds(cfg: Config, ids: set<NodeId>, actions: seq<Action>, id: NodeId)
    requires ConfigOk(cfg) && ValidIds(ids) && id in ids
    ensures var c := Run(Start(cfg, ids), actions);
            id in c.nodes && c.nodes[id].replica.nodeId == id && c.nodes[id].replica.kmax == cfg.kmax
  {
    hide Run, Start;
    RunInv(cfg, ids, actions, {});
    var c := Run(Start(cfg, ids), actions);
    hide Exact;
    assert NodesOk(c, {});
    NodeFacts(c.issued, cfg.kmax, {}, id, c.nodes[id]);
  }
}
