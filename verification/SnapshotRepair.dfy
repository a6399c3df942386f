/** Digest exchanges between two quiescent nodes: pulls by version and checksum converge. */
module SnapshotRepair {
  import opened Base
  import opened TopK
  import opened Sum
  import opened Protocol
  import opened History
  import opened Pipeline
  import opened Recovery
  import opened Runtime
  import opened Rounds

  // ---------------------------------------------------------------- versions and a join

  /** An aggregate as the digest comparison sees it: contents with a join, and a Lamport version. */
  datatype Versioned<T> = Versioned(contents: T, version: U64)

  /** The digest test of one aggregate and the merge that the pulled snapshot causes. */
  ghost function Pull<T>(join: (T, T) -> T, leq: (T, T) -> bool, y: Versioned<T>, x: Versioned<T>): Versioned<T> {
    if x.version > y.version || (x.version == y.version && x != y) then
      Versioned(join(y.contents, x.contents),
                if leq(x.contents, y.contents) then Max64(y.version, x.version)
                else Next64(Max64(y.version, x.version)))
    else y
  }

  ghost predicate Lattice<T(!new)>(join: (T, T) -> T, leq: (T, T) -> bool, ok: T -> bool) {
    && (forall a :: ok(a) ==> leq(a, a))
    && (forall a, b, c :: leq(a, b) && leq(b, c) ==> leq(a, c))
    && (forall a, b :: ok(a) && ok(b) ==> ok(join(a, b)) && leq(a, join(a, b)) && leq(b, join(a, b)))
    && (forall a, b, c :: ok(a) && ok(b) && ok(c) && leq(a, c) && leq(b, c) ==> leq(join(a, b), c))
  }

  ghost predicate Same<T>(leq: (T, T) -> bool, a: T, b: T) {
    leq(a, b) && leq(b, a)
  }

  /** Three alternating pulls leave equal contents exactly when no version can wrap, or the contents were
      comparable to begin with. */
  lemma ThreePulls<T(!new)>(join: (T, T) -> T, leq: (T, T) -> bool, ok: T -> bool, x: Versioned<T>, y: Versioned<T>)
    requires Lattice(join, leq, ok) && ok(x.contents) && ok(y.contents)
    ensures var y1 := Pull(join, leq, y, x);
            var x1 := Pull(join, leq, x, y1);
            var y2 := Pull(join, leq, y1, x1);
            Same(leq, x1.contents, y2.contents) <==>
            Max64(x.version, y.version) < MAX_U64 || leq(x.contents, y.contents) || leq(y.contents, x.contents)
  {
    var a, b := x.contents, y.contents;
    assert leq(a, join(b, a)) && leq(b, join(b, a)) && ok(join(b, a));
    var y1 := Pull(join, leq, y, x);
    assert leq(a, join(a, y1.contents)) && leq(y1.contents, join(a, y1.contents)) && ok(join(a, y1.contents));
    var x1 := Pull(join, leq, x, y1);
    assert leq(x1.contents, x1.contents) && leq(y1.contents, y1.contents);
    assert leq(x1.contents, join(y1.contents, x1.contents)) && leq(y1.contents, join(y1.contents, x1.contents));
    if leq(x1.contents, y1.contents) { assert leq(join(y1.contents, x1.contents), y1.contents); }
    if leq(y1.contents, x1.contents) { assert leq(join(y1.contents, x1.contents), x1.contents); }
    if leq(a, y1.contents) { assert leq(join(a, y1.contents), y1.contents); }
    if leq(a, b) { assert leq(join(b, a), b); }
    if leq(b, a) { assert leq(join(b, a), a); }
  }

  // ---------------------------------------------------------------- the two aggregates

  ghost predicate TopLeq(l: seq<Candidate>, m: seq<Candidate>, k: nat) {
    forall c :: Covers(l, c, k) ==> Covers(m, c, k)
  }

  ghost predicate TopOk(l: seq<Candidate>, k: nat) {
    Ranked(l) && |l| <= k
  }

  /** On canonical lists, covering the elements covers everything that the list covers. */
  lemma TopLeqElements(l: seq<Candidate>, m: seq<Candidate>, k: nat)
    requires TopOk(l, k) && TopOk(m, k)
    ensures TopLeq(l, m, k) <==> MergeTop(m, l, k) == m
  {
    MergeUnchanged(m, l, k);
    if forall c :: c in l ==> Covers(m, c, k) {
      assert IsTop(m, Elems(l) + Elems(m), k);
      forall c | Covers(l, c, k) ensures Covers(m, c, k) {
        if c !in l { CoveredByMerge(l, m, Elems(m), c, k); }
      }
    }
  }

  lemma TopJoin(a: seq<Candidate>, b: seq<Candidate>, c: seq<Candidate>, k: nat)
    requires TopOk(a, k) && TopOk(b, k) && TopOk(c, k)
    ensures TopOk(MergeTop(a, b, k), k) && TopLeq(a, MergeTop(a, b, k), k) && TopLeq(b, MergeTop(a, b, k), k)
    ensures TopLeq(a, c, k) && TopLeq(b, c, k) ==> TopLeq(MergeTop(a, b, k), c, k)
  {
    CanonicalIsTop(a + b, k);
    MergeTopLaws(a, b, c, k);
    var j := MergeTop(a, b, k);
    forall x | Covers(a, x, k) ensures Covers(j, x, k) { CoversAfterMerge(a, b, x, k); }
    forall x | Covers(b, x, k) ensures Covers(j, x, k) { CoversAfterMerge(b, a, x, k); }
    if TopLeq(a, c, k) && TopLeq(b, c, k) {
      TopLeqElements(a, c, k);
      TopLeqElements(b, c, k);
      MergeTopLaws(c, a, b, k);
      TopLeqElements(j, c, k);
    }
  }

  lemma TopLattice(k: nat)
    ensures Lattice((a, b) => MergeTop(a, b, k), (a, b) => TopLeq(a, b, k), a => TopOk(a, k))
  {
    forall a, b | TopOk(a, k) && TopOk(b, k)
      ensures TopOk(MergeTop(a, b, k), k) && TopLeq(a, MergeTop(a, b, k), k) && TopLeq(b, MergeTop(a, b, k), k)
    {
      TopJoin(a, b, a, k);
    }
    forall a, b, c | TopOk(a, k) && TopOk(b, k) && TopOk(c, k) && TopLeq(a, c, k) && TopLeq(b, c, k)
      ensures TopLeq(MergeTop(a, b, k), c, k)
    {
      TopJoin(a, b, c, k);
    }
  }

  lemma SumLattice()
    ensures Lattice(MergeSum, (a, b) => SumLeq(a, b), (a: Contrib) => true)
  {
    forall a: Contrib, b: Contrib
      ensures SumLeq(a, MergeSum(a, b)) && SumLeq(b, MergeSum(a, b))
      ensures forall u: Contrib :: SumLeq(a, u) && SumLeq(b, u) ==> SumLeq(MergeSum(a, b), u)
    {
      MergeSumIsJoin(a, b);
    }
    forall a: Contrib, b: Contrib, c: Contrib | SumLeq(a, b) && SumLeq(b, c) ensures SumLeq(a, c) {
      forall n: NodeId ensures Get(a, n) <= Get(c, n) {
        assert Get(a, n) <= Get(b, n) <= Get(c, n);
      }
    }
  }

  // ---------------------------------------------------------------- a round between aligned nodes

  ghost predicate Aligned(x: Node, y: Node) {
    x.replica.kmax == y.replica.kmax && forall o :: Advertised(x, o) == Advertised(y, o)
  }

  function SumOf(n: Node): Versioned<Contrib> {
    Versioned(n.replica.sum.contrib, n.replica.sum.version)
  }

  function TopOf(n: Node): Versioned<seq<Candidate>> {
    Versioned(n.replica.topk.candidates, n.replica.topk.version)
  }

  ghost function PullSum(y: Node, x: Node): Versioned<Contrib> {
    Pull(MergeSum, (a, b) => SumLeq(a, b), SumOf(y), SumOf(x))
  }

  ghost function PullTop(y: Node, x: Node): Versioned<seq<Candidate>> {
    var k := y.replica.kmax;
    Pull((a, b) => MergeTop(a, b, k), (a, b) => TopLeq(a, b, k), TopOf(y), TopOf(x))
  }

  /** Equal watermarks leave nothing to ask for by range. */
  lemma AlignedAsksNoRange(x: Node, y: Node)
    requires Ready(x) && Ready(y) && Aligned(x, y)
    ensures MissingRanges(LocalDigest(y).sequences, LocalDigest(x).sequences) == []
  {
    var local, peer := LocalDigest(y).sequences, LocalDigest(x).sequences;
    DigestValid(x);
    RequestAgreement(local, peer);
    forall o ensures o !in BehindOrigins(local, peer) {
      assert Advertised(x, o) == Advertised(y, o);
    }
  }

  /** The snapshot answering a pull, as `y` receives it. */
  function AnswerTo(x: Node, want: seq<Kind>): SnapshotResp
    requires Wanted(want)
  {
    SnapshotOf(x.replica, want).value.(sequences := LocalDigest(x).sequences)
  }

  lemma PulledContents(r: Replica, s: SnapshotResp)
    requires ReplicaValid(r) && SumFragmentOk(s.sumState) && TopFragmentOk(s.topkState)
    ensures var m := MergeSnapshot(r, s);
            && m.ok && ReplicaValid(m.replica) && m.replica.nodeId == r.nodeId && m.replica.kmax == r.kmax
            && m.replica.sum == (if s.sumState.Present? then MergeSumState(r.sum, s.sumState.payload) else r.sum)
            && m.replica.topk == (if s.topkState.Present? then MergeTopState(r.topk, s.topkState.payload, r.kmax) else r.topk)
            && m.replica.deltaSeq == Max64(r.deltaSeq, Get(s.sequences, r.nodeId))
  {
    SnapshotGrows(r, s);
  }

  lemma PulledReplica(x: Node, y: Node, want: seq<Kind>)
    requires Ready(x) && Ready(y) && Aligned(x, y) && want == AggregatesNeedingSnapshot(LocalDigest(y), LocalDigest(x))
    requires want != []
    ensures var r := MergeSnapshot(y.replica, AnswerTo(x, want));
            && r.ok && ReplicaValid(r.replica)
            && r.replica.nodeId == y.replica.nodeId && r.replica.kmax == y.replica.kmax
            && Versioned(r.replica.sum.contrib, r.replica.sum.version) == PullSum(y, x)
            && Versioned(r.replica.topk.candidates, r.replica.topk.version) == PullTop(y, x)
            && r.replica.deltaSeq == Max64(y.replica.deltaSeq, Advertised(x, y.replica.nodeId))
  {
    hide MergeSnapshot, MergeSum, MergeTop, TopLeq, SumLeq, SumAdvances;
    PulledContents(y.replica, AnswerTo(x, want));
    MergeSumIsJoin(y.replica.sum.contrib, x.replica.sum.contrib);
    TopLeqElements(x.replica.topk.candidates, y.replica.topk.candidates, y.replica.kmax);
  }

  /** Adopting the watermarks of an aligned peer changes no advertised watermark. */
  lemma AdoptKeeps(x: Node, y: Node, y': Node)
    requires Ready(x) && Ready(y) && Aligned(x, y)
    requires y'.replica.nodeId == y.replica.nodeId && y'.replica.kmax == y.replica.kmax && ReplicaValid(y'.replica)
    requires y'.replica.deltaSeq == Max64(y.replica.deltaSeq, Advertised(x, y.replica.nodeId))
    requires y'.history == AfterAdvance(y.history, LocalDigest(x).sequences)
    ensures Ready(y') && Aligned(x, y')
  {
    hide LocalDigest, ReplicaValid;
    var ws := LocalDigest(x).sequences;
    AdvanceEffect(y.history, ws);
    forall o ensures Advertised(y', o) == Advertised(x, o) {
      AdvertisedIs(y, o);
      AdvertisedIs(y', o);
      AdvanceView(y.history, ws, o);
      assert Advertised(x, o) == Advertised(y, o);
      if Lifts(y.history, ws, o) {
        assert o == y.replica.nodeId;
        assert DropThrough(At(y.history, o), ws[o]) == map[];
      }
    }
  }

  lemma RoundPulls(x: Node, y: Node)
    requires Ready(x) && Ready(y) && Aligned(x, y)
    ensures var r := DigestRound(x, y);
            && Ready(r.0) && Ready(r.1) && Aligned(r.0, r.1)
            && r.0.replica == x.replica
            && SumOf(r.1) == PullSum(y, x) && TopOf(r.1) == PullTop(y, x) && r.1.replica.kmax == y.replica.kmax
  {
    hide LocalDigest, MergeSnapshot, MissingRanges, PullSum, PullTop, DigestRound, HistValid, ReplicaValid;
    AlignedAsksNoRange(x, y);
    DigestValid(x);
    var want := AggregatesNeedingSnapshot(LocalDigest(y), LocalDigest(x));
    var r := DigestRound(x, y);
    if want == [] {
      NothingWanted(x, y);
      QuietRound(x, y);
      SameAdvertised(x, r.0);
      AlignedSame(x, y, r.0, r.1);
    } else {
      PulledReplica(x, y, want);
      var resp := AnswerTo(x, want);
      PullRound(x, y, want);
      var y' := y.(replica := MergeSnapshot(y.replica, resp).replica, history := AfterAdvance(y.history, resp.sequences));
      AdoptKeeps(x, y, y');
      AnswerIs(x, want);
      SameAdvertised(x, r.0);
      SameAdvertised(y', r.1);
      AlignedSame(x, y', r.0, r.1);
    }
  }

  /** A round in which `y` pulls `want`. */
  lemma PullRound(x: Node, y: Node, want: seq<Kind>)
    requires Ready(x) && Wanted(want)
    requires HandleDigest(y, LocalDigest(x)) == Send(y, SnapReqMsg(want, LocalDigest(y)))
    ensures var y1 := Bumped(y, Next64(y.outSeq));
            DigestRound(x, y) == (Bumped(x, Next64(Next64(x.outSeq))),
                                  HandleSnapResp(y1, AnswerTo(x, want), x.observed, Done).node)
  {
    hide LocalDigest, HandleDigest, HandleSnapResp, Ready;
    var x1 := Bumped(x, Next64(x.outSeq));
    SameAdvertised(x, x1);
    AnswerIs(x1, want);
    FullRound(x, y, SnapReqMsg(want, LocalDigest(y)), SnapRespMsg(AnswerTo(x, want), x.observed));
  }

  lemma AnswerIs(x: Node, want: seq<Kind>)
    requires Ready(x) && Wanted(want)
    ensures HandleSnapReq(x, want) == Send(x, SnapRespMsg(AnswerTo(x, want), x.observed))
    ensures ValidSequences(AnswerTo(x, want).sequences) && Carries(AnswerTo(x, want)) != {}
    ensures AnswerTo(x, want).sequences == LocalDigest(x).sequences
  {
    DigestValid(x);
    assert want[0] in want;
  }

  lemma AlignedSame(x: Node, y: Node, x': Node, y': Node)
    requires Aligned(x, y) && LocalDigest(x) == LocalDigest(x') && LocalDigest(y) == LocalDigest(y')
    requires x.replica == x'.replica && y.replica == y'.replica
    ensures Aligned(x', y')
  {
    hide LocalDigest;
    forall o ensures Advertised(x', o) == Advertised(y', o) {
      assert Advertised(x, o) == Advertised(y, o);
    }
  }

  lemma SameAdvertised(n: Node, m: Node)
    requires n.replica == m.replica && n.history == m.history
    ensures LocalDigest(n) == LocalDigest(m)
    ensures Ready(n) ==> Ready(m)
  {
  }

  /** When neither side wants a pull, versions and checksums agree, so the states are identical. */
  lemma NothingWanted(x: Node, y: Node)
    requires AggregatesNeedingSnapshot(LocalDigest(y), LocalDigest(x)) == []
    ensures x.replica.kmax == y.replica.kmax ==> SumOf(y) == PullSum(y, x) && TopOf(y) == PullTop(y, x)
    ensures AggregatesNeedingSnapshot(LocalDigest(x), LocalDigest(y)) == [] ==>
              x.replica.sum == y.replica.sum && x.replica.topk == y.replica.topk
  {
  }

  /** Snapshot repair: three alternating digest deliveries between nodes with equal watermarks leave an
      aggregate equal if and only if its versions cannot wrap or its contents were comparable. */
  lemma SnapshotRepairConverges(x: Node, y: Node)
    requires Ready(x) && Ready(y) && Aligned(x, y)
    ensures var one := DigestRound(x, y);
            var two := DigestRound(one.1, one.0);
            var three := DigestRound(two.1, two.0);
            && (SameSum(three.0.replica.sum.contrib, three.1.replica.sum.contrib) <==>
                  || Max64(x.replica.sum.version, y.replica.sum.version) < MAX_U64
                  || SumLeq(x.replica.sum.contrib, y.replica.sum.contrib)
                  || SumLeq(y.replica.sum.contrib, x.replica.sum.contrib))
            && (three.0.replica.topk.candidates == three.1.replica.topk.candidates <==>
                  || Max64(x.replica.topk.version, y.replica.topk.version) < MAX_U64
                  || TopLeq(x.replica.topk.candidates, y.replica.topk.candidates, x.replica.kmax)
                  || TopLeq(y.replica.topk.candidates, x.replica.topk.candidates, x.replica.kmax))
  {
    hide DigestRound, Aligned, Pull;
    var k := x.replica.kmax;
    KmaxAligned(x, y);
    RoundPulls(x, y);
    var one := DigestRound(x, y);
    AlignedSymmetric(one.0, one.1);
    RoundPulls(one.1, one.0);
    var two := DigestRound(one.1, one.0);
    AlignedSymmetric(two.0, two.1);
    RoundPulls(two.1, two.0);
    var three := DigestRound(two.1, two.0);
    SumLattice();
    ThreePulls(MergeSum, (a, b) => SumLeq(a, b), (a: Contrib) => true, SumOf(x), SumOf(y));
    TopLattice(k);
    ThreePulls((a, b) => MergeTop(a, b, k), (a, b) => TopLeq(a, b, k), a => TopOk(a, k), TopOf(x), TopOf(y));
    TopSame(three.0.replica.topk.candidates, three.1.replica.topk.candidates, k);
  }

  lemma KmaxAligned(x: Node, y: Node)
    requires Aligned(x, y)
    ensures x.replica.kmax == y.replica.kmax
  {
  }

  lemma AlignedSymmetric(x: Node, y: Node)
    requires Aligned(x, y)
    ensures Aligned(y, x) && x.replica.kmax == y.replica.kmax
  {
  }

  lemma TopSame(l: seq<Candidate>, m: seq<Candidate>, k: nat)
    requires TopOk(l, k) && TopOk(m, k)
    ensures l == m <==> Same((a, b) => TopLeq(a, b, k), l, m)
  {
    TopLeqElements(l, m, k);
    TopLeqElements(m, l, k);
    MergeTopLaws(l, m, l, k);
  }

  /** The wrap: two nodes whose SUM versions have reached 2^64-1 with different contents stay apart. */
  lemma WrapStaysApart(cfg: Config)
    requires cfg.kmax > 0 && cfg.historyCapacity > 0
    ensures var x := Worn(cfg, "a");
            var y := Worn(cfg, "b");
            && Ready(x) && Ready(y) && Aligned(x, y)
            && var one := DigestRound(x, y);
               var two := DigestRound(one.1, one.0);
               var three := DigestRound(two.1, two.0);
               !SameSum(three.0.replica.sum.contrib, three.1.replica.sum.contrib)
  {
    var x, y := Worn(cfg, "a"), Worn(cfg, "b");
    WornReady(cfg, "a");
    WornReady(cfg, "b");
    assert Get(x.replica.sum.contrib, "a") > Get(y.replica.sum.contrib, "a");
    assert Get(y.replica.sum.contrib, "b") > Get(x.replica.sum.contrib, "b");
    forall o ensures Advertised(x, o) == Advertised(y, o) {}
    hide DigestRound, LocalDigest, Ready;
    SnapshotRepairConverges(x, y);
  }

  /** A node that counts 1 for itself at the last version and has issued nothing since its last restart. */
  ghost function Worn(cfg: Config, id: NodeId): Node {
    var n := NewNode(cfg, id);
    n.(replica := n.replica.(sum := SumState(map[id := 1], MAX_U64)))
  }

  lemma WornReady(cfg: Config, id: NodeId)
    requires cfg.kmax > 0 && cfg.historyCapacity > 0 && ValidNodeId(id)
    ensures Ready(Worn(cfg, id)) && forall o :: Advertised(Worn(cfg, id), o) == 0
  {
    forall o ensures Advertised(Worn(cfg, id), o) == 0 {
      AdvertisedIs(Worn(cfg, id), o);
    }
  }
}
