/** What a replica, a history and a message must know about the deltas issued so far. */
module Knowledge {
  import opened Base
  import opened TopK
  import opened Sum
  import opened Protocol
  import opened History
  import opened Pipeline
  import opened Recovery
  import opened Runtime

  /** For every origin, the deltas it has published, in sequence order: entry i carries sequence i + 1. */
  type Issues = map<NodeId, seq<StateDelta>>

  function IssuedBy(I: Issues, o: NodeId): seq<StateDelta> {
    if o in I then I[o] else []
  }

  predicate IsIssued(I: Issues, d: StateDelta) {
    1 <= d.sequence <= |IssuedBy(I, d.origin)| && IssuedBy(I, d.origin)[d.sequence - 1] == d
  }

  ghost predicate IssuesOk(I: Issues) {
    forall o, i :: 0 <= i < |IssuedBy(I, o)| ==>
      WellFormed(IssuedBy(I, o)[i]) && IssuedBy(I, o)[i].origin == o && IssuedBy(I, o)[i].sequence == i + 1
  }

  ghost predicate AllIssued(I: Issues, S: set<StateDelta>) {
    forall d :: d in S ==> IsIssued(I, d)
  }

  /** `o` has issued its delta number `s`, and if that is of a kind in `K` it is in `S`. */
  ghost predicate Reached(I: Issues, o: NodeId, s: U64, S: set<StateDelta>, K: set<Kind>) {
    && 1 <= s <= |IssuedBy(I, o)|
    && (IssuedBy(I, o)[s - 1].kind in K ==> IssuedBy(I, o)[s - 1] in S)
  }

  /** A watermark `w` for `o` is honest. */
  ghost predicate SeqCovered(I: Issues, o: NodeId, w: U64, S: set<StateDelta>, K: set<Kind>) {
    forall s: U64 :: 1 <= s <= w ==> Reached(I, o, s, S, K)
  }

  ghost predicate Extends(I: Issues, J: Issues) {
    forall o :: IssuedBy(I, o) <= IssuedBy(J, o)
  }

  // ---------------------------------------------------------------- contents

  predicate SumEntry(d: StateDelta, o: NodeId, v: U64) {
    d.kind == SUM && d.body.SumBody? && d.origin == o && d.body.value == v
  }

  /** `c` is the pointwise maximum of the SUM deltas in `S`. */
  ghost predicate RepSum(c: Contrib, S: set<StateDelta>) {
    && (forall d :: d in S && d.kind == SUM && d.body.SumBody? ==> d.body.value <= Get(c, d.origin))
    && (forall o: NodeId :: Get(c, o) > 0 ==> exists d :: d in S && SumEntry(d, o, Get(c, o)))
  }

  ghost function Candidates(S: set<StateDelta>): set<Candidate> {
    set d | d in S && d.kind == TOPK && d.body.TopBody? :: d.body.candidate
  }

  /** `l` is the best `k` of the TOPK deltas in `S`. */
  ghost predicate RepTop(l: seq<Candidate>, S: set<StateDelta>, k: nat) {
    IsTop(l, Candidates(S), k)
  }

  ghost predicate Represents(r: Replica, S: set<StateDelta>) {
    RepSum(r.sum.contrib, S) && RepTop(r.topk.candidates, S, r.kmax)
  }

  lemma RepSumMerge(a: Contrib, b: Contrib, S: set<StateDelta>, T: set<StateDelta>)
    requires RepSum(a, S) && RepSum(b, T)
    ensures RepSum(MergeSum(a, b), S + T)
  {
    var m := MergeSum(a, b);
    forall d | d in S + T && d.kind == SUM && d.body.SumBody? ensures d.body.value <= Get(m, d.origin) {
      MergeSumMax(a, b, d.origin);
    }
    forall o: NodeId | Get(m, o) > 0 ensures exists d :: d in S + T && SumEntry(d, o, Get(m, o)) {
      MergeSumMax(a, b, o);
      if Get(m, o) == Get(a, o) {
        var d :| d in S && SumEntry(d, o, Get(a, o));
        assert d in S + T;
      } else {
        var d :| d in T && SumEntry(d, o, Get(b, o));
        assert d in S + T;
      }
    }
  }

  lemma RepTopMerge(l: seq<Candidate>, m: seq<Candidate>, S: set<StateDelta>, T: set<StateDelta>, k: nat)
    requires RepTop(l, S, k) && RepTop(m, T, k)
    ensures RepTop(MergeTop(l, m, k), S + T, k)
  {
    MergeTopMeaning(l, m, Candidates(S), Candidates(T), k);
    assert Candidates(S + T) == Candidates(S) + Candidates(T);
  }

  /** Contents depend only on the deltas of their own kind. */
  lemma RepOwnKind(c: Contrib, l: seq<Candidate>, S: set<StateDelta>, T: set<StateDelta>, k: nat)
    ensures RepSum(c, S) && (forall d: StateDelta :: d.kind == SUM ==> (d in S <==> d in T)) ==> RepSum(c, T)
    ensures RepTop(l, S, k) && (forall d: StateDelta :: d.kind == TOPK ==> (d in S <==> d in T)) ==> RepTop(l, T, k)
  {
    if RepSum(c, S) && forall d: StateDelta :: d.kind == SUM ==> (d in S <==> d in T) {
      forall o: NodeId | Get(c, o) > 0 ensures exists d :: d in T && SumEntry(d, o, Get(c, o)) {
        var d :| d in S && SumEntry(d, o, Get(c, o));
        assert d in T;
      }
    }
    if RepTop(l, S, k) && forall d: StateDelta :: d.kind == TOPK ==> (d in S <==> d in T) {
      assert Candidates(S) == Candidates(T);
    }
  }

  lemma RepSumDelta(d: StateDelta)
    requires WellFormed(d) && d.kind == SUM
    ensures RepSum(map[d.origin := d.body.value], {d})
  {
    var c := map[d.origin := d.body.value];
    forall o: NodeId | Get(c, o) > 0 ensures exists x :: x in {d} && SumEntry(x, o, Get(c, o)) {
      assert SumEntry(d, o, Get(c, o));
    }
  }

  lemma RepTopDelta(d: StateDelta, k: nat)
    requires WellFormed(d) && d.kind == TOPK && k > 0
    ensures RepTop([d.body.candidate], {d}, k)
  {
    assert Candidates({d}) == {d.body.candidate};
  }

  /** A replica that represents `S` accounts for every delta in `S`, evicted candidates included. */
  lemma RepresentsSubsumes(r: Replica, S: set<StateDelta>, d: StateDelta)
    requires Represents(r, S) && d in S && WellFormed(d)
    ensures Subsumes(r, d)
  {
    if d.kind == TOPK {
      assert d.body.candidate in Candidates(S);
    }
  }

  /** Contents are a function of the observed set. */
  lemma RepresentsUnique(a: Replica, b: Replica, S: set<StateDelta>)
    requires Represents(a, S) && Represents(b, S) && a.kmax == b.kmax
    ensures SameSum(a.sum.contrib, b.sum.contrib) && a.topk.candidates == b.topk.candidates
  {
    TopUnique(a.topk.candidates, b.topk.candidates, Candidates(S), a.kmax);
    forall o: NodeId ensures Get(a.sum.contrib, o) == Get(b.sum.contrib, o) {
      if Get(a.sum.contrib, o) > 0 {
        var d :| d in S && SumEntry(d, o, Get(a.sum.contrib, o));
        assert Get(a.sum.contrib, o) <= Get(b.sum.contrib, o);
      }
      if Get(b.sum.contrib, o) > 0 {
        var d :| d in S && SumEntry(d, o, Get(b.sum.contrib, o));
        assert Get(b.sum.contrib, o) <= Get(a.sum.contrib, o);
      }
    }
  }

  lemma SameContentsRepresents(a: Replica, b: Replica, S: set<StateDelta>)
    requires Represents(a, S) && SameContents(a, b)
    ensures Represents(b, S)
  {
    forall d | d in S && d.kind == SUM && d.body.SumBody? ensures d.body.value <= Get(b.sum.contrib, d.origin) {
      assert Get(a.sum.contrib, d.origin) == Get(b.sum.contrib, d.origin);
    }
    forall o: NodeId | Get(b.sum.contrib, o) > 0
      ensures exists d :: d in S && SumEntry(d, o, Get(b.sum.contrib, o))
    {
      assert Get(a.sum.contrib, o) == Get(b.sum.contrib, o);
    }
  }

  // ---------------------------------------------------------------- nodes and messages

  ghost predicate HistoryOk(I: Issues, K: set<Kind>, h: Hist, S: set<StateDelta>) {
    && HistValid(h)
    && (forall o, s :: s in At(h, o) ==> IsIssued(I, At(h, o)[s]) && At(h, o)[s] in S)
    && (forall o :: SeqCovered(I, o, Watermark(h, o), S, K))
  }

  ghost predicate OwnOk(I: Issues, id: NodeId, n: Node) {
    && n.replica.deltaSeq == |IssuedBy(I, id)|
    && forall i :: 0 <= i < |IssuedBy(I, id)| ==> IssuedBy(I, id)[i] in n.observed
  }

  /** The node invariant. `K` is the set of aggregate kinds that every applied snapshot has carried so far:
      only for those kinds are watermarks claimed to be honest. */
  ghost predicate NodeInv(I: Issues, kmax: nat, K: set<Kind>, id: NodeId, n: Node) {
    && n.replica.nodeId == id && n.replica.kmax == kmax
    && Exact(LiveOf(n))
    && AllIssued(I, n.observed) && Represents(n.replica, n.observed)
    && OwnOk(I, id, n)
    && HistoryOk(I, K, n.history, n.observed)
    && (forall d :: d in n.queue ==> IsIssued(I, d) && d in n.observed)
  }

  ghost predicate SnapshotOk(I: Issues, kmax: nat, K: set<Kind>, s: SnapshotResp, S: set<StateDelta>) {
    && AllIssued(I, S)
    && !s.sumState.Malformed? && !s.topkState.Malformed?
    && (s.sumState.Present? ==> ValidContrib(s.sumState.payload.contrib) && RepSum(s.sumState.payload.contrib, S))
    && (s.topkState.Present? ==>
          ValidCandidates(s.topkState.payload.candidates) && RepTop(s.topkState.payload.candidates, S, kmax))
    && (forall o :: SeqCovered(I, o, Get(s.sequences, o), S, K))
  }

  ghost predicate MsgInv(I: Issues, kmax: nat, K: set<Kind>, e: Envelope) {
    match e.body
    case DeltaMsg(d) => IsIssued(I, d)
    case RangeRespMsg(ds) => forall d :: d in ds ==> IsIssued(I, d)
    case SnapRespMsg(s, carried) => SnapshotOk(I, kmax, K, s, carried)
    case _ => true
  }

  /** The fields that the invariant does not read. */
  ghost predicate SameKnowledge(n: Node, m: Node) {
    && m.replica == n.replica && m.disk == n.disk && m.history == n.history && m.queue == n.queue
    && m.observed == n.observed
  }

  ghost predicate EffectOk(I: Issues, kmax: nat, K: set<Kind>, id: NodeId, n: Node, f: Effect) {
    && NodeInv(I, kmax, K, id, f.node)
    && (forall e :: e in f.sent ==> MsgInv(I, kmax, K, e))
    && ContentsLeq(n.replica, f.node.replica) && n.observed <= f.node.observed
    && (f.forwarded.Some? ==>
          f.forwarded.value !in n.observed && f.forwarded.value in f.node.observed)
  }

  lemma ReflexiveLeq(r: Replica)
    ensures ContentsLeq(r, r)
  {
  }

  // ---------------------------------------------------------------- more deltas get issued

  lemma IssuedGrows(I: Issues, J: Issues, d: StateDelta)
    requires Extends(I, J) && IsIssued(I, d)
    ensures IsIssued(J, d)
  {
    assert IssuedBy(I, d.origin) <= IssuedBy(J, d.origin);
  }

  lemma CoveredGrows(I: Issues, J: Issues, o: NodeId, w: U64, S: set<StateDelta>, T: set<StateDelta>, K: set<Kind>)
    requires Extends(I, J) && S <= T && SeqCovered(I, o, w, S, K)
    ensures SeqCovered(J, o, w, T, K)
  {
    assert IssuedBy(I, o) <= IssuedBy(J, o);
    forall s: U64 | 1 <= s <= w ensures Reached(J, o, s, T, K) {
      assert Reached(I, o, s, S, K);
    }
  }

  lemma HistoryGrows(I: Issues, J: Issues, K: set<Kind>, h: Hist, S: set<StateDelta>, T: set<StateDelta>)
    requires Extends(I, J) && S <= T && HistoryOk(I, K, h, S)
    ensures HistoryOk(J, K, h, T)
  {
    forall o, s | s in At(h, o) ensures IsIssued(J, At(h, o)[s]) && At(h, o)[s] in T {
      IssuedGrows(I, J, At(h, o)[s]);
    }
    forall o ensures SeqCovered(J, o, Watermark(h, o), T, K) {
      CoveredGrows(I, J, o, Watermark(h, o), S, T, K);
    }
  }

  lemma NodeInvGrows(I: Issues, J: Issues, kmax: nat, K: set<Kind>, id: NodeId, n: Node)
    requires Extends(I, J) && IssuedBy(I, id) == IssuedBy(J, id) && NodeInv(I, kmax, K, id, n)
    ensures NodeInv(J, kmax, K, id, n)
  {
    forall d | d in n.observed ensures IsIssued(J, d) { IssuedGrows(I, J, d); }
    forall d | d in n.queue ensures IsIssued(J, d) { IssuedGrows(I, J, d); }
    HistoryGrows(I, J, K, n.history, n.observed, n.observed);
  }

  lemma MsgInvGrows(I: Issues, J: Issues, kmax: nat, K: set<Kind>, e: Envelope)
    requires Extends(I, J) && MsgInv(I, kmax, K, e)
    ensures MsgInv(J, kmax, K, e)
  {
    match e.body
    case DeltaMsg(d) => IssuedGrows(I, J, d);
    case RangeRespMsg(ds) =>
      forall d | d in ds ensures IsIssued(J, d) { IssuedGrows(I, J, d); }
    case SnapRespMsg(s, carried) =>
      forall d | d in carried ensures IsIssued(J, d) { IssuedGrows(I, J, d); }
      forall o ensures SeqCovered(J, o, Get(s.sequences, o), carried, K) {
        CoveredGrows(I, J, o, Get(s.sequences, o), carried, carried, K);
      }
    case _ =>
  }
}
