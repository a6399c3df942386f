/** The value-level behaviour of internal/aggregation/pipeline.Manager: what each mutation does to a replica. */
module Pipeline {
  import opened Base
  import opened TopK
  import opened Sum
  import opened Protocol

  datatype Replica = Replica(nodeId: NodeId, kmax: nat, sum: SumState, topk: TopState, deltaSeq: U64)

  datatype LocalUpdate = SumUpdate(increment: int) | TopUpdate(candidate: Candidate) | BadUpdate

  datatype LocalAttempt = Refused | Unchanged | Issued(delta: StateDelta, replica: Replica)

  /** The outcome of a mutation: the Go pair (advanced, err) and the replica it leaves behind. */
  datatype Attempt = Attempt(ok: bool, advanced: bool, replica: Replica)

  ghost predicate ReplicaValid(r: Replica) {
    && ValidNodeId(r.nodeId) && r.kmax > 0
    && r.nodeId in r.sum.contrib && ValidContrib(r.sum.contrib)
    && CanonicalState(r.topk, r.kmax)
  }

  function NewReplica(nodeId: NodeId, kmax: nat): Replica {
    Replica(nodeId, kmax, SumState(map[nodeId := 0], 0), TopState([], 0), 0)
  }

  // ---------------------------------------------------------------- mutations

  function IssueLocal(r: Replica, u: LocalUpdate): LocalAttempt {
    match u
    case SumUpdate(x) =>
      if !IncrementFits(r.sum, r.nodeId, x) then Refused
      else
        var s := UpdateSumState(r.sum, r.nodeId, x);
        var d := StateDelta(SUM, s.version, r.nodeId, Next64(r.deltaSeq), SumBody(r.nodeId, Get(s.contrib, r.nodeId)));
        Issued(d, r.(sum := s, deltaSeq := Next64(r.deltaSeq)))
    case TopUpdate(candidate) =>
      var c := candidate.(origin := r.nodeId);
      if !ValidCandidate(c) then Refused
      else
        var t := UpdateTopState(r.topk, c, r.kmax);
        if t.candidates == r.topk.candidates then Unchanged
        else
          var d := StateDelta(TOPK, t.version, r.nodeId, Next64(r.deltaSeq), TopBody(c));
          Issued(d, r.(topk := t, deltaSeq := Next64(r.deltaSeq)))
    case BadUpdate => Refused
  }

  function AdvanceSeq(r: Replica, candidate: U64): Replica {
    if candidate <= r.deltaSeq then r else r.(deltaSeq := candidate)
  }

  function AdvanceOwn(r: Replica, d: StateDelta): Replica {
    if d.origin == r.nodeId then AdvanceSeq(r, d.sequence) else r
  }

  /** applyReceivedDeltaLocked without its journal call. An invalid TOPK candidate is neither merged nor
      reported, because the error of Merge lands in a shadowed variable. */
  function Receive(r: Replica, d: StateDelta): Attempt {
    match d.kind
    case SUM =>
      (match DecodeSumDelta(d)
       case None => Attempt(false, false, r)
       case Some(b) =>
         var peer := SumState(map[b.node := b.value], d.version);
         Attempt(true, SumAdvances(r.sum.contrib, peer.contrib), AdvanceOwn(r.(sum := MergeSumState(r.sum, peer)), d)))
    case TOPK =>
      (match DecodeTopDelta(d)
       case None => Attempt(false, false, r)
       case Some(c) =>
         if !ValidCandidate(c) then Attempt(true, false, AdvanceOwn(r, d))
         else
           var peer := TopState([c], d.version);
           Attempt(true, TopAdvances(r.topk, [c], r.kmax), AdvanceOwn(r.(topk := MergeTopState(r.topk, peer, r.kmax)), d)))
    case OtherKind => Attempt(false, false, r)
  }

  predicate SumFragmentOk(f: Fragment<SumState>) {
    match f
    case Absent => true
    case Malformed => false
    case Present(p) => ValidContrib(p.contrib)
  }

  predicate TopFragmentOk(f: Fragment<TopState>) {
    match f
    case Absent => true
    case Malformed => false
    case Present(p) => ValidCandidates(p.candidates)
  }

  function AfterSum(r: Replica, f: Fragment<SumState>): Replica {
    if f.Present? then r.(sum := MergeSumState(r.sum, f.payload)) else r
  }

  function AfterTop(r: Replica, f: Fragment<TopState>): Replica {
    if f.Present? then r.(topk := MergeTopState(r.topk, f.payload, r.kmax)) else r
  }

  predicate SumNews(r: Replica, f: Fragment<SumState>) {
    f.Present? && SumAdvances(r.sum.contrib, f.payload.contrib)
  }

  predicate TopNews(r: Replica, f: Fragment<TopState>) {
    f.Present? && TopAdvances(r.topk, f.payload.candidates, r.kmax)
  }

  /** applySnapshotLocked: SUM first; a bad TOPK fragment is noticed only after SUM has been merged. */
  function MergeSnapshot(r: Replica, s: SnapshotResp): Attempt {
    if !SumFragmentOk(s.sumState) then Attempt(false, false, r)
    else
      var r1 := AfterSum(r, s.sumState);
      if !TopFragmentOk(s.topkState) then Attempt(false, false, r1)
      else Attempt(true, SumNews(r, s.sumState) || TopNews(r1, s.topkState),
                   AdvanceSeq(AfterTop(r1, s.topkState), Get(s.sequences, r.nodeId)))
  }

  /** The journal decides: an advancing mutation that cannot be journaled is rolled back and reported. */
  function Persist(r: Replica, a: Attempt, journaled: bool): Attempt {
    if a.ok && a.advanced && !journaled then Attempt(false, false, r) else a
  }

  // ---------------------------------------------------------------- read side

  function DigestOf(r: Replica): StateDigest {
    StateDigest(AggregateDigest(r.sum.version, OfSum(r.sum)),
                AggregateDigest(r.topk.version, OfTop(r.topk)),
                if r.deltaSeq > 0 then map[r.nodeId := r.deltaSeq] else map[])
  }

  predicate Wanted(want: seq<Kind>) {
    want != [] && forall i :: 0 <= i < |want| ==> want[i] != OtherKind
  }

  /** snapshotLocked; None when nothing or something unknown is wanted. */
  function SnapshotOf(r: Replica, want: seq<Kind>): Option<SnapshotResp> {
    if !Wanted(want) then None
    else
      var sumVersion := if SUM in want then r.sum.version else 0;
      var topVersion := if TOPK in want then r.topk.version else 0;
      Some(SnapshotResp(Max64(sumVersion, topVersion),
                        if SUM in want then Present(r.sum) else Absent,
                        if TOPK in want then Present(r.topk) else Absent,
                        if r.deltaSeq > 0 then map[r.nodeId := r.deltaSeq] else map[]))
  }

  // ---------------------------------------------------------------- contents

  /** Equality of what the replica answers queries from; Lamport versions are left out. */
  ghost predicate SameContents(a: Replica, b: Replica) {
    && a.nodeId == b.nodeId && a.kmax == b.kmax
    && SameSum(a.sum.contrib, b.sum.contrib) && a.topk.candidates == b.topk.candidates
  }

  /** Deltas as ApplyLocalUpdate produces them. */
  predicate WellFormed(d: StateDelta) {
    && ValidNodeId(d.origin) && d.sequence != 0
    && match d.kind
       case SUM => d.body.SumBody? && d.body.node == d.origin
       case TOPK => d.body.TopBody? && d.body.candidate.origin == d.origin && ValidCandidate(d.body.candidate)
       case OtherKind => false
  }

  /** The replica's contents already account for `d`, even if its candidate has been cut from the list. */
  ghost predicate Subsumes(r: Replica, d: StateDelta)
    requires WellFormed(d)
  {
    if d.kind == SUM then Get(r.sum.contrib, d.origin) >= d.body.value
    else Covers(r.topk.candidates, d.body.candidate, r.kmax)
  }

  ghost predicate ContentsLeq(a: Replica, b: Replica) {
    && a.nodeId == b.nodeId && a.kmax == b.kmax && a.deltaSeq <= b.deltaSeq
    && SumLeq(a.sum.contrib, b.sum.contrib)
    && forall c :: Covers(a.topk.candidates, c, a.kmax) ==> Covers(b.topk.candidates, c, b.kmax)
  }

  // ---------------------------------------------------------------- every mutation

  /** A merge of either aggregate only moves the contents up. */
  lemma MergeGrows(r: Replica, sum: SumState, topk: TopState)
    requires ReplicaValid(r) && ValidContrib(sum.contrib) && ValidCandidates(topk.candidates)
    ensures ReplicaValid(r.(sum := MergeSumState(r.sum, sum)))
    ensures ContentsLeq(r, r.(sum := MergeSumState(r.sum, sum)))
    ensures ReplicaValid(r.(topk := MergeTopState(r.topk, topk, r.kmax)))
    ensures ContentsLeq(r, r.(topk := MergeTopState(r.topk, topk, r.kmax)))
  {
    MergeSumIsJoin(r.sum.contrib, sum.contrib);
    CanonicalIsTop(r.topk.candidates + topk.candidates, r.kmax);
    ValidMerge(r.topk.candidates, topk.candidates, r.kmax);
    forall c | Covers(r.topk.candidates, c, r.kmax)
      ensures Covers(MergeTop(r.topk.candidates, topk.candidates, r.kmax), c, r.kmax)
    {
      CoversAfterMerge(r.topk.candidates, topk.candidates, c, r.kmax);
    }
  }

  lemma IssueGrows(r: Replica, u: LocalUpdate)
    requires ReplicaValid(r) && r.deltaSeq < MAX_U64 && IssueLocal(r, u).Issued?
    ensures var a := IssueLocal(r, u);
            && ReplicaValid(a.replica) && ContentsLeq(r, a.replica)
            && a.replica.deltaSeq == r.deltaSeq + 1
            && WellFormed(a.delta) && a.delta.origin == r.nodeId && a.delta.sequence == r.deltaSeq + 1
            && !Subsumes(r, a.delta) && Subsumes(a.replica, a.delta)
  {
    match u
    case SumUpdate(x) =>
    case TopUpdate(candidate) =>
      var c := candidate.(origin := r.nodeId);
      MergeGrows(r, r.sum, TopState([c], 0));
      CoversAfterMerge(r.topk.candidates, [c], c, r.kmax);
      MergeUnchanged(r.topk.candidates, [c], r.kmax);
    case BadUpdate =>
  }

  lemma ReceiveGrows(r: Replica, d: StateDelta)
    requires ReplicaValid(r)
    ensures ReplicaValid(Receive(r, d).replica) && ContentsLeq(r, Receive(r, d).replica)
    ensures !Receive(r, d).advanced ==> SameContents(r, Receive(r, d).replica)
  {
    match d.kind
    case SUM =>
      if DecodeSumDelta(d).Some? {
        var b := DecodeSumDelta(d).value;
        MergeGrows(r, SumState(map[b.node := b.value], d.version), r.topk);
        MergeSumIsJoin(r.sum.contrib, map[b.node := b.value]);
      }
    case TOPK =>
      if DecodeTopDelta(d).Some? && ValidCandidate(DecodeTopDelta(d).value) {
        MergeGrows(r, r.sum, TopState([DecodeTopDelta(d).value], d.version));
      }
    case OtherKind =>
  }

  /** Why flooding stops: a well-formed delta advances a replica exactly when it was not yet accounted for,
      and is accounted for afterwards. */
  lemma ReceiveAdvancesOnce(r: Replica, d: StateDelta)
    requires ReplicaValid(r) && WellFormed(d)
    ensures Receive(r, d).ok
    ensures Receive(r, d).advanced <==> !Subsumes(r, d)
    ensures Subsumes(Receive(r, d).replica, d)
  {
    if d.kind == SUM {
      var p := map[d.origin := d.body.value];
      MergeSumIsJoin(r.sum.contrib, p);
      MergeSumMax(r.sum.contrib, p, d.origin);
      if d.body.value > Get(r.sum.contrib, d.origin) {
        assert d.origin in p && p[d.origin] > Get(r.sum.contrib, d.origin);
      }
    } else {
      var c := d.body.candidate;
      MergeUnchanged(r.topk.candidates, [c], r.kmax);
      CoversAfterMerge(r.topk.candidates, [c], c, r.kmax);
    }
  }

  /** A TOPK delta reported as applied is accounted for exactly when its candidate is valid, or was outranked
      anyway: the error of an invalid candidate never reaches the caller. */
  lemma AppliedIsCovered(r: Replica, d: StateDelta)
    requires ReplicaValid(r) && d.kind == TOPK && Receive(r, d).ok
    ensures DecodeTopDelta(d).Some?
    ensures var c := DecodeTopDelta(d).value;
            Covers(Receive(r, d).replica.topk.candidates, c, r.kmax) <==>
            ValidCandidate(c) || Covers(r.topk.candidates, c, r.kmax)
  {
    CoversAfterMerge(r.topk.candidates, [DecodeTopDelta(d).value], DecodeTopDelta(d).value, r.kmax);
  }

  lemma AfterSumGrows(r: Replica, f: Fragment<SumState>)
    requires ReplicaValid(r) && SumFragmentOk(f)
    ensures ReplicaValid(AfterSum(r, f)) && ContentsLeq(r, AfterSum(r, f))
    ensures SameContents(r, AfterSum(r, f)) <==> !SumNews(r, f)
  {
    if f.Present? {
      MergeGrows(r, f.payload, r.topk);
      var p := f.payload.contrib;
      MergeSumIsJoin(r.sum.contrib, p);
      if SumAdvances(r.sum.contrib, p) {
        var k :| k in p && p[k] > Get(r.sum.contrib, k);
        MergeSumMax(r.sum.contrib, p, k);
      }
    }
  }

  lemma AfterTopGrows(r: Replica, f: Fragment<TopState>)
    requires ReplicaValid(r) && TopFragmentOk(f)
    ensures ReplicaValid(AfterTop(r, f)) && ContentsLeq(r, AfterTop(r, f))
    ensures SameContents(r, AfterTop(r, f)) <==> !TopNews(r, f)
  {
    if f.Present? {
      MergeGrows(r, r.sum, f.payload);
    }
  }

  lemma SnapshotGrows(r: Replica, s: SnapshotResp)
    requires ReplicaValid(r)
    ensures ReplicaValid(MergeSnapshot(r, s).replica) && ContentsLeq(r, MergeSnapshot(r, s).replica)
    ensures MergeSnapshot(r, s).ok && !MergeSnapshot(r, s).advanced ==> SameContents(r, MergeSnapshot(r, s).replica)
  {
    if SumFragmentOk(s.sumState) {
      AfterSumGrows(r, s.sumState);
      var r1 := AfterSum(r, s.sumState);
      if TopFragmentOk(s.topkState) {
        AfterTopGrows(r1, s.topkState);
        LeqTransitive(r, r1, AfterTop(r1, s.topkState));
      }
    }
  }

  lemma LeqTransitive(a: Replica, b: Replica, c: Replica)
    requires ContentsLeq(a, b) && ContentsLeq(b, c)
    ensures ContentsLeq(a, c)
  {
    forall k: NodeId ensures Get(a.sum.contrib, k) <= Get(c.sum.contrib, k) {
      assert Get(a.sum.contrib, k) <= Get(b.sum.contrib, k) <= Get(c.sum.contrib, k);
    }
  }

  /** A snapshot that fails leaves the contents alone except in one case: its SUM fragment was good and
      news, and its TOPK fragment was bad. */
  lemma SnapshotErrorUndone(r: Replica, s: SnapshotResp)
    requires ReplicaValid(r) && !MergeSnapshot(r, s).ok
    ensures SameContents(r, MergeSnapshot(r, s).replica) <==> !(SumFragmentOk(s.sumState) && SumNews(r, s.sumState))
  {
    if SumFragmentOk(s.sumState) {
      AfterSumGrows(r, s.sumState);
    }
  }

  /** A snapshot that is reported as failed and yet leaves its SUM part behind. */
  lemma HalfMergedSnapshot(nodeId: NodeId, kmax: nat)
    requires ValidNodeId(nodeId) && kmax > 0
    ensures var s := SnapshotResp(1, Present(SumState(map[nodeId := 1], 1)), Malformed, map[]);
            var a := MergeSnapshot(NewReplica(nodeId, kmax), s);
            !a.ok && Get(a.replica.sum.contrib, nodeId) == 1
  {
    MergeSumMax(map[nodeId := 0], map[nodeId := 1], nodeId);
  }
}
