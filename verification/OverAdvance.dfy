/** Watermarks are sound exactly when snapshots are full: a snapshot that leaves an aggregate out still moves
    the receiver's watermarks for both. */
module OverAdvance {
  import opened Base
  import opened TopK
  import opened Sum
  import opened Protocol
  import opened History
  import opened Pipeline
  import opened Recovery
  import opened Runtime
  import opened Knowledge
  import opened Cluster

  /** Every snapshot applied in the run carries one of the allowed sets of aggregates. */
  ghost predicate RunAllows(actions: seq<Action>, allowed: set<set<Kind>>) {
    forall a :: a in actions && a.Deliver? && a.envelope.body.SnapRespMsg? ==> Carries(a.envelope.body.resp) in allowed
  }

  lemma {:induction false} RunAppend(c: State, xs: seq<Action>, ys: seq<Action>)
    ensures Run(c, xs + ys) == Run(Run(c, xs), ys)
  {
    hide Next;
    if ys == [] {
      assert xs + ys == xs;
    } else {
      var init := ys[..|ys| - 1];
      RunAppend(c, xs, init);
      assert (xs + ys)[..|xs + ys| - 1] == xs + init;
    }
  }

  lemma RunOne(c: State, xs: seq<Action>, x: Action)
    ensures Run(c, xs + [x]) == Next(Run(c, xs), x)
  {
    hide Next;
    assert (xs + [x])[..|xs + [x]| - 1] == xs;
  }

  lemma RunFour(c: State, w: Action, x: Action, y: Action, z: Action)
    ensures Run(c, [w, x, y, z]) == Next(Next(Next(Next(c, w), x), y), z)
  {
    hide Next;
    RunOne(c, [], w);
    RunOne(c, [w], x);
    RunOne(c, [w, x], y);
    RunOne(c, [w, x, y], z);
    assert [] + [w] == [w] && [w] + [x] == [w, x] && [w, x] + [y] == [w, x, y] && [w, x, y] + [z] == [w, x, y, z];
  }

  // ---------------------------------------------------------------- the fallback that over-advances

  /** Node `a` has issued deltas it no longer can serve, and `b` is ahead in every aggregate but `w`. */
  ghost predicate Lopsided(a: Node, b: Node, w: Kind) {
    && a.replica.deltaSeq == 2 && ValidNodeId(a.replica.nodeId) && a.replica.nodeId != b.replica.nodeId
    && a.history.entries == map[] && a.history.contiguous == map[]
    && b.history.entries == map[] && b.history.contiguous == map[]
    && FallbackWant(a, LocalDigest(b)) == [w] && w != OtherKind
    && ValidCandidates(a.replica.topk.candidates) && ValidContrib(a.replica.sum.contrib)
  }

  lemma DigestsOfLopsided(a: Node, b: Node, w: Kind)
    requires Lopsided(a, b, w)
    ensures LocalDigest(a).sequences == map[a.replica.nodeId := 2]
    ensures Get(LocalDigest(b).sequences, a.replica.nodeId) == 0
  {
    assert MergeWatermarks(map[a.replica.nodeId := 2], map[]) == map[a.replica.nodeId := 2];
    AdvertisedIs(b, a.replica.nodeId);
  }

  /** The request that `b` sends on seeing `a`'s digest cannot be served, and the answer is a snapshot of `w` only. */
  lemma FallbackAnswer(a: Node, b: Node, w: Kind)
    requires Lopsided(a, b, w)
    ensures var ranges := MissingRanges(LocalDigest(b).sequences, LocalDigest(a).sequences);
            && HandleDigest(b, LocalDigest(a)) == Send(b, RangeReqMsg(ranges, LocalDigest(b)))
            && HandleRangeReq(a, ranges, LocalDigest(b)) == SendSnapshot(a, [w])
  {
    var id := a.replica.nodeId;
    DigestsOfLopsided(a, b, w);
    var local, peer := LocalDigest(b).sequences, LocalDigest(a).sequences;
    RequestAgreement(local, peer);
    assert id in BehindOrigins(local, peer);
    var ranges := MissingRanges(local, peer);
    assert ranges[0] in ranges;
    assert RangeOf(a.history, ranges[0]).None? by {
      assert At(a.history, ranges[0].origin) == map[];
      assert RangeOk(ranges[0]);
      var s: U64 := ranges[0].from;
      assert s !in At(a.history, ranges[0].origin);
    }
  }

  function PartialResp(a: Node, w: Kind): SnapshotResp
    requires w != OtherKind
  {
    var s := SnapshotOf(a.replica, [w]).value;
    s.(sequences := MergeWatermarks(s.sequences, Reported(a.history)))
  }

  lemma PartialRespIs(a: Node, b: Node, w: Kind)
    requires Lopsided(a, b, w)
    ensures var resp := PartialResp(a, w);
            && Carries(resp) == {w} && resp.sequences == map[a.replica.nodeId := 2] && ValidSequences(resp.sequences)
            && SumFragmentOk(resp.sumState) && TopFragmentOk(resp.topkState)
            && SendSnapshot(a, [w]) == Send(a, SnapRespMsg(resp, a.observed))
  {
    DigestsOfLopsided(a, b, w);
    assert PartialResp(a, w).sequences == LocalDigest(a).sequences;
  }

  /** Applying that snapshot lifts the watermark to 2 but leaves the other aggregate as it was. */
  lemma PartialApplied(a: Node, b: Node, w: Kind, carried: set<StateDelta>)
    requires Lopsided(a, b, w)
    ensures var b' := HandleSnapResp(b, PartialResp(a, w), carried, Done).node;
            && Advertised(b', a.replica.nodeId) >= 2
            && (w == SUM ==> b'.replica.topk == b.replica.topk)
            && (w == TOPK ==> b'.replica.sum == b.replica.sum)
            && b'.replica.kmax == b.replica.kmax
  {
    hide LocalDigest, MergeTopState, MergeSumState, TopNews, SumNews;
    var id := a.replica.nodeId;
    var resp := PartialResp(a, w);
    PartialRespIs(a, b, w);
    var b' := HandleSnapResp(b, resp, carried, Done).node;
    assert b'.history == AfterAdvance(b.history, resp.sequences);
    AdvanceView(b.history, resp.sequences, id);
    assert Watermark(b.history, id) == 0 && Lifts(b.history, resp.sequences, id);
    LiftedAtLeast(b.history, resp.sequences, id);
    AdvertisedIs(b', id);
  }

  lemma LiftedAtLeast(h: Hist, ws: map<NodeId, U64>, o: NodeId)
    requires Lifts(h, ws, o)
    ensures AdvancedWatermark(h, ws, o) >= ws[o]
  {
    ExtendMeaning(DropThrough(At(h, o), ws[o]), ws[o]);
  }

  lemma Delivered(c: State, id: NodeId, e: Envelope)
    requires id in c.nodes && e in c.net
    ensures Next(c, Deliver(id, e, Done, 0)) == AfterEffect(c, id, Handle(c.nodes[id], e, Done, 0))
  {
    hide Handle, AfterEffect;
  }

  lemma SentReaches(c: State, id: NodeId, n: Node, body: Body)
    requires id in c.nodes && n.replica.nodeId == id
    ensures var d := AfterEffect(c, id, Send(n, body));
            && Envelope(id, Next64(n.outSeq), body) in d.net && d.issued == c.issued && d.cfg == c.cfg
            && d.nodes == c.nodes[id := n.(outSeq := Next64(n.outSeq))]
  {
  }

  /** Digest, request, fallback and its delivery, from any state with such a pair of nodes. */
  lemma FallbackOverAdvances(c: State, a: NodeId, b: NodeId, w: Kind, k: Kind) returns (actions: seq<Action>)
    requires a in c.nodes && b in c.nodes && a != b
    requires c.nodes[a].replica.nodeId == a && c.nodes[b].replica.nodeId == b
    requires Lopsided(c.nodes[a], c.nodes[b], w) && k != w && k != OtherKind
    requires |IssuedBy(c.issued, a)| >= 2 && IssuedBy(c.issued, a)[1].kind == k && WellFormed(IssuedBy(c.issued, a)[1])
    requires !Subsumes(c.nodes[b].replica, IssuedBy(c.issued, a)[1])
    ensures RunAllows(actions, {{w}})
    ensures !WatermarkSound(Run(c, actions), k)
  {
    hide LocalDigest, HandleDigest, HandleRangeReq, HandleSnapResp, MissingRanges, FallbackWant, Next, AfterEffect,
         SendSnapshot, PartialResp, Advertised, WellFormed, ValidCandidates, ValidContrib, Lopsided;
    var na, nb := c.nodes[a], c.nodes[b];
    var ma, mb := na.(outSeq := Next64(na.outSeq)), nb.(outSeq := Next64(nb.outSeq));
    SameDigest(na, ma);
    SameDigest(nb, mb);
    var m1 := DigestMsg(LocalDigest(na));
    var e1 := Envelope(a, Next64(na.outSeq), m1);
    Gossiped(c, a);
    SentReaches(c, a, na, m1);
    var c1 := Next(c, Gossip(a));

    FallbackAnswer(na, nb, w);
    var ranges := MissingRanges(LocalDigest(nb).sequences, LocalDigest(na).sequences);
    var m2 := RangeReqMsg(ranges, LocalDigest(nb));
    var e2 := Envelope(b, Next64(nb.outSeq), m2);
    Delivered(c1, b, e1);
    SentReaches(c1, b, nb, m2);
    var c2 := Next(c1, Deliver(b, e1, Done, 0));

    assert Lopsided(ma, nb, w) by { LopsidedSame(na, nb, w, ma, nb); }
    assert Lopsided(ma, mb, w) by { LopsidedSame(na, nb, w, ma, mb); }
    FallbackAnswer(ma, nb, w);
    PartialRespIs(ma, mb, w);
    var m3 := SnapRespMsg(PartialResp(ma, w), ma.observed);
    var e3 := Envelope(a, Next64(ma.outSeq), m3);
    Delivered(c2, a, e2);
    SentReaches(c2, a, ma, m3);
    var c3 := Next(c2, Deliver(a, e2, Done, 0));

    Delivered(c3, b, e3);
    var c4 := Next(c3, Deliver(b, e3, Done, 0));
    PartialApplied(ma, mb, w, ma.observed);
    actions := [Gossip(a), Deliver(b, e1, Done, 0), Deliver(a, e2, Done, 0), Deliver(b, e3, Done, 0)];
    RunFour(c, actions[0], actions[1], actions[2], actions[3]);
    EffectNode(c3, b, HandleSnapResp(mb, PartialResp(ma, w), ma.observed, Done));
    assert !AccountedFor(c4, b, a, 2, k);
  }

  lemma EffectNode(c: State, id: NodeId, f: Effect)
    ensures id in AfterEffect(c, id, f).nodes && AfterEffect(c, id, f).nodes[id] == f.node
    ensures AfterEffect(c, id, f).issued == c.issued
  {
  }

  lemma Gossiped(c: State, id: NodeId)
    requires id in c.nodes
    ensures Next(c, Gossip(id)) == AfterEffect(c, id, Send(c.nodes[id], DigestMsg(LocalDigest(c.nodes[id]))))
  {
    hide LocalDigest, AfterEffect;
  }

  lemma SameDigest(n: Node, m: Node)
    requires m == n.(outSeq := m.outSeq)
    ensures LocalDigest(m) == LocalDigest(n)
  {
  }

  lemma LopsidedSame(a: Node, b: Node, w: Kind, x: Node, y: Node)
    requires Lopsided(a, b, w) && x == a.(outSeq := x.outSeq) && y == b.(outSeq := y.outSeq)
    ensures Lopsided(x, y, w)
  {
    SameDigest(b, y);
  }

  // ---------------------------------------------------------------- reaching such a state

  lemma TopNewsWhenBetter(l: seq<Candidate>, c: Candidate)
    requires Ranked(l) && |l| <= 1 && forall x :: x in l ==> c.score > x.score
    ensures MergeTop(l, [c], 1) == [c]
  {
    CanonicalIsTop(l + [c], 1);
    var m := MergeTop(l, [c], 1);
    assert c in Elems(l + [c]) && Covers(m, c, 1);
    assert m != [];
    assert m[0] in m && m[0] in Elems(l + [c]);
    assert m[0] != c ==> m[0] in l && !Better(m[0], c);
  }

  function Item(id: NodeId, score: int): Candidate {
    Candidate("x", score, 1, id)
  }

  const CONFIG := Config(1, 1, 1)

  /** `b` updates one aggregate twice; `a` updates the other one and then that one. */
  function Prelude(k: Kind): seq<Action> {
    if k == TOPK then
      [Update("b", TopUpdate(Item("b", 1)), Done), Update("b", TopUpdate(Item("b", 2)), Done),
       Update("a", SumUpdate(1), Done), Update("a", TopUpdate(Item("a", 3)), Done)]
    else
      [Update("b", SumUpdate(1), Done), Update("b", SumUpdate(1), Done),
       Update("a", TopUpdate(Item("a", 1)), Done), Update("a", SumUpdate(1), Done)]
  }

  ghost function AfterPrelude(k: Kind): State {
    Run(Start(CONFIG, {"a", "b"}), Prelude(k))
  }

  lemma Updated(c: State, id: NodeId, u: LocalUpdate)
    requires id in c.nodes && c.nodes[id].replica.deltaSeq < MAX_U64 && IssueLocal(c.nodes[id].replica, u).Issued?
    ensures var a := IssueLocal(c.nodes[id].replica, u);
            var d := Next(c, Update(id, u, Done));
            && d.nodes.Keys == c.nodes.Keys && d.nodes[id].replica == a.replica
            && d.nodes[id].history == c.nodes[id].history
            && (forall o :: o in c.nodes && o != id ==> d.nodes[o] == c.nodes[o])
            && IssuedBy(d.issued, id) == IssuedBy(c.issued, id) + [a.delta]
            && (forall o :: o != id ==> IssuedBy(d.issued, o) == IssuedBy(c.issued, o))
  {
    hide IssueLocal;
  }

  /** What the four updates of `Prelude` leave behind, given the issued results on the bare replicas. */
  lemma PreludeRuns(k: Kind, u1: LocalUpdate, u2: LocalUpdate, u3: LocalUpdate, u4: LocalUpdate)
    requires Prelude(k) == [Update("b", u1, Done), Update("b", u2, Done), Update("a", u3, Done), Update("a", u4, Done)]
    requires var x1 := IssueLocal(NewReplica("b", 1), u1);
             && x1.Issued? && x1.replica.deltaSeq == 1 && IssueLocal(x1.replica, u2).Issued?
    requires var x3 := IssueLocal(NewReplica("a", 1), u3);
             && x3.Issued? && x3.replica.deltaSeq == 1 && IssueLocal(x3.replica, u4).Issued?
    ensures var c := AfterPrelude(k);
            var x2 := IssueLocal(IssueLocal(NewReplica("b", 1), u1).replica, u2);
            var x4 := IssueLocal(IssueLocal(NewReplica("a", 1), u3).replica, u4);
            && "a" in c.nodes && "b" in c.nodes
            && c.nodes["a"].replica == x4.replica && c.nodes["b"].replica == x2.replica
            && c.nodes["a"].history == NewHistory(1) && c.nodes["b"].history == NewHistory(1)
            && |IssuedBy(c.issued, "a")| == 2 && IssuedBy(c.issued, "a")[1] == x4.delta
  {
    hide Next, IssueLocal, Prelude;
    var c0 := Start(CONFIG, {"a", "b"});
    var c1 := Next(c0, Update("b", u1, Done));
    var c2 := Next(c1, Update("b", u2, Done));
    var c3 := Next(c2, Update("a", u3, Done));
    Updated(c0, "b", u1);
    Updated(c1, "b", u2);
    Updated(c2, "a", u3);
    Updated(c3, "a", u4);
    var p := Prelude(k);
    RunFour(c0, p[0], p[1], p[2], p[3]);
  }

  lemma IssuedTop(r: Replica, c: Candidate)
    requires r.kmax == 1 && Ranked(r.topk.candidates) && |r.topk.candidates| <= 1 && r.deltaSeq < MAX_U64
    requires (forall x :: x in r.topk.candidates ==> c.score > x.score) && ValidCandidate(c) && c.origin == r.nodeId
    requires r.topk.version < MAX_U64
    ensures IssueLocal(r, TopUpdate(c)) ==
            Issued(StateDelta(TOPK, r.topk.version + 1, r.nodeId, r.deltaSeq + 1, TopBody(c)),
                   r.(topk := TopState([c], r.topk.version + 1), deltaSeq := r.deltaSeq + 1))
  {
    TopNewsWhenBetter(r.topk.candidates, c);
  }

  lemma ItemValid(id: NodeId, score: int)
    requires ValidNodeId(id)
    ensures ValidCandidate(Item(id, score))
  {
    assert !Space("x"[0]);
  }

  lemma PreludeTop()
    ensures var c := AfterPrelude(TOPK);
            && "a" in c.nodes && "b" in c.nodes
            && c.nodes["a"].replica == Replica("a", 1, SumState(map["a" := 1], 1), TopState([Item("a", 3)], 1), 2)
            && c.nodes["b"].replica == Replica("b", 1, SumState(map["b" := 0], 0), TopState([Item("b", 2)], 2), 2)
            && c.nodes["a"].history == NewHistory(1) && c.nodes["b"].history == NewHistory(1)
            && |IssuedBy(c.issued, "a")| == 2
            && IssuedBy(c.issued, "a")[1] == StateDelta(TOPK, 1, "a", 2, TopBody(Item("a", 3)))
  {
    hide Next, Canonical, MergeTop;
    var b0, a0 := NewReplica("b", 1), NewReplica("a", 1);
    ItemValid("b", 1);
    ItemValid("b", 2);
    ItemValid("a", 3);
    IssuedTop(b0, Item("b", 1));
    IssuedTop(IssueLocal(b0, TopUpdate(Item("b", 1))).replica, Item("b", 2));
    assert map["a" := 0]["a" := 1] == map["a" := 1];
    assert IssueLocal(a0, SumUpdate(1)).replica == Replica("a", 1, SumState(map["a" := 1], 1), TopState([], 0), 1);
    IssuedTop(IssueLocal(a0, SumUpdate(1)).replica, Item("a", 3));
    PreludeRuns(TOPK, TopUpdate(Item("b", 1)), TopUpdate(Item("b", 2)), SumUpdate(1), TopUpdate(Item("a", 3)));
  }

  lemma PreludeSum()
    ensures var c := AfterPrelude(SUM);
            && "a" in c.nodes && "b" in c.nodes
            && c.nodes["a"].replica == Replica("a", 1, SumState(map["a" := 1], 1), TopState([Item("a", 1)], 1), 2)
            && c.nodes["b"].replica == Replica("b", 1, SumState(map["b" := 2], 2), TopState([], 0), 2)
            && c.nodes["a"].history == NewHistory(1) && c.nodes["b"].history == NewHistory(1)
            && |IssuedBy(c.issued, "a")| == 2
            && IssuedBy(c.issued, "a")[1] == StateDelta(SUM, 1, "a", 2, SumBody("a", 1))
  {
    hide Next, Canonical, MergeTop;
    var b0, a0 := NewReplica("b", 1), NewReplica("a", 1);
    assert map["a" := 0]["a" := 1] == map["a" := 1];
    assert map["b" := 0]["b" := 1] == map["b" := 1] && map["b" := 1]["b" := 2] == map["b" := 2];
    assert IssueLocal(b0, SumUpdate(1)).replica == Replica("b", 1, SumState(map["b" := 1], 1), TopState([], 0), 1);
    ItemValid("a", 1);
    IssuedTop(a0, Item("a", 1));
    PreludeRuns(SUM, SumUpdate(1), SumUpdate(1), TopUpdate(Item("a", 1)), SumUpdate(1));
  }

  function Other(k: Kind): Kind {
    if k == SUM then TOPK else SUM
  }

  /** The four updates lead to the lopsided pair, and `b` does not account for `a`'s second delta. */
  lemma PreludeLopsided(k: Kind)
    requires k == SUM || k == TOPK
    ensures var c := AfterPrelude(k);
            && "a" in c.nodes && "b" in c.nodes
            && c.nodes["a"].replica.nodeId == "a" && c.nodes["b"].replica.nodeId == "b"
            && Lopsided(c.nodes["a"], c.nodes["b"], Other(k))
            && |IssuedBy(c.issued, "a")| == 2 && IssuedBy(c.issued, "a")[1].kind == k
            && WellFormed(IssuedBy(c.issued, "a")[1])
            && !Subsumes(c.nodes["b"].replica, IssuedBy(c.issued, "a")[1])
  {
    hide AfterPrelude;
    if k == TOPK {
      PreludeTop();
      ItemValid("a", 3);
      var kept := [Item("b", 2)];
      assert kept[0] in kept && !Better(kept[0], Item("a", 3));
    } else {
      PreludeSum();
      ItemValid("a", 1);
    }
  }

  /** A concrete run of four updates and four deliveries after which `b` advertises a delta it never saw. */
  lemma PartialSnapshotUnsound(k: Kind) returns (actions: seq<Action>)
    requires k == SUM || k == TOPK
    ensures RunAllows(actions, {{Other(k)}})
    ensures !WatermarkSound(Run(Start(CONFIG, {"a", "b"}), actions), k)
  {
    hide Run, Start, Prelude, Lopsided, WellFormed, Subsumes, WatermarkSound;
    PreludeLopsided(k);
    var tail := FallbackOverAdvances(AfterPrelude(k), "a", "b", Other(k), k);
    RunAppend(Start(CONFIG, {"a", "b"}), Prelude(k), tail);
    PreludeHasNoSnapshot(k);
    actions := Prelude(k) + tail;
  }

  lemma PreludeHasNoSnapshot(k: Kind)
    ensures forall a :: a in Prelude(k) ==> a.Update?
  {
  }

  ghost predicate AlwaysSound(k: Kind, allowed: set<set<Kind>>) {
    forall cfg, ids, actions | ConfigOk(cfg) && ValidIds(ids) && RunAllows(actions, allowed)
      :: WatermarkSound(Run(Start(cfg, ids), actions), k)
  }

  /** Watermarks are sound for aggregate `k` in all runs if and only if every snapshot shape in use carries `k`. */
  lemma SoundExactlyWhenCarried(k: Kind, allowed: set<set<Kind>>)
    requires k == SUM || k == TOPK
    requires forall p :: p in allowed ==> p != {} && p <= {SUM, TOPK}
    ensures AlwaysSound(k, allowed) <==> forall p :: p in allowed ==> k in p
  {
    if forall p :: p in allowed ==> k in p {
      forall cfg, ids, actions | ConfigOk(cfg) && ValidIds(ids) && RunAllows(actions, allowed)
        ensures WatermarkSound(Run(Start(cfg, ids), actions), k)
      {
        WatermarkSoundness(cfg, ids, actions, k);
      }
    } else {
      var p :| p in allowed && k !in p;
      assert p == {Other(k)};
      var actions := PartialSnapshotUnsound(k);
      assert RunAllows(actions, allowed);
      assert ValidIds({"a", "b"});
      assert !WatermarkSound(Run(Start(CONFIG, {"a", "b"}), actions), k);
    }
  }
}
