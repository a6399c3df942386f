/** A run in which the flood of an own delta is lost, and its origin then serves it from its own history. */
module ServedRun {
  import opened Base
  import opened TopK
  import opened Sum
  import opened Protocol
  import opened History
  import opened Pipeline
  import opened Recovery
  import opened Runtime
  import opened Cluster
  import opened Rounds
  import opened RangeRepair
  import Effects
  import JammedRun
  import OverAdvance
  import SnapshotRepair

  const CONFIG := Config(1, 1, 2)
  const FIRST := StateDelta(SUM, 1, "a", 1, SumBody("a", 1))
  const ASKED := DeltaRange("a", 1, 1)

  /** `a` counts once and takes its outbound turn. */
  function Prelude(): seq<Action> {
    [Update("a", SumUpdate(1), Done), Dequeue("a")]
  }

  lemma UpdateOnce()
    ensures var n := LocalStep(NewNode(CONFIG, "a"), SumUpdate(1), Done, 2);
            && n.queue == [FIRST] && n.outSeq == 0 && n.history == NewHistory(1)
            && n.replica.nodeId == "a" && n.replica.deltaSeq == 1
  {
    hide Recover;
  }

  lemma AfterPrelude(c: State)
    requires c == Run(Start(CONFIG, {"a", "b"}), Prelude())
    ensures "a" in c.nodes && "b" in c.nodes && c.nodes["b"] == NewNode(CONFIG, "b")
    ensures var n := c.nodes["a"];
            && n.replica.nodeId == "a" && n.replica.deltaSeq == 1 && n.outSeq == 1
            && n.history == AfterRecord(NewHistory(1), FIRST)
  {
    var c0 := Start(CONFIG, {"a", "b"});
    var s := Prelude();
    hide LocalStep, AfterRecord, NewNode, IssueLocal;
    UpdateOnce();
    JammedRun.NewNodeStarts("a");
    OverAdvance.RunOne(c0, [], s[0]);
    OverAdvance.RunOne(c0, [s[0]], s[1]);
    assert [] + [s[0]] == [s[0]] && [s[0]] + [s[1]] == s;
    assert c0.nodes["a"] == NewNode(JammedRun.CONFIG, "a") && c0.cfg == CONFIG;
  }

  /** The one thing that `b` asks of `a` then. */
  lemma AskedOnce(x: Node, y: Node)
    requires Ready(x) && x.replica.nodeId == "a" && x.replica.deltaSeq == 1
    requires x.history == AfterRecord(NewHistory(1), FIRST) && y == NewNode(CONFIG, "b")
    ensures MissingRanges(LocalDigest(y).sequences, LocalDigest(x).sequences) == [ASKED] && !NoGap(x, y)
  {
    JammedRun.HistoriesOfOne();
    hide AfterRecord, LocalDigest, Ready, MissingRanges, Asked, NewNode;
    var ranges := MissingRanges(LocalDigest(y).sequences, LocalDigest(x).sequences);
    forall o ensures Gap(x, y, o) == if o == "a" then 1 else 0 {
      AdvertisedIs(x, o);
      NothingAdvertised(y, o);
    }
    RequestIs(x, y);
    AskedIs(x, y, "a");
    NothingAdvertised(y, "a");
    assert Asked(x, y, "a") == ASKED && ASKED in ranges;
    hide Gap, Advertised;
    assert forall r :: r in ranges ==> r == ASKED;
    TwoOrigins(ranges);
  }

  lemma TwoOrigins(ranges: seq<DeltaRange>)
    requires DistinctOrigins(ranges)
    ensures |ranges| > 1 ==> exists p, q :: p in ranges && q in ranges && p.origin != q.origin
  {
    if |ranges| > 1 {
      assert ranges[0] in ranges && ranges[1] in ranges;
    }
  }

  lemma NothingAdvertised(y: Node, o: NodeId)
    requires y == NewNode(CONFIG, "b")
    ensures Advertised(y, o) == 0
  {
    AdvertisedIs(y, o);
  }

  /** Digest, request and answer: `a` serves its own first delta out of its history, and `b` counts it. */
  lemma OwnDeltaServedInRun() returns (more: seq<Action>)
    ensures var c := Run(Start(CONFIG, {"a", "b"}), Prelude() + more);
            && Envelope("a", 3, RangeRespMsg([FIRST])) in c.net
            && "b" in c.nodes && Subsumes(c.nodes["b"].replica, FIRST)
  {
    var ids := {"a", "b"};
    var c0 := Start(CONFIG, ids);
    assert ValidIds(ids);
    var c2 := Run(c0, Prelude());
    AfterPrelude(c2);
    ReachableReady(CONFIG, ids, Prelude(), "a");
    var x, y := c2.nodes["a"], c2.nodes["b"];
    AskedOnce(x, y);
    DigestStep(x, y);
    RequestStep(x, LocalDigest(y));
    Received(y.(outSeq := 1));
    hide NewNode, AfterRecord, Start, Ready, StoredWellFormed, Subsumes, Handle, LocalDigest, Next;
    more := FourSteps(c2, x, y);
    OverAdvance.RunAppend(c0, Prelude(), more);
  }

  /** The three messages after the prelude, for the digests that go with them. */
  function Digest(local: StateDigest): Envelope {
    Envelope("a", 2, DigestMsg(local))
  }

  function Request(known: StateDigest): Envelope {
    Envelope("b", 1, RangeReqMsg([ASKED], known))
  }

  function Answer(): Envelope {
    Envelope("a", 3, RangeRespMsg([FIRST]))
  }

  lemma FourSteps(c: State, x: Node, y: Node) returns (more: seq<Action>)
    requires "a" in c.nodes && "b" in c.nodes && c.nodes["a"] == x && c.nodes["b"] == y
    requires x.replica.nodeId == "a" && x.outSeq == 1
    requires Handle(y, Digest(LocalDigest(x)), Done, 0) == Effect(y.(outSeq := 1), {Request(LocalDigest(y))}, None)
    requires Handle(x.(outSeq := 2), Request(LocalDigest(y)), Done, 0) == Effect(x.(outSeq := 3), {Answer()}, None)
    requires Subsumes(Handle(y.(outSeq := 1), Answer(), Done, 0).node.replica, FIRST)
    ensures Answer() in Run(c, more).net
    ensures "b" in Run(c, more).nodes && Subsumes(Run(c, more).nodes["b"].replica, FIRST)
  {
    hide Next, Handle, LocalDigest, Subsumes;
    var digest, request := Digest(LocalDigest(x)), Request(LocalDigest(y));
    more := [Gossip("a"), Action.Deliver("b", digest, Done, 0), Action.Deliver("a", request, Done, 0),
             Action.Deliver("b", Answer(), Done, 0)];
    OverAdvance.RunFour(c, more[0], more[1], more[2], more[3]);
    hide Run;
    Gossiped(c);
    var c3 := Next(c, more[0]);
    OverAdvance.Delivered(c3, "b", digest);
    var c4 := Next(c3, more[1]);
    OverAdvance.Delivered(c4, "a", request);
    var c5 := Next(c4, more[2]);
    OverAdvance.Delivered(c5, "b", Answer());
  }

  lemma Gossiped(c: State)
    requires "a" in c.nodes && c.nodes["a"].replica.nodeId == "a" && c.nodes["a"].outSeq == 1
    ensures var x := c.nodes["a"];
            var d := Next(c, Gossip("a"));
            d.nodes == c.nodes["a" := x.(outSeq := 2)] && Envelope("a", 2, DigestMsg(LocalDigest(x))) in d.net
  {
    hide LocalDigest;
  }

  /** The three handlers. */
  lemma DigestStep(x: Node, y: Node)
    requires Ready(x) && y == NewNode(CONFIG, "b")
    requires MissingRanges(LocalDigest(y).sequences, LocalDigest(x).sequences) == [ASKED] && !NoGap(x, y)
    ensures Handle(y, Envelope("a", 2, DigestMsg(LocalDigest(x))), Done, 0)
            == Effect(y.(outSeq := 1), {Envelope("b", 1, RangeReqMsg([ASKED], LocalDigest(y)))}, None)
  {
    assert y.outSeq == 0 && y.replica.nodeId == "b";
    DigestValid(x);
    hide LocalDigest, NoGap, MissingRanges, NewNode, Ready;
  }

  lemma RequestStep(x: Node, known: StateDigest)
    requires x.replica.nodeId == "a" && x.outSeq == 1 && x.history == AfterRecord(NewHistory(1), FIRST)
    ensures Handle(x.(outSeq := 2), Envelope("b", 1, RangeReqMsg([ASKED], known)), Done, 0)
            == Effect(x.(outSeq := 3), {Envelope("a", 3, RangeRespMsg([FIRST]))}, None)
  {
    FirstStored();
    assert ValidNodeId("a") && WellFormed(FIRST);
    hide AfterRecord, WellFormed;
    Effects.ServesOne(x.history, FIRST);
    hide CollectRanges, ValidRanges, ValidRecovered;
  }

  lemma FirstStored()
    ensures var h := AfterRecord(NewHistory(1), FIRST); 1 in At(h, "a") && At(h, "a")[1] == FIRST
  {
    var n := NewHistory(1);
    assert ValidNodeId("a");
    var m := map[1 as U64 := FIRST];
    assert At(n, "a")[1 := FIRST] == m && |m| == 1;
  }

  lemma Received(y: Node)
    requires y == NewNode(CONFIG, "b").(outSeq := 1)
    ensures Subsumes(Handle(y, Envelope("a", 3, RangeRespMsg([FIRST])), Done, 0).node.replica, FIRST)
  {
    assert ValidNodeId("a") && WellFormed(FIRST);
    assert ReplicaValid(y.replica);
    hide ReplicaValid, Handle, NewNode, Subsumes;
    Effects.RecoveredAnnounced(y, Envelope("a", 3, RangeRespMsg([FIRST])), [FIRST], Done, 0);
    assert FIRST in [FIRST];
  }
}
