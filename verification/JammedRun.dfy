/** A run that jams a history: one delta lost on the way to a node that can hold only one. */
module JammedRun {
  import opened Base
  import opened TopK
  import opened Sum
  import opened Protocol
  import opened History
  import opened Pipeline
  import opened Recovery
  import opened Runtime
  import opened Cluster
  import opened Rounds
  import OverAdvance
  import RangeRepair

  const CONFIG := Config(1, 1, 2)

  /** The two increments of `a`. */
  const FIRST := StateDelta(SUM, 1, "a", 1, SumBody("a", 1))
  const SECOND := StateDelta(SUM, 2, "a", 2, SumBody("a", 2))

  /** `a` counts twice and sends both deltas; `b` receives the first one, `c` the second. */
  function Script(): seq<Action> {
    [Update("a", SumUpdate(1), Done), Update("a", SumUpdate(1), Done), Dequeue("a"), Dequeue("a"),
     Deliver("b", Envelope("a", 1, DeltaMsg(FIRST)), Done, 0), Deliver("c", Envelope("a", 2, DeltaMsg(SECOND)), Done, 0)]
  }

  lemma UpdateTwice(n: Node)
    requires n == NewNode(CONFIG, "a")
    ensures var n1 := LocalStep(n, SumUpdate(1), Done, 2);
            var n2 := LocalStep(n1, SumUpdate(1), Done, 2);
            n1.replica.deltaSeq == 1 && n2.queue == [FIRST, SECOND] && n2.outSeq == 0 && n2.replica.nodeId == "a"
  {
    hide Recover;
  }

  lemma AfterUpdates(c0: State, c2: State)
    requires c0 == Start(CONFIG, {"a", "b", "c"})
    requires c2 == Next(Next(c0, Update("a", SumUpdate(1), Done)), Update("a", SumUpdate(1), Done))
    ensures "a" in c2.nodes && "b" in c2.nodes && "c" in c2.nodes
    ensures c2.nodes["b"] == NewNode(CONFIG, "b") && c2.nodes["c"] == NewNode(CONFIG, "c")
    ensures var n := c2.nodes["a"]; n.queue == [FIRST, SECOND] && n.outSeq == 0 && n.replica.nodeId == "a"
  {
    hide LocalStep, NewNode, IssueLocal;
    UpdateTwice(NewNode(CONFIG, "a"));
    assert c0.nodes["a"] == NewNode(CONFIG, "a") && c0.cfg == CONFIG;
    NewNodeStarts("a");
  }

  lemma AfterDequeues(c2: State, c4: State)
    requires "a" in c2.nodes && c4 == Next(Next(c2, Dequeue("a")), Dequeue("a"))
    requires var n := c2.nodes["a"]; n.queue == [FIRST, SECOND] && n.outSeq == 0 && n.replica.nodeId == "a"
    ensures Envelope("a", 1, DeltaMsg(FIRST)) in c4.net && Envelope("a", 2, DeltaMsg(SECOND)) in c4.net
    ensures c4.nodes.Keys == c2.nodes.Keys && forall o :: o in c2.nodes && o != "a" ==> c4.nodes[o] == c2.nodes[o]
  {
    hide AfterRecord, LocalStep, Handle;
    var c3 := Next(c2, Dequeue("a"));
    assert [FIRST, SECOND][1..] == [SECOND];
    assert c3.nodes["a"].queue == [SECOND] && c3.nodes["a"].outSeq == 1;
  }

  lemma NewNodeStarts(id: NodeId)
    ensures NewNode(CONFIG, id).replica.deltaSeq == 0 && NewNode(CONFIG, id).guard == map[]
  {
  }

  /** What a flooded delta of `a` leaves of a new node. */
  lemma Heard(id: NodeId, s: U64, d: StateDelta)
    requires id != "a" && (d == FIRST || d == SECOND)
    ensures var m := Handle(NewNode(CONFIG, id), Envelope("a", s, DeltaMsg(d)), Done, 0).node;
            m.history == AfterRecord(NewHistory(1), d) && m.replica.deltaSeq == 0 && m.replica.nodeId == id
  {
    hide AfterRecord, MergeSum, SumAdvances;
    assert ValidNodeId("a");
  }

  /** The first delta moves the watermark of a history of one; the second one alone jams it. */
  lemma HistoriesOfOne()
    ensures var g := AfterRecord(NewHistory(1), FIRST);
            && Watermark(g, "a") == 1 && 1 in At(g, "a") && forall o :: o != "a" ==> Watermark(g, o) == 0
    ensures var h := AfterRecord(NewHistory(1), SECOND);
            && Watermark(h, "a") == 0 && !RangeRepair.Room(h, "a")
  {
    var n := NewHistory(1);
    assert ValidNodeId("a");
    var m1, m2 := map[1 as U64 := FIRST], map[2 as U64 := SECOND];
    assert At(n, "a")[1 := FIRST] == m1 && At(n, "a")[2 := SECOND] == m2 && |m1| == 1 && |m2| == 1;
    assert Extend(m1, 0) == 1 by { assert Extend(m1, 1) == 1; }
    assert Extend(m2, 0) == 0;
    var h := AfterRecord(n, SECOND);
    assert At(h, "a") == m2;
    assert Above(h, "a") == {2};
  }

  /** The run reaches a pair of nodes with a gap that the peer can serve and that no number of rounds closes. */
  lemma JammedReachable()
    ensures var c := Run(Start(CONFIG, {"a", "b", "c"}), Script());
            && "b" in c.nodes && "c" in c.nodes
            && RangeRepair.Servable(c.nodes["b"], c.nodes["c"]) && RangeRepair.Gap(c.nodes["b"], c.nodes["c"], "a") == 1
            && !RangeRepair.Room(c.nodes["c"].history, "a")
            && forall n :: !RangeRepair.Repaired(c.nodes["b"], c.nodes["c"], n)
  {
    var ids := {"a", "b", "c"};
    var c0 := Start(CONFIG, ids);
    var s := Script();
    assert ValidIds(ids);
    RangeRepair.ReachableReady(CONFIG, ids, s, "b");
    RangeRepair.ReachableReady(CONFIG, ids, s, "c");
    var c := Run(c0, s);
    ScriptEnds(c);
    Pair(c.nodes["b"], c.nodes["c"]);
    hide Run, Start, Script, RangeRepair.Servable, RangeRepair.Room, RangeRepair.Gap;
    RangeRepair.RepairedExactlyWithRoom(c.nodes["b"], c.nodes["c"]);
  }

  lemma ScriptEnds(c: State)
    requires c == Run(Start(CONFIG, {"a", "b", "c"}), Script())
    ensures "b" in c.nodes && "c" in c.nodes
    ensures c.nodes["b"].history == AfterRecord(NewHistory(1), FIRST)
    ensures c.nodes["c"].history == AfterRecord(NewHistory(1), SECOND)
    ensures c.nodes["b"].replica.deltaSeq == 0 && c.nodes["c"].replica.deltaSeq == 0
    ensures c.nodes["b"].replica.nodeId == "b" && c.nodes["c"].replica.nodeId == "c"
  {
    var c0 := Start(CONFIG, {"a", "b", "c"});
    var s := Script();
    hide Next, Handle, NewNode, AfterRecord, Start;
    OverAdvance.RunFour(c0, s[0], s[1], s[2], s[3]);
    var c4 := Run(c0, s[..4]);
    assert s[..4] == [s[0], s[1], s[2], s[3]];
    AfterUpdates(c0, Next(Next(c0, s[0]), s[1]));
    AfterDequeues(Next(Next(c0, s[0]), s[1]), c4);
    OverAdvance.RunOne(c0, s[..4], s[4]);
    OverAdvance.RunOne(c0, s[..5], s[5]);
    assert s[..4] + [s[4]] == s[..5] && s[..5] + [s[5]] == s;
    OverAdvance.Delivered(c4, "b", Envelope("a", 1, DeltaMsg(FIRST)));
    var c5 := Next(c4, s[4]);
    OverAdvance.Delivered(c5, "c", Envelope("a", 2, DeltaMsg(SECOND)));
    Heard("b", 1, FIRST);
    Heard("c", 2, SECOND);
  }

  lemma Pair(x: Node, y: Node)
    requires Ready(x) && Ready(y) && RangeRepair.StoredWellFormed(x.history)
    requires x.history == AfterRecord(NewHistory(1), FIRST) && y.history == AfterRecord(NewHistory(1), SECOND)
    requires x.replica.deltaSeq == 0 && y.replica.deltaSeq == 0 && y.replica.nodeId == "c" && x.replica.nodeId == "b"
    ensures RangeRepair.Servable(x, y) && RangeRepair.Gap(x, y, "a") == 1 && !RangeRepair.Room(y.history, "a")
  {
    HistoriesOfOne();
    hide AfterRecord, LocalDigest, Ready, RangeRepair.Room;
    AdvertisedIs(x, "a");
    AdvertisedIs(y, "a");
    forall o, s: U64 | Advertised(y, o) < s <= Advertised(x, o) ensures s in At(x.history, o) {
      AdvertisedIs(x, o);
    }
  }
}
