/** Repair as continuations of runs: what two nodes exchange in rounds is what the cluster can do from any state. */
module Continuation {
  import opened Base
  import opened Protocol
  import opened History
  import opened Pipeline
  import opened Recovery
  import opened Runtime
  import opened Cluster
  import opened Rounds
  import opened RangeRepair
  import opened SnapshotRepair
  import opened Convergence
  import OverAdvance

  lemma OnlyIn(sent: set<Envelope>)
    requires Only(sent).Some?
    ensures Only(sent).value in sent
  {
  }

  /** One delivery, as the last action of a run. */
  lemma DeliveredNext(c: State, id: NodeId, e: Envelope)
    requires id in c.nodes && e in c.net
    ensures var failAt := if e.body.RangeRespMsg? then |e.body.deltas| else 0;
            var f := Rounds.Deliver(c.nodes[id], e);
            var d := Next(c, Action.Deliver(id, e, Done, failAt));
            d.nodes == c.nodes[id := f.node] && d.net == c.net + f.sent
  {
    hide Handle;
  }

  lemma GossipedNext(c: State, id: NodeId)
    requires id in c.nodes
    ensures var b := BroadcastDigest(c.nodes[id]);
            var d := Next(c, Gossip(id));
            d.nodes == c.nodes[id := b.node] && d.net == c.net + b.sent
  {
    hide BroadcastDigest;
  }

  function DeliverAction(id: NodeId, e: Envelope): Action {
    Action.Deliver(id, e, Done, if e.body.RangeRespMsg? then |e.body.deltas| else 0)
  }

  lemma DeliveredLast(c: State, xs: seq<Action>, id: NodeId, e: Envelope)
    requires id in Run(c, xs).nodes && e in Run(c, xs).net
    ensures var d := Run(c, xs);
            var f := Rounds.Deliver(d.nodes[id], e);
            var d' := Run(c, xs + [DeliverAction(id, e)]);
            d'.nodes == d.nodes[id := f.node] && d'.net == d.net + f.sent
  {
    hide Next, Handle, Run;
    OverAdvance.RunOne(c, xs, DeliverAction(id, e));
    DeliveredNext(Run(c, xs), id, e);
  }

  /** The request and, if there is one, the answer. */
  lemma AnswerIsRun(c: State, xs: seq<Action>, a: NodeId, b: NodeId, request: Envelope) returns (more: seq<Action>)
    requires a in Run(c, xs).nodes && b in Run(c, xs).nodes && a != b && request in Run(c, xs).net
    ensures var d := Run(c, xs);
            var g := Rounds.Deliver(d.nodes[a], request);
            Run(c, more).nodes ==
              d.nodes[a := g.node]
                     [b := if Only(g.sent).None? then d.nodes[b] else Rounds.Deliver(d.nodes[b], Only(g.sent).value).node]
  {
    hide Run, Rounds.Deliver, Only;
    var d := Run(c, xs);
    var g := Rounds.Deliver(d.nodes[a], request);
    DeliveredLast(c, xs, a, request);
    more := xs + [DeliverAction(a, request)];
    if Only(g.sent).Some? {
      var answer := Only(g.sent).value;
      OnlyIn(g.sent);
      DeliveredLast(c, more, b, answer);
      more := more + [DeliverAction(b, answer)];
    }
  }

  /** A round is a broadcast and at most three deliveries. */
  lemma RoundIsRun(c: State, a: NodeId, b: NodeId) returns (more: seq<Action>)
    requires a in c.nodes && b in c.nodes && a != b
    ensures var r := DigestRound(c.nodes[a], c.nodes[b]);
            Run(c, more).nodes == c.nodes[a := r.0][b := r.1]
  {
    hide Next, Rounds.Deliver, BroadcastDigest, Only;
    var x, y := c.nodes[a], c.nodes[b];
    var g := BroadcastDigest(x);
    GossipedNext(c, a);
    OverAdvance.RunOne(c, [], Gossip(a));
    hide Run;
    more := [] + [Gossip(a)];
    assert Run(c, more).nodes == c.nodes[a := g.node] by { NoActions(c); }
    assert Run(c, more).net == c.net + g.sent by { NoActions(c); }
    if Only(g.sent).Some? {
      var digest := Only(g.sent).value;
      OnlyIn(g.sent);
      var f := Rounds.Deliver(y, digest);
      DeliveredLast(c, more, b, digest);
      more := more + [DeliverAction(b, digest)];
      if Only(f.sent).Some? {
        var request := Only(f.sent).value;
        OnlyIn(f.sent);
        more := AnswerIsRun(c, more, a, b, request);
      }
    }
  }

  lemma NoActions(c: State)
    ensures Run(c, []) == c
  {
  }

  /** The pair after `n` rounds, first node first. */
  ghost function Ends(x: Node, y: Node, n: nat): (Node, Node) {
    var e := Exchange(x, y, n);
    if n % 2 == 0 then e else (e.1, e.0)
  }

  lemma {:induction false} ExchangeIsRun(c: State, a: NodeId, b: NodeId, n: nat) returns (more: seq<Action>)
    requires a in c.nodes && b in c.nodes && a != b
    ensures var e := Ends(c.nodes[a], c.nodes[b], n);
            Run(c, more).nodes == c.nodes[a := e.0][b := e.1]
    decreases n
  {
    hide DigestRound, Next;
    if n == 0 {
      more := [];
    } else {
      var x, y := c.nodes[a], c.nodes[b];
      var r := DigestRound(x, y);
      var first := RoundIsRun(c, a, b);
      var d := Run(c, first);
      var rest := ExchangeIsRun(d, b, a, n - 1);
      more := first + rest;
      OverAdvance.RunAppend(c, first, rest);
      var e := Ends(x, y, n);
      var e' := Ends(r.1, r.0, n - 1);
      assert e'.0 == e.1 && e'.1 == e.0;
      assert Run(c, more).nodes == c.nodes[a := r.0][b := r.1][b := e'.0][a := e'.1];
    }
  }

  /** Eventual consistency of two nodes: every run in which neither history is jammed can be continued, by broadcasts and
      deliveries between the two alone, to equal watermarks, and from there to equal contents unless a version is
      exhausted by then. */
  lemma RunsConverge(cfg: Config, ids: set<NodeId>, actions: seq<Action>, a: NodeId, b: NodeId)
    returns (more: seq<Action>, last: seq<Action>)
    requires ConfigOk(cfg) && ValidIds(ids) && a in ids && b in ids && a != b
    ensures var c := Run(Start(cfg, ids), actions);
            && a in c.nodes && b in c.nodes
            && ((forall o :: (o != a ==> Room(c.nodes[a].history, o)) && (o != b ==> Room(c.nodes[b].history, o))) ==>
                  var d := Run(Start(cfg, ids), actions + more);
                  var e := Run(Start(cfg, ids), actions + more + last);
                  && a in d.nodes && b in d.nodes && a in e.nodes && b in e.nodes
                  && Aligned(d.nodes[a], d.nodes[b])
                  && (VersionsLeft(d.nodes[a], d.nodes[b]) ==> Agree(e.nodes[a], e.nodes[b])))
  {
    more, last := [], [];
    var c0 := Start(cfg, ids);
    hide Run, Next, Start, Exchange, Ready, StoredWellFormed, Room, DigestRound, Aligned, Agree, Ends;
    var c := Run(c0, actions);
    QuiescentNodesConverge(cfg, ids, actions, a, b);
    var x, y := c.nodes[a], c.nodes[b];
    if forall o :: (o != a ==> Room(x.history, o)) && (o != b ==> Room(y.history, o)) {
      var n :| ConvergesAfter(x, y, n);
      more := ExchangeIsRun(c, a, b, n);
      OverAdvance.RunAppend(c0, actions, more);
      var d := Run(c, more);
      var u, v := d.nodes[a], d.nodes[b];
      if n % 2 == 0 {
        last := ExchangeIsRun(d, a, b, 3);
      } else {
        last := ExchangeIsRun(d, b, a, 3);
      }
      OverAdvance.RunAppend(c0, actions + more, last);
      EndsConverge(x, y, n);
    }
  }

  /** What the exchange says about its two ends, whichever of them spoke last. */
  lemma EndsConverge(x: Node, y: Node, n: nat)
    requires ConvergesAfter(x, y, n)
    ensures var d := Ends(x, y, n);
            var e := if n % 2 == 0 then Ends(d.0, d.1, 3) else (Ends(d.1, d.0, 3).1, Ends(d.1, d.0, 3).0);
            Aligned(d.0, d.1) && (VersionsLeft(d.0, d.1) ==> Agree(e.0, e.1))
  {
    hide Exchange, Advertised;
    ExchangeAdds(x, y, n, 3);
    var r := Exchange(x, y, n);
    var s := Exchange(x, y, n + 3);
    SameSumSymmetric(s.0.replica.sum.contrib, s.1.replica.sum.contrib);
  }
}
