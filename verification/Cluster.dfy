/** A cluster of nodes over a network that drops, duplicates, reorders and misdelivers, with crashes. */
module Cluster {
  import opened Base
  import opened TopK
  import opened Sum
  import opened Protocol
  import opened History
  import opened Pipeline
  import opened Recovery
  import opened Runtime
  import opened Knowledge
  import opened Handlers

  /** `net` holds every envelope ever sent: any of them may reach any node, any number of times, or never.
      `issued`, `accepted` and `forwards` are history variables: published deltas and accepted SUM increments
      per node, and the deltas that nodes have flooded on. */
  datatype State = State(cfg: Config, nodes: map<NodeId, Node>, net: set<Envelope>, issued: Issues,
                         accepted: map<NodeId, seq<int>>, forwards: seq<(NodeId, StateDelta)>)

  datatype Action =
    | Update(id: NodeId, update: LocalUpdate, io: Append)
    | Dequeue(id: NodeId)
    | Gossip(id: NodeId)
    | Deliver(id: NodeId, envelope: Envelope, io: Append, failAt: nat)
    | TakeCheckpoint(id: NodeId)
    | Restart(id: NodeId)

  /** Journals sync always and append atomically; sequence numbers have not run out. */
  predicate Enabled(c: State, a: Action) {
    && a.id in c.nodes
    && match a
       case Update(id, u, io) => !io.WrittenNotSynced? && c.nodes[id].replica.deltaSeq < MAX_U64
       case Dequeue(id) => c.nodes[id].queue != []
       case Deliver(id, e, io, failAt) => e in c.net && !io.WrittenNotSynced?
       case _ => true
  }

  function AcceptedBy(c: State, id: NodeId): seq<int> {
    if id in c.accepted then c.accepted[id] else []
  }

  function AfterEffect(c: State, id: NodeId, f: Effect): State {
    c.(nodes := c.nodes[id := f.node], net := c.net + f.sent,
       forwards := if f.forwarded.Some? then c.forwards + [(id, f.forwarded.value)] else c.forwards)
  }

  function AfterUpdate(c: State, id: NodeId, u: LocalUpdate, io: Append): State
    requires id in c.nodes
  {
    var a := IssueLocal(c.nodes[id].replica, u);
    var c1 := c.(nodes := c.nodes[id := LocalStep(c.nodes[id], u, io, c.cfg.queueSize)]);
    if a.Issued? && io.Done? then
      c1.(issued := Publish(c.issued, id, a.delta),
          accepted := c.accepted[id := AcceptedBy(c, id) + (if u.SumUpdate? then [u.increment] else [])])
    else c1
  }

  /** One step; an action that is not enabled does nothing. */
  ghost function Next(c: State, a: Action): State {
    if !Enabled(c, a) then c
    else
      var n := c.nodes[a.id];
      match a
      case Update(id, u, io) => AfterUpdate(c, id, u, io)
      case Dequeue(id) => AfterEffect(c, id, DequeueStep(n))
      case Gossip(id) => AfterEffect(c, id, BroadcastDigest(n))
      case Deliver(id, e, io, failAt) => AfterEffect(c, id, Handle(n, e, io, failAt))
      case TakeCheckpoint(id) => c.(nodes := c.nodes[id := CheckpointStep(n)])
      case Restart(id) => c.(nodes := c.nodes[id := RestartStep(n, c.cfg.historyCapacity)])
  }

  ghost function Run(c: State, actions: seq<Action>): State {
    if actions == [] then c else Next(Run(c, actions[..|actions| - 1]), actions[|actions| - 1])
  }

  ghost function Start(cfg: Config, ids: set<NodeId>): State {
    State(cfg, map id | id in ids :: NewNode(cfg, id), {}, map[], map[], [])
  }

  predicate ConfigOk(cfg: Config) {
    cfg.kmax > 0 && cfg.historyCapacity > 0
  }

  ghost predicate ValidIds(ids: set<NodeId>) {
    forall id :: id in ids ==> ValidNodeId(id)
  }

  /** Every snapshot that the action applies carries all of `K`. */
  predicate Carrying(a: Action, K: set<Kind>) {
    a.Deliver? && a.envelope.body.SnapRespMsg? ==> K <= Carries(a.envelope.body.resp)
  }

  // ---------------------------------------------------------------- SUM totals

  function SumSeq(s: seq<int>): int {
    if s == [] then 0 else SumSeq(s[..|s| - 1]) + s[|s| - 1]
  }

  ghost predicate PrefixTotal(v: int, s: seq<int>) {
    exists j :: 0 <= j <= |s| && v == SumSeq(s[..j])
  }

  /** The SUM deltas of a node carry running totals of its accepted increments, up to the full total. */
  ghost predicate TotalsOk(ds: seq<StateDelta>, s: seq<int>) {
    && (forall i :: 0 <= i < |ds| && ds[i].kind == SUM && ds[i].body.SumBody? ==>
          PrefixTotal(ds[i].body.value, s) && ds[i].body.value <= SumSeq(s))
    && (SumSeq(s) > 0 ==>
          exists i :: 0 <= i < |ds| && ds[i].kind == SUM && ds[i].body.SumBody? && ds[i].body.value == SumSeq(s))
    && SumSeq(s) >= 0
  }

  lemma PrefixTotalGrows(v: int, s: seq<int>, x: int)
    requires PrefixTotal(v, s)
    ensures PrefixTotal(v, s + [x])
  {
    var j :| 0 <= j <= |s| && v == SumSeq(s[..j]);
    assert (s + [x])[..j] == s[..j];
  }

  lemma OwnEntry(I: Issues, kmax: nat, K: set<Kind>, id: NodeId, n: Node, s: seq<int>)
    requires IssuesOk(I) && NodeInv(I, kmax, K, id, n) && TotalsOk(IssuedBy(I, id), s)
    ensures Get(n.replica.sum.contrib, id) == SumSeq(s)
  {
    var v := Get(n.replica.sum.contrib, id);
    if v > 0 {
      var d :| d in n.observed && SumEntry(d, id, v);
      assert IsIssued(I, d) && IssuedBy(I, id)[d.sequence - 1] == d;
    }
    if SumSeq(s) > 0 {
      var i :| 0 <= i < |IssuedBy(I, id)| && IssuedBy(I, id)[i].kind == SUM && IssuedBy(I, id)[i].body.SumBody?
               && IssuedBy(I, id)[i].body.value == SumSeq(s);
      assert IssuedBy(I, id)[i] in n.observed;
    }
  }

  lemma EntryIsPrefix(I: Issues, n: Node, id: NodeId, s: seq<int>)
    requires AllIssued(I, n.observed) && Represents(n.replica, n.observed) && TotalsOk(IssuedBy(I, id), s)
    ensures PrefixTotal(Get(n.replica.sum.contrib, id), s)
  {
    var v := Get(n.replica.sum.contrib, id);
    if v > 0 {
      var d :| d in n.observed && SumEntry(d, id, v);
      assert IsIssued(I, d) && IssuedBy(I, id)[d.sequence - 1] == d;
    } else {
      assert s[..0] == [] && SumSeq(s[..0]) == 0;
    }
  }

  lemma TotalsGrow(ds: seq<StateDelta>, s: seq<int>, d: StateDelta, x: int)
    requires TotalsOk(ds, s) && x > 0
    requires d.kind == SUM && d.body.SumBody? && d.body.value == SumSeq(s) + x
    ensures TotalsOk(ds + [d], s + [x])
  {
    var t := s + [x];
    assert t[..|t| - 1] == s && t[..|t|] == t;
    assert SumSeq(t) == SumSeq(s) + x;
    forall i | 0 <= i < |ds + [d]| && (ds + [d])[i].kind == SUM && (ds + [d])[i].body.SumBody?
      ensures PrefixTotal((ds + [d])[i].body.value, t) && (ds + [d])[i].body.value <= SumSeq(t)
    {
      if i < |ds| { PrefixTotalGrows(ds[i].body.value, s, x); }
    }
    assert (ds + [d])[|ds|] == d;
  }

  lemma TotalsSame(ds: seq<StateDelta>, s: seq<int>, d: StateDelta)
    requires TotalsOk(ds, s) && d.kind != SUM
    ensures TotalsOk(ds + [d], s)
  {
    if SumSeq(s) > 0 {
      var i :| 0 <= i < |ds| && ds[i].kind == SUM && ds[i].body.SumBody? && ds[i].body.value == SumSeq(s);
      assert (ds + [d])[i] == ds[i];
    }
  }

  // ---------------------------------------------------------------- the invariant

  ghost predicate ForwardsOk(c: State) {
    && (forall i :: 0 <= i < |c.forwards| ==>
          c.forwards[i].0 in c.nodes && c.forwards[i].1 in c.nodes[c.forwards[i].0].observed)
    && (forall i, j :: 0 <= i < j < |c.forwards| ==> c.forwards[i] != c.forwards[j])
  }

  ghost predicate NodesOk(c: State, K: set<Kind>) {
    forall id :: id in c.nodes ==> NodeInv(c.issued, c.cfg.kmax, K, id, c.nodes[id])
  }

  ghost predicate NetOk(c: State, K: set<Kind>) {
    forall e :: e in c.net ==> MsgInv(c.issued, c.cfg.kmax, K, e)
  }

  ghost predicate Inv(c: State, K: set<Kind>) {
    && ConfigOk(c.cfg)
    && IssuesOk(c.issued)
    && (forall id :: id in c.issued ==> id in c.nodes)
    && (forall id :: id in c.nodes ==> TotalsOk(IssuedBy(c.issued, id), AcceptedBy(c, id)))
    && NodesOk(c, K) && NetOk(c, K)
    && ForwardsOk(c)
  }

  lemma StartInv(cfg: Config, ids: set<NodeId>, K: set<Kind>)
    requires ConfigOk(cfg) && ValidIds(ids)
    ensures Inv(Start(cfg, ids), K)
  {
    forall id | id in ids ensures NodeInv(map[], cfg.kmax, K, id, NewNode(cfg, id)) {
      var n := NewNode(cfg, id);
      assert RepSum(n.replica.sum.contrib, {});
      assert Candidates({}) == {};
    }
  }

  lemma EffectInv(c: State, id: NodeId, f: Effect, K: set<Kind>)
    requires Inv(c, K) && id in c.nodes
    requires EffectOk(c.issued, c.cfg.kmax, K, id, c.nodes[id], f)
    ensures Inv(AfterEffect(c, id, f), K)
  {
    hide NodeInv, MsgInv, IssuesOk, TotalsOk, ContentsLeq;
    var c' := AfterEffect(c, id, f);
    if f.forwarded.Some? {
      var p := (id, f.forwarded.value);
      forall i | 0 <= i < |c.forwards| ensures c.forwards[i] != p {
        assert c.forwards[i].1 in c.nodes[c.forwards[i].0].observed;
      }
    }
  }

  lemma ReplaceInv(c: State, id: NodeId, n: Node, K: set<Kind>)
    requires Inv(c, K) && id in c.nodes
    requires NodeInv(c.issued, c.cfg.kmax, K, id, n) && c.nodes[id].observed <= n.observed
    ensures Inv(c.(nodes := c.nodes[id := n]), K)
  {
    hide NodeInv, MsgInv, IssuesOk, TotalsOk;
    assert ForwardsOk(c.(nodes := c.nodes[id := n]));
  }

  /** Publishing a delta keeps what everyone else knows. */
  lemma PublishInv(c: State, id: NodeId, d: StateDelta, n: Node, s: seq<int>, K: set<Kind>)
    requires Inv(c, K) && id in c.nodes && WellFormed(d) && d.origin == id && d.sequence == |IssuedBy(c.issued, id)| + 1
    requires NodeInv(Publish(c.issued, id, d), c.cfg.kmax, K, id, n) && c.nodes[id].observed <= n.observed
    requires TotalsOk(IssuedBy(c.issued, id) + [d], s)
    ensures Inv(c.(nodes := c.nodes[id := n], issued := Publish(c.issued, id, d), accepted := c.accepted[id := s]), K)
  {
    hide NodeInv, MsgInv, TotalsOk, WellFormed, IssuesOk, Extends, IsIssued, Carries;
    var J := Publish(c.issued, id, d);
    PublishExtends(c.issued, id, d);
    forall o | o in c.nodes && o != id ensures NodeInv(J, c.cfg.kmax, K, o, c.nodes[o]) {
      NodeInvGrows(c.issued, J, c.cfg.kmax, K, o, c.nodes[o]);
    }
    forall e | e in c.net ensures MsgInv(J, c.cfg.kmax, K, e) {
      MsgInvGrows(c.issued, J, c.cfg.kmax, K, e);
    }
  }

  lemma IssuedShape(r: Replica, u: LocalUpdate)
    requires IssueLocal(r, u).Issued?
    ensures var d := IssueLocal(r, u).delta;
            && (u.SumUpdate? <==> d.kind == SUM)
            && (u.SumUpdate? ==> u.increment > 0 && d.body.SumBody?
                                 && d.body.value == Get(r.sum.contrib, r.nodeId) + u.increment)
  {
  }

  /** The parts of the node invariant that results read. */
  lemma NodeFacts(I: Issues, kmax: nat, K: set<Kind>, id: NodeId, n: Node)
    requires NodeInv(I, kmax, K, id, n)
    ensures n.replica.nodeId == id && n.replica.kmax == kmax && Exact(LiveOf(n))
    ensures AllIssued(I, n.observed) && Represents(n.replica, n.observed) && OwnOk(I, id, n)
  {
  }

  lemma UpdateInv(c: State, id: NodeId, u: LocalUpdate, io: Append, K: set<Kind>)
    requires Inv(c, K) && Enabled(c, Update(id, u, io))
    ensures Inv(AfterUpdate(c, id, u, io), K)
  {
    hide NodeInv, MsgInv, TotalsOk, IssuesOk, IssueLocal;
    var n := c.nodes[id];
    var a := IssueLocal(n.replica, u);
    var n' := LocalStep(n, u, io, c.cfg.queueSize);
    NodeFacts(c.issued, c.cfg.kmax, K, id, n);
    LocalInv(c.issued, c.cfg.kmax, K, id, n, u, io, c.cfg.queueSize);
    if a.Issued? && io.Done? {
      var ds, s := IssuedBy(c.issued, id), AcceptedBy(c, id);
      if u.SumUpdate? {
        OwnEntry(c.issued, c.cfg.kmax, K, id, n, s);
        IssuedShape(n.replica, u);
        TotalsGrow(ds, s, a.delta, u.increment);
        PublishInv(c, id, a.delta, n', s + [u.increment], K);
      } else {
        IssuedShape(n.replica, u);
        TotalsSame(ds, s, a.delta);
        assert s + [] == s;
        PublishInv(c, id, a.delta, n', s, K);
      }
    } else {
      ReplaceInv(c, id, n', K);
    }
  }

  lemma StepInv(c: State, a: Action, K: set<Kind>)
    requires Inv(c, K) && Carrying(a, K)
    ensures Inv(Next(c, a), K)
  {
    hide NodeInv, MsgInv, TotalsOk, IssuesOk;
    if Enabled(c, a) {
      var n := c.nodes[a.id];
      match a
      case Update(id, u, io) => UpdateInv(c, id, u, io, K);
      case Dequeue(id) =>
        DequeueInv(c.issued, c.cfg.kmax, K, id, n);
        EffectInv(c, id, DequeueStep(n), K);
      case Gossip(id) =>
        ReflexiveLeq(n.replica);
        SendInv(c.issued, c.cfg.kmax, K, id, n, n, DigestMsg(LocalDigest(n)));
        EffectInv(c, id, BroadcastDigest(n), K);
      case Deliver(id, e, io, failAt) =>
        HandleInv(c.issued, c.cfg.kmax, K, id, n, e, io, failAt);
        EffectInv(c, id, Handle(n, e, io, failAt), K);
      case TakeCheckpoint(id) =>
        CheckpointInv(c.issued, c.cfg.kmax, K, id, n);
        ReplaceInv(c, id, CheckpointStep(n), K);
      case Restart(id) =>
        RestartInv(c.issued, c.cfg.kmax, K, id, n, c.cfg.historyCapacity);
        ReplaceInv(c, id, RestartStep(n, c.cfg.historyCapacity), K);
    }
  }

  ghost predicate RunCarries(actions: seq<Action>, K: set<Kind>) {
    forall a :: a in actions ==> Carrying(a, K)
  }

  lemma NextKeeps(c: State, a: Action)
    ensures Next(c, a).cfg == c.cfg && Next(c, a).nodes.Keys == c.nodes.Keys
  {
  }

  lemma {:induction false} RunInv(cfg: Config, ids: set<NodeId>, actions: seq<Action>, K: set<Kind>)
    requires ConfigOk(cfg) && ValidIds(ids) && RunCarries(actions, K)
    ensures Inv(Run(Start(cfg, ids), actions), K)
    ensures Run(Start(cfg, ids), actions).cfg == cfg
    ensures Run(Start(cfg, ids), actions).nodes.Keys == ids
  {
    hide Inv, Next, Carrying;
    if actions == [] {
      StartInv(cfg, ids, K);
    } else {
      var init, last := actions[..|actions| - 1], actions[|actions| - 1];
      RunInv(cfg, ids, init, K);
      StepInv(Run(Start(cfg, ids), init), last, K);
      NextKeeps(Run(Start(cfg, ids), init), last);
    }
  }

  // ---------------------------------------------------------------- results over every run

  /** Delta number `s` of origin `o` exists and, if of kind `k`, node `id` accounts for it. */
  ghost predicate AccountedFor(c: State, id: NodeId, o: NodeId, s: U64, k: Kind)
    requires id in c.nodes && s >= 1
  {
    && s <= |IssuedBy(c.issued, o)| && WellFormed(IssuedBy(c.issued, o)[s - 1])
    && (IssuedBy(c.issued, o)[s - 1].kind == k ==> Subsumes(c.nodes[id].replica, IssuedBy(c.issued, o)[s - 1]))
  }

  /** Watermark soundness for one kind: what is advertised is accounted for. */
  ghost predicate WatermarkSound(c: State, k: Kind) {
    forall id, o, s: U64 | id in c.nodes && 1 <= s <= Advertised(c.nodes[id], o) :: AccountedFor(c, id, o, s, k)
  }

  /** In every run whose applied snapshots carried aggregate `k`, a node that advertises watermark w for an
      origin accounts for all of the origin's deltas of kind `k` up to w, evicted candidates included. */
  lemma WatermarkSoundness(cfg: Config, ids: set<NodeId>, actions: seq<Action>, k: Kind)
    requires ConfigOk(cfg) && ValidIds(ids) && RunCarries(actions, {k})
    ensures WatermarkSound(Run(Start(cfg, ids), actions), k)
  {
    var c := Run(Start(cfg, ids), actions);
    RunInv(cfg, ids, actions, {k});
    forall id, o, s: U64 | id in c.nodes && 1 <= s <= Advertised(c.nodes[id], o)
      ensures AccountedFor(c, id, o, s, k)
    {
      var n := c.nodes[id];
      AdvertisedCovered(c.issued, cfg.kmax, {k}, id, n, o);
      assert Reached(c.issued, o, s, n.observed, {k});
      var d := IssuedBy(c.issued, o)[s - 1];
      if d.kind == k { RepresentsSubsumes(n.replica, n.observed, d); }
    }
  }

  /** In every run at all, contents are a function of the observed set: SUM is its pointwise maximum and TOPK
      its best kmax, so nodes that observed the same deltas hold the same contents and estimates. */
  lemma StrongConvergence(cfg: Config, ids: set<NodeId>, actions: seq<Action>, a: NodeId, b: NodeId)
    requires ConfigOk(cfg) && ValidIds(ids) && a in ids && b in ids
    ensures var c := Run(Start(cfg, ids), actions);
            && a in c.nodes && b in c.nodes
            && Represents(c.nodes[a].replica, c.nodes[a].observed)
            && AllIssued(c.issued, c.nodes[a].observed)
            && (c.nodes[a].observed == c.nodes[b].observed ==>
                  && SameSum(c.nodes[a].replica.sum.contrib, c.nodes[b].replica.sum.contrib)
                  && c.nodes[a].replica.topk.candidates == c.nodes[b].replica.topk.candidates
                  && Total(c.nodes[a].replica.sum.contrib) == Total(c.nodes[b].replica.sum.contrib))
  {
    var c := Run(Start(cfg, ids), actions);
    RunInv(cfg, ids, actions, {});
    assert NodeInv(c.issued, cfg.kmax, {}, a, c.nodes[a]) && NodeInv(c.issued, cfg.kmax, {}, b, c.nodes[b]);
    if c.nodes[a].observed == c.nodes[b].observed {
      RepresentsUnique(c.nodes[a].replica, c.nodes[b].replica, c.nodes[a].observed);
      TotalMonotone(c.nodes[a].replica.sum.contrib, c.nodes[b].replica.sum.contrib);
      TotalMonotone(c.nodes[b].replica.sum.contrib, c.nodes[a].replica.sum.contrib);
    }
  }

  /** Write-ahead safety in every run: recovery never fails and gives back the issue counter, and no replica
      holds more of node `id` than `id` itself would recover. */
  lemma WriteAheadSafety(cfg: Config, ids: set<NodeId>, actions: seq<Action>, id: NodeId, peer: NodeId)
    requires ConfigOk(cfg) && ValidIds(ids) && id in ids && peer in ids
    ensures var c := Run(Start(cfg, ids), actions);
            && id in c.nodes && peer in c.nodes
            && var back := Recover(id, cfg.kmax, c.nodes[id].disk);
            && back.Some? && back.value.deltaSeq == |IssuedBy(c.issued, id)|
            && Get(c.nodes[peer].replica.sum.contrib, id) <= Get(back.value.sum.contrib, id)
            && (forall d :: d in c.nodes[peer].observed && WellFormed(d) && d.origin == id ==> Subsumes(back.value, d))
  {
    hide NodeInv, MsgInv, TotalsOk, IssuesOk, Run, Recover, IsTop, ReplicaValid, Subsumes, WellFormed;
    var c := Run(Start(cfg, ids), actions);
    RunInv(cfg, ids, actions, {});
    var n, p := c.nodes[id], c.nodes[peer];
    NodeFacts(c.issued, cfg.kmax, {}, id, n);
    NodeFacts(c.issued, cfg.kmax, {}, peer, p);
    var back := Recover(id, cfg.kmax, n.disk).value;
    SameContentsChain(back, n.replica, n.replica);
    SameContentsRepresents(n.replica, back, n.observed) by {
      forall k: NodeId ensures Get(n.replica.sum.contrib, k) == Get(back.sum.contrib, k) {}
    }
    forall d | d in p.observed && d.origin == id ensures d in n.observed {
      assert IsIssued(c.issued, d);
    }
    forall d | d in p.observed && WellFormed(d) && d.origin == id ensures Subsumes(back, d) {
      RepresentsSubsumes(back, n.observed, d);
    }
    var v := Get(p.replica.sum.contrib, id);
    if v > 0 {
      var d :| d in p.observed && SumEntry(d, id, v);
    }
  }

  /** The delta that an envelope publishes or serves. */
  ghost predicate Conveys(e: Envelope, d: StateDelta) {
    match e.body
    case DeltaMsg(x) => x == d
    case RangeRespMsg(ds) => d in ds
    case _ => false
  }

  /** No sequence number of an origin is ever used for two different deltas, crashes included. */
  lemma SequencesUnique(cfg: Config, ids: set<NodeId>, actions: seq<Action>,
                        e: Envelope, f: Envelope, d: StateDelta, x: StateDelta)
    requires ConfigOk(cfg) && ValidIds(ids)
    requires e in Run(Start(cfg, ids), actions).net && f in Run(Start(cfg, ids), actions).net
    requires Conveys(e, d) && Conveys(f, x) && d.origin == x.origin && d.sequence == x.sequence
    ensures d == x
  {
    hide NodeInv, Run;
    var c := Run(Start(cfg, ids), actions);
    RunInv(cfg, ids, actions, {});
    assert MsgInv(c.issued, cfg.kmax, {}, e) && MsgInv(c.issued, cfg.kmax, {}, f);
    assert IsIssued(c.issued, d) && IsIssued(c.issued, x);
  }

  /** SUM conservation in every run: each replica's entry for `id` is the total of some prefix of the
      increments that `id` accepted, and `id`'s own entry is the total of all of them. */
  lemma SumConservation(cfg: Config, ids: set<NodeId>, actions: seq<Action>, id: NodeId, peer: NodeId)
    requires ConfigOk(cfg) && ValidIds(ids) && id in ids && peer in ids
    ensures var c := Run(Start(cfg, ids), actions);
            && id in c.nodes && peer in c.nodes
            && PrefixTotal(Get(c.nodes[peer].replica.sum.contrib, id), AcceptedBy(c, id))
            && Get(c.nodes[id].replica.sum.contrib, id) == SumSeq(AcceptedBy(c, id))
  {
    hide NodeInv, MsgInv, Exact, HistoryOk, TotalsOk, WellFormed, OwnOk, ReplicaValid, PrefixTotal, SumSeq;
    var c := Run(Start(cfg, ids), actions);
    RunInv(cfg, ids, actions, {});
    NodeFacts(c.issued, cfg.kmax, {}, peer, c.nodes[peer]);
    OwnEntry(c.issued, cfg.kmax, {}, id, c.nodes[id], AcceptedBy(c, id));
    EntryIsPrefix(c.issued, c.nodes[peer], id, AcceptedBy(c, id));
  }

  // ---------------------------------------------------------------- flooding

  ghost function PublishedDeltas(c: State): set<StateDelta> {
    set id, i | id in c.issued && 0 <= i < |c.issued[id]| :: c.issued[id][i]
  }

  ghost function Pairs(c: State): set<(NodeId, StateDelta)> {
    set id, d | id in c.nodes && d in PublishedDeltas(c) :: (id, d)
  }

  ghost function Observations(c: State): set<(NodeId, StateDelta)> {
    set id, d | id in c.nodes && d in c.nodes[id].observed :: (id, d)
  }

  lemma {:induction false} DistinctCount<T>(s: seq<T>, bound: set<T>)
    requires forall i, j :: 0 <= i < j < |s| ==> s[i] != s[j]
    requires forall x :: x in s ==> x in bound
    ensures |s| <= |bound|
  {
    if s != [] {
      var init, last := s[..|s| - 1], s[|s| - 1];
      assert last in s;
      forall x | x in init ensures x in bound - {last} {
        var i :| 0 <= i < |init| && init[i] == x;
        assert s[i] == x && x in s;
      }
      DistinctCount(init, bound - {last});
      assert |bound - {last}| == |bound| - 1;
    }
  }

  /** Flooding terminates in every run, crashes included: each node forwards a given delta at most once, so
      there are never more forwards than pairs of a node and a published delta. */
  lemma FloodingBounded(cfg: Config, ids: set<NodeId>, actions: seq<Action>)
    requires ConfigOk(cfg) && ValidIds(ids)
    ensures var c := Run(Start(cfg, ids), actions);
            && (forall i, j :: 0 <= i < j < |c.forwards| ==> c.forwards[i] != c.forwards[j])
            && |c.forwards| <= |Pairs(c)|
  {
    hide NodeInv, MsgInv, TotalsOk, IssuesOk, Run, Represents, Exact, OwnOk;
    var c := Run(Start(cfg, ids), actions);
    RunInv(cfg, ids, actions, {});
    forall p | p in c.forwards ensures p in Pairs(c) {
      var i :| 0 <= i < |c.forwards| && c.forwards[i] == p;
      NodeFacts(c.issued, cfg.kmax, {}, p.0, c.nodes[p.0]);
      assert IsIssued(c.issued, p.1);
      assert c.issued[p.1.origin][p.1.sequence - 1] == p.1;
    }
    DistinctCount(c.forwards, Pairs(c));
  }

  lemma EffectObserves(c: State, id: NodeId, f: Effect)
    requires id in c.nodes && c.nodes[id].observed <= f.node.observed
    requires f.forwarded.Some? ==> f.forwarded.value !in c.nodes[id].observed && f.forwarded.value in f.node.observed
    ensures Progress(c, AfterEffect(c, id, f))
  {
  }

  /** No pair is un-observed, and a step that forwards turns an unobserved pair into an observed one. */
  ghost predicate Progress(c: State, d: State) {
    && Observations(c) <= Observations(d)
    && c.forwards <= d.forwards && |d.forwards| <= |c.forwards| + 1
    && (|d.forwards| > |c.forwards| ==>
          var p := d.forwards[|c.forwards|]; p !in Observations(c) && p in Observations(d))
  }

  lemma ForwardObserves(c: State, a: Action, K: set<Kind>)
    requires Inv(c, K) && Carrying(a, K)
    ensures Progress(c, Next(c, a))
  {
    hide NodeInv, MsgInv, TotalsOk, IssuesOk, ContentsLeq, Progress, Observations, Handle, ForwardsOk;
    if !Enabled(c, a) {
      EffectNothing(c);
    } else {
      var n := c.nodes[a.id];
      match a
      case Update(id, u, io) =>
        NodeFacts(c.issued, c.cfg.kmax, K, id, n);
        LocalInv(c.issued, c.cfg.kmax, K, id, n, u, io, c.cfg.queueSize);
        var e := Effect(LocalStep(n, u, io, c.cfg.queueSize), {}, None);
        EffectObserves(c, id, e);
        SameObservations(c, AfterEffect(c, id, e), Next(c, a));
      case Dequeue(id) =>
        DequeueInv(c.issued, c.cfg.kmax, K, id, n);
        EffectObserves(c, id, DequeueStep(n));
      case Gossip(id) =>
        EffectObserves(c, id, BroadcastDigest(n));
      case Deliver(id, e, io, failAt) =>
        HandleInv(c.issued, c.cfg.kmax, K, id, n, e, io, failAt);
        EffectObserves(c, id, Handle(n, e, io, failAt));
      case TakeCheckpoint(id) =>
        EffectObserves(c, id, Effect(CheckpointStep(n), {}, None));
        SameObservations(c, AfterEffect(c, id, Effect(CheckpointStep(n), {}, None)), Next(c, a));
      case Restart(id) =>
        var e := Effect(RestartStep(n, c.cfg.historyCapacity), {}, None);
        EffectObserves(c, id, e);
        SameObservations(c, AfterEffect(c, id, e), Next(c, a));
    }
  }

  lemma EffectNothing(c: State)
    ensures Progress(c, c)
  {
  }

  lemma SameObservations(c: State, d: State, e: State)
    requires Progress(c, d) && d.nodes == e.nodes && d.forwards == e.forwards
    ensures Progress(c, e)
  {
  }
}
