/** A cluster of membership tables exchanging Ping and Ack over a lossy network (internal/membership/bootstrap.go). */
module MembershipCluster {
  import opened Base
  import opened Membership
  import MembershipTable

  const SUSPECT_AFTER_MISS := 3
  const DEAD_AFTER_MISS := 6
  const SUSPECT_AFTER_TICKS := 3
  const DEAD_AFTER_TICKS := 6

  /** Ping and Ack carry the same facts. The sequence number that pairs them is not modelled: any Ack may reach
      any node, which allows more runs than the source has. */
  datatype Packet = Packet(ack: bool, from: NodeId, endpoint: string, incarnation: U64, membership: seq<Entry>)

  /** `net` holds every packet ever sent: any of them may arrive anywhere, any number of times, or never. */
  datatype State = State(tables: map<NodeId, Table>, net: set<Packet>)

  datatype Action =
    | SendPing(id: NodeId, batch: seq<Entry>)
    | ReceivePing(id: NodeId, packet: Packet, now: int, batch: seq<Entry>)
    | ReceiveAck(id: NodeId, packet: Packet, now: int, seed: string)
    | ProbeFailed(id: NodeId, endpoint: string)
    | Tick(id: NodeId, now: int, interval: int)

  /** What every node says of itself. */
  function Owns(c: State): map<NodeId, U64> {
    map id | id in c.tables :: Incarnation(c.tables[id], id)
  }

  /** The payload of a Ping or an Ack. */
  function PacketOf(t: Table, ack: bool, batch: seq<Entry>): Packet
    requires t.self in t.members
  {
    Packet(ack, t.self, t.members[t.self].endpoint, t.members[t.self].incarnation, batch)
  }

  /** decodePing and decodeAcceptedAck, and the check for a duplicate of the receiver's own name. */
  predicate Decodes(t: Table, p: Packet) {
    p.from != t.self && t.okEndpoint(p.endpoint) && p.incarnation != 0
  }

  /** Merge what the packet reports, then observe its sender. */
  function Receive(t: Table, p: Packet, now: int): Table
    requires t.self in t.members
  {
    if !Decodes(t, p) then t
    else Observe(MergeAll(t, p.membership, now), p.from, p.endpoint, p.incarnation, now)
  }

  ghost predicate Enabled(c: State, a: Action) {
    && a.id in c.tables && TableValid(c.tables[a.id])
    && match a
       case SendPing(id, batch) => MembershipTable.Disseminates(c.tables[id], batch)
       case ReceivePing(id, p, now, batch) =>
         && p in c.net && !p.ack
         && var t := Receive(c.tables[id], p, now);
            t.self in t.members && MembershipTable.Disseminates(t, batch)
       case ReceiveAck(id, p, now, seed) => p in c.net && p.ack
       case _ => true
  }

  /** One step; an action that is not enabled does nothing. */
  ghost function Next(c: State, a: Action): State {
    if !Enabled(c, a) then c
    else
      var t := c.tables[a.id];
      match a
      case SendPing(id, batch) => c.(net := c.net + {PacketOf(t, false, batch)})
      case ReceivePing(id, p, now, batch) =>
        var u := Receive(t, p, now);
        State(c.tables[id := u], if Decodes(t, p) then c.net + {PacketOf(u, true, batch)} else c.net)
      case ReceiveAck(id, p, now, seed) =>
        var u := Receive(t, p, now);
        c.(tables := c.tables[id := if Decodes(t, p) then Associate(u, p.from, seed) else u])
      case ProbeFailed(id, endpoint) =>
        c.(tables := c.tables[id := MarkMissed(t, endpoint, SUSPECT_AFTER_MISS, DEAD_AFTER_MISS)])
      case Tick(id, now, interval) =>
        c.(tables := c.tables[id := Timeouts(t, now, SUSPECT_AFTER_TICKS * interval, DEAD_AFTER_TICKS * interval)])
  }

  ghost function Run(c: State, actions: seq<Action>): State {
    if actions == [] then c else Next(Run(c, actions[..|actions| - 1]), actions[|actions| - 1])
  }

  /** Every node has just started and knows only itself. */
  ghost predicate Fresh(c: State) {
    && c.net == {}
    && (forall id :: id in c.tables ==>
          && ValidNodeId(id) && c.tables[id].self == id && TableValid(c.tables[id])
          && c.tables[id].members.Keys == {id})
    && (forall a, b :: a in c.tables && b in c.tables ==> c.tables[a].okEndpoint == c.tables[b].okEndpoint)
  }

  // ---------------------------------------------------------------- the invariant

  /** Nothing the table says of others is ahead of what those say of themselves, in `own`. */
  ghost predicate TableBehind(own: map<NodeId, U64>, t: Table) {
    forall n :: n in t.members && n != t.self ==> n in own && t.members[n].incarnation <= own[n]
  }

  ghost predicate PacketBehind(own: map<NodeId, U64>, p: Packet) {
    && p.from in own && p.incarnation <= own[p.from]
    && forall e :: e in p.membership ==> e.node in own && e.incarnation <= own[e.node]
  }

  ghost predicate NodeOk(own: map<NodeId, U64>, id: NodeId, t: Table) {
    ValidNodeId(id) && t.self == id && TableValid(t) && TableBehind(own, t)
  }

  ghost predicate Inv(c: State) {
    && (forall id :: id in c.tables ==> NodeOk(Owns(c), id, c.tables[id]))
    && (forall a, b :: a in c.tables && b in c.tables ==> c.tables[a].okEndpoint == c.tables[b].okEndpoint)
    && (forall p :: p in c.net ==> PacketBehind(Owns(c), p))
  }

  ghost predicate Raised(own: map<NodeId, U64>, own': map<NodeId, U64>) {
    own.Keys <= own'.Keys && forall n :: n in own ==> own[n] <= own'[n]
  }

  lemma BehindRaised(own: map<NodeId, U64>, own': map<NodeId, U64>, t: Table)
    requires Raised(own, own') && TableBehind(own, t)
    ensures TableBehind(own', t)
  {
  }

  lemma PacketRaised(own: map<NodeId, U64>, own': map<NodeId, U64>, p: Packet)
    requires Raised(own, own') && PacketBehind(own, p)
    ensures PacketBehind(own', p)
  {
  }

  /** A node's own count is the only one that moves when it replaces its table, and it only moves up. */
  lemma ReplaceTable(c: State, id: NodeId, t: Table)
    requires Inv(c) && id in c.tables && NodeOk(Owns(c), id, t) && t.okEndpoint == c.tables[id].okEndpoint
    requires Incarnation(c.tables[id], id) <= Incarnation(t, id)
    ensures Inv(c.(tables := c.tables[id := t]))
  {
    hide TableValid, TableBehind, PacketBehind, Incarnation;
    var d := c.(tables := c.tables[id := t]);
    assert Raised(Owns(c), Owns(d));
    forall o | o in d.tables ensures NodeOk(Owns(d), o, d.tables[o]) {
      BehindRaised(Owns(c), Owns(d), d.tables[o]);
    }
    forall p | p in d.net ensures PacketBehind(Owns(d), p) {
      PacketRaised(Owns(c), Owns(d), p);
    }
  }

  lemma SendInv(c: State, id: NodeId, ack: bool, batch: seq<Entry>)
    requires Inv(c) && id in c.tables && id in c.tables[id].members
    requires MembershipTable.Disseminates(c.tables[id], batch)
    ensures Inv(c.(net := c.net + {PacketOf(c.tables[id], ack, batch)}))
  {
    hide NodeOk, PacketBehind, MembershipTable.Disseminates, PacketOf, Incarnation;
    NodeOkSelf(Owns(c), id, c.tables[id]);
    var d := c.(net := c.net + {PacketOf(c.tables[id], ack, batch)});
    assert Owns(c) == Owns(d);
    SentBehind(Owns(c), id, c.tables[id], ack, batch);
  }

  lemma SentBehind(own: map<NodeId, U64>, id: NodeId, t: Table, ack: bool, batch: seq<Entry>)
    requires NodeOk(own, id, t) && id in own && own[id] == Incarnation(t, id)
    requires MembershipTable.Disseminates(t, batch)
    ensures PacketBehind(own, PacketOf(t, ack, batch))
  {
    forall e | e in batch ensures e.node in own && e.incarnation <= own[e.node] {
      var i :| 0 <= i < |batch| && batch[i] == e;
    }
  }

  /** Claims about `n` in a packet that is not ahead stay within `n`'s own incarnation. */
  lemma ClaimsBehind(own: map<NodeId, U64>, t: Table, p: Packet, n: NodeId)
    requires PacketBehind(own, p) && n != t.self && Highest(t, p.membership, n) > 0
    ensures n in own && Highest(t, p.membership, n) <= 4 * (own[n] as int) + 3
  {
    HighestBounds(t, p.membership, n);
    var e :| e in p.membership && e.node == n && Claim(t, e) == Highest(t, p.membership, n);
  }

  lemma MergeBehind(own: map<NodeId, U64>, id: NodeId, t: Table, p: Packet, now: int)
    requires NodeOk(own, id, t) && PacketBehind(own, p)
    ensures NodeOk(own, id, MergeAll(t, p.membership, now))
    ensures Incarnation(t, id) <= Incarnation(MergeAll(t, p.membership, now), id)
  {
    var m := MergeAll(t, p.membership, now);
    MergeIsMax(t, p.membership, now);
    hide MergeAll, Highest, TableValid, PacketBehind;
    assert Key(m, id) >= Key(t, id);
    forall n | n in m.members && n != id ensures n in own && m.members[n].incarnation <= own[n] {
      assert Key(m, n) == Larger(Key(t, n), Highest(t, p.membership, n));
      if Highest(t, p.membership, n) > 0 {
        ClaimsBehind(own, t, p, n);
      }
      KnownPositive(m, n);
    }
  }

  lemma KnownPositive(t: Table, n: NodeId)
    requires TableValid(t) && n in t.members
    ensures 4 * t.members[n].incarnation < Key(t, n) <= 4 * t.members[n].incarnation + 3
  {
  }

  /** What a packet that is not ahead makes of a table. */
  lemma ReceiveOk(own: map<NodeId, U64>, id: NodeId, t: Table, p: Packet, now: int)
    requires NodeOk(own, id, t) && PacketBehind(own, p)
    ensures NodeOk(own, id, Receive(t, p, now)) && Receive(t, p, now).okEndpoint == t.okEndpoint
    ensures Incarnation(t, id) <= Incarnation(Receive(t, p, now), id)
  {
    MergeBehind(own, id, t, p, now);
    var m := MergeAll(t, p.membership, now);
    ObserveKey(m, p.from, p.endpoint, p.incarnation, now);
    hide MergeAll, TableValid;
  }

  lemma ReceiveInv(c: State, id: NodeId, p: Packet, now: int)
    requires Inv(c) && id in c.tables && p in c.net
    ensures Inv(c.(tables := c.tables[id := Receive(c.tables[id], p, now)]))
  {
    hide Receive, NodeOk, PacketBehind, Incarnation;
    NodeOkSelf(Owns(c), id, c.tables[id]);
    ReceiveOk(Owns(c), id, c.tables[id], p, now);
    ReplaceTable(c, id, Receive(c.tables[id], p, now));
  }

  lemma NodeOkSelf(own: map<NodeId, U64>, id: NodeId, t: Table)
    requires NodeOk(own, id, t)
    ensures t.self == id && id in t.members && TableValid(t) && t.members[id].status == Alive && ValidNodeId(id)
  {
  }

  /** Operations that leave every incarnation alone. */
  lemma SameIncarnations(c: State, id: NodeId, t: Table)
    requires Inv(c) && id in c.tables && TableValid(t) && t.self == id && t.okEndpoint == c.tables[id].okEndpoint
    requires forall n :: Incarnation(t, n) == Incarnation(c.tables[id], n)
    requires t.members.Keys == c.tables[id].members.Keys
    ensures Inv(c.(tables := c.tables[id := t]))
  {
    hide TableValid, PacketBehind;
    assert NodeOk(Owns(c), id, c.tables[id]);
    assert forall n :: n in t.members ==> t.members[n].incarnation == Incarnation(t, n);
    ReplaceTable(c, id, t);
  }

  lemma StepInv(c: State, a: Action)
    requires Inv(c)
    ensures Inv(Next(c, a))
  {
    hide Inv, TableValid, MembershipTable.Disseminates, Receive, Incarnation, MarkMissed, Timeouts;
    if Enabled(c, a) {
      InvNode(c, a.id);
      var t := c.tables[a.id];
      match a
      case SendPing(id, batch) => SendInv(c, id, false, batch);
      case ReceivePing(id, p, now, batch) =>
        ReceiveInv(c, id, p, now);
        var d := c.(tables := c.tables[id := Receive(t, p, now)]);
        InvNode(d, id);
        SendInv(d, id, true, batch);
      case ReceiveAck(id, p, now, seed) =>
        ReceiveInv(c, id, p, now);
        var d := c.(tables := c.tables[id := Receive(t, p, now)]);
        InvNode(d, id);
        AssociateInv(d, id, p.from, seed);
        var u := Associate(Receive(t, p, now), p.from, seed);
        assert d.tables[id := u] == c.tables[id := u];
      case ProbeFailed(id, endpoint) =>
        MarkMissedKey(t, endpoint, SUSPECT_AFTER_MISS, DEAD_AFTER_MISS);
        KeepsMembers(t, endpoint, 0, 0, SUSPECT_AFTER_MISS, DEAD_AFTER_MISS);
        SameIncarnations(c, id, MarkMissed(t, endpoint, SUSPECT_AFTER_MISS, DEAD_AFTER_MISS));
      case Tick(id, now, interval) =>
        TimeoutsKey(t, now, SUSPECT_AFTER_TICKS * interval, DEAD_AFTER_TICKS * interval);
        KeepsMembers(t, "", now, interval, SUSPECT_AFTER_MISS, DEAD_AFTER_MISS);
        SameIncarnations(c, id, Timeouts(t, now, SUSPECT_AFTER_TICKS * interval, DEAD_AFTER_TICKS * interval));
    }
  }

  lemma InvNode(c: State, id: NodeId)
    requires Inv(c) && id in c.tables
    ensures var t := c.tables[id];
            t.self == id && id in t.members && TableValid(t) && ValidNodeId(id) && NodeOk(Owns(c), id, t)
  {
  }

  lemma AssociateInv(c: State, id: NodeId, n: NodeId, seed: string)
    requires Inv(c) && id in c.tables
    ensures Inv(c.(tables := c.tables[id := Associate(c.tables[id], n, seed)]))
  {
    InvNode(c, id);
    assert TableValid(Associate(c.tables[id], n, seed));
    SameIncarnations(c, id, Associate(c.tables[id], n, seed));
  }

  lemma KeepsMembers(t: Table, endpoint: string, now: int, interval: int, suspectAfter: int, deadAfter: int)
    requires TableValid(t)
    ensures MarkMissed(t, endpoint, suspectAfter, deadAfter).members.Keys == t.members.Keys
    ensures MarkMissed(t, endpoint, suspectAfter, deadAfter).self == t.self
    ensures MarkMissed(t, endpoint, suspectAfter, deadAfter).okEndpoint == t.okEndpoint
    ensures var u := Timeouts(t, now, SUSPECT_AFTER_TICKS * interval, DEAD_AFTER_TICKS * interval);
            u.members.Keys == t.members.Keys && u.self == t.self && u.okEndpoint == t.okEndpoint
  {
  }

  lemma FreshInv(c: State)
    requires Fresh(c)
    ensures Inv(c)
  {
    hide TableValid;
  }

  lemma {:induction false} RunInv(c: State, actions: seq<Action>)
    requires Fresh(c)
    ensures Inv(Run(c, actions)) && Run(c, actions).tables.Keys == c.tables.Keys
  {
    hide Inv, Fresh, Next;
    FreshInv(c);
    if actions != [] {
      RunInv(c, actions[..|actions| - 1]);
      StepInv(Run(c, actions[..|actions| - 1]), actions[|actions| - 1]);
      StepKeepsNodes(Run(c, actions[..|actions| - 1]), actions[|actions| - 1]);
    }
  }

  lemma StepKeepsNodes(c: State, a: Action)
    ensures Next(c, a).tables.Keys == c.tables.Keys
  {
    hide Receive, MarkMissed, Timeouts, Associate, TableValid, MembershipTable.Disseminates;
  }

  /** What the invariant says about one node of a reachable state. */
  lemma Reached(c: State, actions: seq<Action>, id: NodeId)
    requires Fresh(c) && id in c.tables
    ensures var d := Run(c, actions);
            && id in d.tables && d.tables[id].self == id && id in d.tables[id].members
            && TableValid(d.tables[id]) && NodeOk(Owns(d), id, d.tables[id])
            && d.tables.Keys == c.tables.Keys
            && (forall p :: p in d.net ==> PacketBehind(Owns(d), p))
  {
    RunInv(c, actions);
    InvNode(Run(c, actions), id);
  }

  // ---------------------------------------------------------------- results over every run

  /** No table and no packet ever holds a node at an incarnation above its own, everything told is about nodes of
      the cluster, and every node holds itself alive. */
  lemma NoFutureIncarnation(c: State, actions: seq<Action>)
    requires Fresh(c)
    ensures var d := Run(c, actions);
            && (forall a, n :: a in d.tables && n in d.tables[a].members ==>
                  n in d.tables && d.tables[a].members[n].incarnation <= Owns(d)[n])
            && (forall p, e :: p in d.net && e in p.membership ==> e.node in d.tables && e.incarnation <= Owns(d)[e.node])
            && (forall p :: p in d.net ==> p.from in d.tables && p.incarnation <= Owns(d)[p.from])
            && (forall a :: a in d.tables ==> a in d.tables[a].members && d.tables[a].members[a].status == Alive)
  {
    RunInv(c, actions);
    var d := Run(c, actions);
    hide Run, Fresh;
    forall a, n | a in d.tables && n in d.tables[a].members
      ensures n in d.tables && d.tables[a].members[n].incarnation <= Owns(d)[n]
    {
      assert NodeOk(Owns(d), a, d.tables[a]);
    }
  }

  /** The packet accuses the receiver at its current incarnation. */
  ghost predicate AccusedNow(t: Table, p: Packet, e: Entry)
    requires t.self in t.members
  {
    && e in p.membership && ValidEntry(t, e)
    && e.node == t.self && e.status != Alive && e.incarnation == t.members[t.self].incarnation
  }

  /** In every run a packet moves its receiver's own incarnation by at most one, and moves it exactly when it carries
      an accusation at the current incarnation that can still be answered. Every accusation that has been processed
      lies strictly below the receiver's incarnation, unless it was made at the last one. */
  lemma Refutation(c: State, actions: seq<Action>, id: NodeId, p: Packet, now: int)
    requires Fresh(c) && id in c.tables && p in Run(c, actions).net
    ensures var d := Run(c, actions);
            && id in d.tables && id in d.tables[id].members && d.tables[id].self == id
            && var t := d.tables[id];
               var u := Receive(t, p, now);
               var own, own' := Incarnation(t, id), Incarnation(u, id);
               && own' == (if Decodes(t, p) && own < MAX_U64 && (exists e :: AccusedNow(t, p, e)) then own + 1 else own)
               && (Decodes(t, p) ==>
                     forall e :: e in p.membership && ValidEntry(t, e) && e.node == id && e.status != Alive ==>
                       (e.incarnation < own' <==> e.incarnation < MAX_U64))
  {
    Reached(c, actions, id);
    var d := Run(c, actions);
    var t := d.tables[id];
    if Decodes(t, p) {
      OwnAfterMerge(Owns(d), id, t, p, now);
      hide Run, Fresh, Owns, NodeOk, PacketBehind, ValidEntry;
      var m := MergeAll(t, p.membership, now);
      ObserveKey(m, p.from, p.endpoint, p.incarnation, now);
      ApartFromSender(t, p, now);
    }
  }

  lemma ApartFromSender(t: Table, p: Packet, now: int)
    requires TableValid(t) && Decodes(t, p)
    ensures Incarnation(Receive(t, p, now), t.self) == Incarnation(MergeAll(t, p.membership, now), t.self)
  {
  }

  /** Since no accusation is ahead, the highest answer asked for is at most one above. */
  lemma OwnAfterMerge(own: map<NodeId, U64>, id: NodeId, t: Table, p: Packet, now: int)
    requires NodeOk(own, id, t) && id in own && own[id] == Incarnation(t, id) && PacketBehind(own, p)
    ensures var m := MergeAll(t, p.membership, now);
            && TableValid(m)
            && Incarnation(m, id) == (if own[id] < MAX_U64 && (exists e :: AccusedNow(t, p, e)) then own[id] + 1 else own[id])
            && forall e :: e in p.membership && ValidEntry(t, e) && e.node == id && e.status != Alive ==>
                 (e.incarnation < Incarnation(m, id) <==> e.incarnation < MAX_U64)
  {
    var m := MergeAll(t, p.membership, now);
    var h := Highest(t, p.membership, id);
    MergeIsMax(t, p.membership, now);
    HighestBounds(t, p.membership, id);
    hide MergeAll, Highest;
    assert Key(m, id) == Larger(Key(t, id), h);
    assert m.members[id].status == Alive;
    if h > Key(t, id) {
      var e :| e in p.membership && e.node == id && Claim(t, e) == h;
      assert AccusedNow(t, p, e);
    }
    forall e | e in p.membership && ValidEntry(t, e) && e.node == id && e.status != Alive
      ensures 4 * Bump(e.incarnation) + 1 <= Key(m, id) && e.incarnation <= own[id]
    {
      assert Claim(t, e) <= h;
    }
  }

  /** In every run, direct contact revives: a packet that still states its sender's own incarnation leaves the sender
      alive at exactly that incarnation in the receiver's table, whatever was suspected before. */
  lemma ContactRevives(c: State, actions: seq<Action>, id: NodeId, p: Packet, now: int)
    requires Fresh(c) && id in c.tables && p in Run(c, actions).net
    ensures var d := Run(c, actions);
            && id in d.tables && d.tables[id].self in d.tables[id].members && p.from in d.tables
            && (Decodes(d.tables[id], p) && p.incarnation == Owns(d)[p.from] ==>
                  var u := Receive(d.tables[id], p, now);
                  && p.from in u.members && u.members[p.from].status == Alive
                  && u.members[p.from].incarnation == Owns(d)[p.from])
  {
    Reached(c, actions, id);
    var d := Run(c, actions);
    var t := d.tables[id];
    if Decodes(t, p) && p.incarnation == Owns(d)[p.from] {
      InvNodeOf(c, actions, p.from);
      MergeBehind(Owns(d), id, t, p, now);
      hide Run, Fresh, Owns, PacketBehind;
      var m := MergeAll(t, p.membership, now);
      ObserveKey(m, p.from, p.endpoint, p.incarnation, now);
    }
  }

  /** `u` holds `n` alive, in the life and at the endpoint that `n` gives itself in `m`. */
  predicate HoldsAlive(u: Table, n: NodeId, m: Member) {
    && n in u.members && u.members[n].status == Alive
    && u.members[n].incarnation == m.incarnation && u.members[n].endpoint == m.endpoint
  }

  /** A Ping from `a` is received, and its Ack comes back. */
  lemma PingAckTables(own: map<NodeId, U64>, a: NodeId, ta: Table, b: NodeId, tb: Table, ping: seq<Entry>, ack: seq<Entry>,
                      now: int, later: int)
    requires NodeOk(own, a, ta) && NodeOk(own, b, tb) && a != b && ta.okEndpoint == tb.okEndpoint
    requires a in own && b in own && own[a] == Incarnation(ta, a) && own[b] == Incarnation(tb, b)
    requires ta.okEndpoint(ta.members[a].endpoint) && MembershipTable.Disseminates(ta, ping)
    ensures var tb' := Receive(tb, PacketOf(ta, false, ping), now);
            && tb'.self == b && b in tb'.members && HoldsAlive(tb', a, ta.members[a])
            && (tb.okEndpoint(tb'.members[b].endpoint) && MembershipTable.Disseminates(tb', ack) ==>
                  HoldsAlive(Receive(ta, PacketOf(tb', true, ack), later), b, tb'.members[b]))
  {
    hide TableBehind, TableValid, PacketBehind, Receive, MembershipTable.Disseminates;
    NodeOkSelf(own, a, ta);
    NodeOkSelf(own, b, tb);
    var p := PacketOf(ta, false, ping);
    var tb' := Receive(tb, p, now);
    SentBehind(own, a, ta, false, ping);
    OwnPositive(ta);
    FreshContact(own, b, tb, p, now);
    ReceiveOk(own, b, tb, p, now);
    NodeOkSelf(own, b, tb');
    if tb.okEndpoint(tb'.members[b].endpoint) && MembershipTable.Disseminates(tb', ack) {
      var own' := own[b := tb'.members[b].incarnation];
      assert Raised(own, own');
      OthersRaised(own, own', a, ta);
      OthersRaised(own, own', b, tb');
      SentBehind(own', b, tb', true, ack);
      OwnPositive(tb');
      FreshContact(own', a, ta, PacketOf(tb', true, ack), later);
    }
  }

  lemma OwnPositive(t: Table)
    requires TableValid(t)
    ensures t.members[t.self].incarnation != 0
  {
  }

  /** In every run a Ping and its Ack revive both ends: each then holds the other alive at the incarnation that the other
      has, whatever either suspected, and knows the address it stated. */
  lemma PingAckRevives(c: State, actions: seq<Action>, a: NodeId, b: NodeId, ping: seq<Entry>, ack: seq<Entry>, now: int,
                       later: int)
    requires Fresh(c) && a in c.tables && b in c.tables && a != b
    ensures var d := Run(c, actions);
            && a in d.tables && b in d.tables && a in d.tables[a].members && b in d.tables[b].members
            && d.tables[a].self == a && d.tables[b].self == b
            && var ta, tb := d.tables[a], d.tables[b];
               (ta.okEndpoint(ta.members[a].endpoint) && MembershipTable.Disseminates(ta, ping) ==>
                  var tb' := Receive(tb, PacketOf(ta, false, ping), now);
                  && tb'.self == b && b in tb'.members && HoldsAlive(tb', a, ta.members[a])
                  && (tb.okEndpoint(tb'.members[b].endpoint) && MembershipTable.Disseminates(tb', ack) ==>
                        HoldsAlive(Receive(ta, PacketOf(tb', true, ack), later), b, tb'.members[b])))
  {
    Reached(c, actions, a);
    Reached(c, actions, b);
    RunInv(c, actions);
    var d := Run(c, actions);
    var ta, tb := d.tables[a], d.tables[b];
    assert ta.okEndpoint == tb.okEndpoint;
    hide Run, Fresh, Inv, NodeOk, MembershipTable.Disseminates, Receive, HoldsAlive;
    if ta.okEndpoint(ta.members[a].endpoint) && MembershipTable.Disseminates(ta, ping) {
      PingAckTables(Owns(d), a, ta, b, tb, ping, ack, now, later);
    }
  }

  /** The three steps of an exchange, taken by the cluster: nobody else's table moves. */
  lemma ExchangeSteps(d: State, a: NodeId, b: NodeId, ping: seq<Entry>, ack: seq<Entry>, now: int, later: int, seed: string)
    requires a in d.tables && b in d.tables && a != b
    requires TableValid(d.tables[a]) && d.tables[a].self == a && TableValid(d.tables[b]) && d.tables[b].self == b
    requires MembershipTable.Disseminates(d.tables[a], ping)
    requires var p := PacketOf(d.tables[a], false, ping);
             var u := Receive(d.tables[b], p, now);
             && Decodes(d.tables[b], p) && u.self == b && b in u.members && MembershipTable.Disseminates(u, ack)
             && Decodes(d.tables[a], PacketOf(u, true, ack))
    ensures var p := PacketOf(d.tables[a], false, ping);
            var u := Receive(d.tables[b], p, now);
            var q := PacketOf(u, true, ack);
            Next(Next(Next(d, SendPing(a, ping)), ReceivePing(b, p, now, ack)), ReceiveAck(a, q, later, seed)) ==
            State(d.tables[b := u][a := Associate(Receive(d.tables[a], q, later), b, seed)], d.net + {p} + {q})
  {
    hide TableValid, MembershipTable.Disseminates, Receive, Associate, Decodes;
  }

  lemma RunAppend3(c: State, actions: seq<Action>, x: Action, y: Action, z: Action)
    ensures Run(c, actions + [x, y, z]) == Next(Next(Next(Run(c, actions), x), y), z)
  {
    hide Next;
    var one, two, three := actions + [x], actions + [x, y], actions + [x, y, z];
    assert one[..|one| - 1] == actions && Run(c, one) == Next(Run(c, actions), x);
    assert two[..|two| - 1] == one && Run(c, two) == Next(Run(c, one), y);
    assert three[..|three| - 1] == two;
  }

  /** Both ends state an endpoint that the other accepts, and list what they may. */
  ghost predicate Answerable(ta: Table, tb: Table, ping: seq<Entry>, ack: seq<Entry>, now: int) {
    && ta.self in ta.members && tb.self in tb.members
    && ta.okEndpoint(ta.members[ta.self].endpoint) && MembershipTable.Disseminates(ta, ping)
    && var u := Receive(tb, PacketOf(ta, false, ping), now);
       && u.self in u.members && tb.okEndpoint(u.members[u.self].endpoint) && MembershipTable.Disseminates(u, ack)
  }

  lemma BothDecode(own: map<NodeId, U64>, a: NodeId, ta: Table, b: NodeId, tb: Table, ping: seq<Entry>, ack: seq<Entry>, now: int)
    requires NodeOk(own, a, ta) && NodeOk(own, b, tb) && a != b && ta.okEndpoint == tb.okEndpoint
    requires a in own && own[a] == Incarnation(ta, a) && Answerable(ta, tb, ping, ack, now)
    ensures var u := Receive(tb, PacketOf(ta, false, ping), now);
            && Decodes(tb, PacketOf(ta, false, ping)) && u.self == b && b in u.members
            && Decodes(ta, PacketOf(u, true, ack))
  {
    hide TableBehind, TableValid, PacketBehind, Receive, MembershipTable.Disseminates;
    NodeOkSelf(own, a, ta);
    NodeOkSelf(own, b, tb);
    var p := PacketOf(ta, false, ping);
    SentBehind(own, a, ta, false, ping);
    ReceiveOk(own, b, tb, p, now);
    NodeOkSelf(own, b, Receive(tb, p, now));
    OwnPositive(ta);
    OwnPositive(Receive(tb, p, now));
  }

  /** Where an exchange leaves the cluster: each end holds the other alive, the address that was dialled leads to the one
      who answered, and nobody else's table has moved. */
  ghost predicate Exchanged(d: State, e: State, a: NodeId, b: NodeId, seed: string) {
    && a in d.tables && b in d.tables && e.tables.Keys == d.tables.Keys
    && a in d.tables[a].members && b in e.tables[b].members
    && HoldsAlive(e.tables[b], a, d.tables[a].members[a])
    && HoldsAlive(e.tables[a], b, e.tables[b].members[b])
    && (seed != "" ==> seed in e.tables[a].byTarget && e.tables[a].byTarget[seed] == b)
    && (forall x :: x in d.tables && x != a && x != b ==> e.tables[x] == d.tables[x])
  }

  lemma ExchangeEnds(d: State, a: NodeId, b: NodeId, ping: seq<Entry>, ack: seq<Entry>, now: int, later: int, seed: string)
    requires Inv(d) && a in d.tables && b in d.tables && a != b
    requires Answerable(d.tables[a], d.tables[b], ping, ack, now)
    ensures var p := PacketOf(d.tables[a], false, ping);
            var u := Receive(d.tables[b], p, now);
            && u.self in u.members
            && Exchanged(d, Next(Next(Next(d, SendPing(a, ping)), ReceivePing(b, p, now, ack)),
                                 ReceiveAck(a, PacketOf(u, true, ack), later, seed)), a, b, seed)
  {
    InvNode(d, a);
    InvNode(d, b);
    SameRules(d, a, b);
    hide Inv, Owns, NodeOk, TableValid, MembershipTable.Disseminates, Receive, Decodes, Next, HoldsAlive, Exchanged,
      Answerable, Incarnation, Associate;
    var ta, tb := d.tables[a], d.tables[b];
    var p := PacketOf(ta, false, ping);
    ExchangeTables(Owns(d), a, ta, b, tb, ping, ack, now, later, seed);
    var u := Receive(tb, p, now);
    var q := PacketOf(u, true, ack);
    ExchangeSteps(d, a, b, ping, ack, now, later, seed);
    ExchangedBy(d, a, b, u, Associate(Receive(ta, q, later), b, seed), d.net + {p} + {q}, seed);
  }

  lemma ExchangeTables(own: map<NodeId, U64>, a: NodeId, ta: Table, b: NodeId, tb: Table, ping: seq<Entry>, ack: seq<Entry>,
                       now: int, later: int, seed: string)
    requires NodeOk(own, a, ta) && NodeOk(own, b, tb) && a != b && ta.okEndpoint == tb.okEndpoint
    requires a in own && b in own && own[a] == Incarnation(ta, a) && own[b] == Incarnation(tb, b)
    requires Answerable(ta, tb, ping, ack, now)
    ensures ta.self == a && a in ta.members && MembershipTable.Disseminates(ta, ping)
    ensures var u := Receive(tb, PacketOf(ta, false, ping), now);
            && Decodes(tb, PacketOf(ta, false, ping)) && u.self == b && b in u.members && MembershipTable.Disseminates(u, ack)
            && HoldsAlive(u, a, ta.members[a])
            && var q := PacketOf(u, true, ack);
               var w := Associate(Receive(ta, q, later), b, seed);
               && Decodes(ta, q) && HoldsAlive(w, b, u.members[b])
               && (seed != "" ==> seed in w.byTarget && w.byTarget[seed] == b)
  {
    NodeOkSelf(own, a, ta);
    NodeOkSelf(own, b, tb);
    hide NodeOk, TableValid, MembershipTable.Disseminates, Receive, Decodes, HoldsAlive, Associate, Incarnation;
    BothDecode(own, a, ta, b, tb, ping, ack, now);
    PingAckTables(own, a, ta, b, tb, ping, ack, now, later);
    var u := Receive(tb, PacketOf(ta, false, ping), now);
    AssociateHolds(Receive(ta, PacketOf(u, true, ack), later), b, seed, u.members[b]);
  }

  lemma ExchangedBy(d: State, a: NodeId, b: NodeId, u: Table, w: Table, net: set<Packet>, seed: string)
    requires a in d.tables && b in d.tables && a != b && a in d.tables[a].members && b in u.members
    requires HoldsAlive(u, a, d.tables[a].members[a]) && HoldsAlive(w, b, u.members[b])
    requires seed != "" ==> seed in w.byTarget && w.byTarget[seed] == b
    ensures Exchanged(d, State(d.tables[b := u][a := w], net), a, b, seed)
  {
    hide HoldsAlive;
  }

  lemma SameRules(d: State, a: NodeId, b: NodeId)
    requires Inv(d) && a in d.tables && b in d.tables
    ensures d.tables[a].okEndpoint == d.tables[b].okEndpoint && a in Owns(d) && b in Owns(d)
    ensures Owns(d)[a] == Incarnation(d.tables[a], a) && Owns(d)[b] == Incarnation(d.tables[b], b)
  {
  }

  lemma AssociateHolds(t: Table, b: NodeId, seed: string, m: Member)
    requires HoldsAlive(t, b, m) && b != ""
    ensures HoldsAlive(Associate(t, b, seed), b, m)
    ensures seed != "" ==> seed in Associate(t, b, seed).byTarget && Associate(t, b, seed).byTarget[seed] == b
  {
  }

  /** The same as steps of the cluster: after any run, sending the Ping, receiving it and receiving its Ack. */
  lemma ExchangeInRun(c: State, actions: seq<Action>, a: NodeId, b: NodeId, ping: seq<Entry>, ack: seq<Entry>, now: int,
                      later: int, seed: string)
    requires Fresh(c) && a in c.tables && b in c.tables && a != b
    requires var d := Run(c, actions);
             a in d.tables && b in d.tables && Answerable(d.tables[a], d.tables[b], ping, ack, now)
    ensures var d := Run(c, actions);
            var p := PacketOf(d.tables[a], false, ping);
            var u := Receive(d.tables[b], p, now);
            && u.self in u.members
            && Exchanged(d, Run(c, actions + [SendPing(a, ping), ReceivePing(b, p, now, ack),
                                              ReceiveAck(a, PacketOf(u, true, ack), later, seed)]), a, b, seed)
  {
    var d := Run(c, actions);
    RunInv(c, actions);
    hide Run, Fresh, Inv, MembershipTable.Disseminates, Receive, Next, Exchanged;
    ExchangeEnds(d, a, b, ping, ack, now, later, seed);
    var p := PacketOf(d.tables[a], false, ping);
    RunAppend3(c, actions, SendPing(a, ping), ReceivePing(b, p, now, ack),
               ReceiveAck(a, PacketOf(Receive(d.tables[b], p, now), true, ack), later, seed));
  }

  lemma ReceiveSelf(t: Table, p: Packet, now: int)
    requires t.self in t.members
    ensures Receive(t, p, now).self == t.self && t.self in Receive(t, p, now).members
    ensures Receive(t, p, now).okEndpoint == t.okEndpoint
  {
  }

  lemma OthersRaised(own: map<NodeId, U64>, own': map<NodeId, U64>, id: NodeId, t: Table)
    requires Raised(own, own') && NodeOk(own, id, t)
    ensures NodeOk(own', id, t)
  {
  }

  /** A packet that states its sender's own incarnation revives the sender. */
  lemma FreshContact(own: map<NodeId, U64>, id: NodeId, t: Table, p: Packet, now: int)
    requires NodeOk(own, id, t) && PacketBehind(own, p) && Decodes(t, p) && p.incarnation == own[p.from] && ValidNodeId(p.from)
    ensures var u := Receive(t, p, now);
            && p.from in u.members && u.members[p.from].status == Alive
            && u.members[p.from].incarnation == own[p.from] && u.members[p.from].endpoint == p.endpoint
  {
    MergeBehind(own, id, t, p, now);
    var m := MergeAll(t, p.membership, now);
    ObserveKey(m, p.from, p.endpoint, p.incarnation, now);
    hide MergeAll, PacketBehind;
    assert Observable(m, p.from, p.endpoint, p.incarnation);
    ContactMade(m, p.from, p.endpoint, p.incarnation, now);
  }

  lemma InvNodeOf(c: State, actions: seq<Action>, id: NodeId)
    requires Fresh(c) && id in Run(c, actions).tables
    ensures ValidNodeId(id)
  {
    RunInv(c, actions);
    InvNode(Run(c, actions), id);
  }

  /** One step, as an operation on one table. */
  lemma StepKeepsIncarnations(c: State, a: Action)
    requires Inv(c)
    ensures forall o, n :: o in c.tables ==>
              o in Next(c, a).tables && Incarnation(c.tables[o], n) <= Incarnation(Next(c, a).tables[o], n)
  {
    hide Inv, Receive, TableValid, Incarnation, MembershipTable.Disseminates, MarkMissed, Timeouts, Decodes;
    var d := Next(c, a);
    if Enabled(c, a) {
      var t := c.tables[a.id];
      match a {
        case SendPing(id, batch) =>
        case ReceivePing(id, p, now, batch) => ReceiveKeeps(t, p, now, "");
        case ReceiveAck(id, p, now, seed) => ReceiveKeeps(t, p, now, seed);
        case ProbeFailed(id, endpoint) => ApplyKeeps(t, OpMissed(endpoint, SUSPECT_AFTER_MISS, DEAD_AFTER_MISS));
        case Tick(id, now, interval) =>
          ApplyKeeps(t, OpTimeouts(now, SUSPECT_AFTER_TICKS * interval, DEAD_AFTER_TICKS * interval));
      }
      assert forall n :: Incarnation(t, n) <= Incarnation(d.tables[a.id], n);
    }
    forall o, n | o in c.tables ensures o in d.tables && Incarnation(c.tables[o], n) <= Incarnation(d.tables[o], n) {
      assert o != a.id || !Enabled(c, a) ==> d.tables[o] == c.tables[o];
    }
  }

  lemma ReceiveKeeps(t: Table, p: Packet, now: int, seed: string)
    requires TableValid(t)
    ensures forall n :: Incarnation(t, n) <= Incarnation(Receive(t, p, now), n)
    ensures forall n :: Incarnation(t, n) <= Incarnation(Associate(Receive(t, p, now), p.from, seed), n)
  {
    var m := MergeAll(t, p.membership, now);
    ApplyKeeps(t, OpMerge(p.membership, now));
    ApplyKeeps(m, OpObserve(p.from, p.endpoint, p.incarnation, now));
    hide MergeAll, TableValid;
  }

  /** No table ever goes back to an older incarnation of anyone: once a refutation has arrived, the life it refutes
      is gone from that table for the rest of the run. */
  lemma {:induction false} IncarnationsNeverFall(c: State, actions: seq<Action>, i: nat)
    requires Fresh(c) && i <= |actions|
    ensures forall o, n :: o in c.tables ==>
              && o in Run(c, actions[..i]).tables && o in Run(c, actions).tables
              && Incarnation(Run(c, actions[..i]).tables[o], n) <= Incarnation(Run(c, actions).tables[o], n)
    decreases |actions|
  {
    hide Inv, Next, Incarnation, Fresh;
    RunInv(c, actions[..i]);
    RunInv(c, actions);
    if i == |actions| {
      assert actions[..i] == actions;
    } else {
      var init := actions[..|actions| - 1];
      assert init[..i] == actions[..i];
      IncarnationsNeverFall(c, init, i);
      RunInv(c, init);
      StepKeepsIncarnations(Run(c, init), actions[|actions| - 1]);
    }
  }

  // ---------------------------------------------------------------- the Bootstrapper object

  class Bootstrapper {
    const table: MembershipTable.Table

    constructor (table: MembershipTable.Table)
      ensures this.table == table
    {
      this.table := table;
    }

    /** newPingPayload and newAckPayload. */
    method NewPayload(ack: bool, shuffled: seq<Entry>) returns (p: Packet)
      requires table.Valid() && MembershipTable.Shuffles(table.Value(), shuffled)
      ensures p == PacketOf(table.Value(), ack, p.membership)
      ensures MembershipTable.Disseminates(table.Value(), p.membership)
    {
      hide TableValid;
      var self := table.SelfEntry();
      var batch := table.DisseminatedMembership(shuffled);
      p := Packet(ack, self.node, self.endpoint, self.incarnation, batch);
    }

    /** The listener on a Ping: merge first, observe the sender second, answer from the table that results. */
    method HandlePing(p: Packet, now: int, shuffled: seq<Entry>) returns (ack: Option<Packet>)
      requires table.Valid()
      requires MembershipTable.Shuffles(Receive(table.Value(), p, now), shuffled)
      modifies table
      ensures table.Valid() && table.Value() == Receive(old(table.Value()), p, now)
      ensures ack.Some? <==> Decodes(old(table.Value()), p)
      ensures ack.Some? ==>
                && ack.value == PacketOf(table.Value(), true, ack.value.membership)
                && MembershipTable.Disseminates(table.Value(), ack.value.membership)
    {
      hide TableValid, MergeAll, MembershipTable.Shuffles, MembershipTable.Disseminates, Observe;
      if p.from == table.selfNodeID || !table.okEndpoint(p.endpoint) || p.incarnation == 0 {
        return None;
      }
      var _ := table.Merge(p.membership, now);
      var _ := table.ObserveAlive(p.from, p.endpoint, p.incarnation, now);
      var payload := NewPayload(true, shuffled);
      ack := Some(payload);
    }

    /** joinSeed on the Ack to its Ping: the address that was dialled becomes one more way to reach the sender. */
    method HandleAck(p: Packet, now: int, seed: string) returns (ok: bool)
      requires table.Valid()
      modifies table
      ensures table.Valid() && ok == Decodes(old(table.Value()), p)
      ensures var u := Receive(old(table.Value()), p, now);
              table.Value() == if ok then Associate(u, p.from, seed) else u
    {
      hide TableValid, MergeAll, Observe;
      if p.from == table.selfNodeID || !table.okEndpoint(p.endpoint) || p.incarnation == 0 {
        return false;
      }
      var _ := table.Merge(p.membership, now);
      var _ := table.ObserveAlive(p.from, p.endpoint, p.incarnation, now);
      table.AssociateTarget(p.from, seed);
      ok := true;
    }
  }
}
