/** internal/membership/table.go as functions on tables, and the order that its records move in. */
module Membership {
  import opened Base

  datatype Status = Alive | Suspect | Dead | OtherStatus

  datatype Entry = Entry(node: NodeId, endpoint: string, status: Status, incarnation: U64)

  datatype Member = Member(endpoint: string, status: Status, incarnation: U64, lastSeen: int, missed: int)

  /** `okEndpoint` stands for the host:port check. */
  datatype Table = Table(self: NodeId, okEndpoint: string -> bool,
                         members: map<NodeId, Member>, byTarget: map<string, NodeId>)

  function Rank(s: Status): nat {
    match s case Alive => 1 case Suspect => 2 case Dead => 3 case OtherStatus => 0
  }

  /** incrementIncarnation saturates. */
  function Bump(i: U64): (r: U64)
    ensures r > i <==> i < MAX_U64
    ensures r >= i
  {
    if i == MAX_U64 then i else i + 1
  }

  predicate ValidEntry(t: Table, e: Entry) {
    ValidNodeId(e.node) && t.okEndpoint(e.endpoint) && e.incarnation != 0 && !e.status.OtherStatus?
  }

  function NewTable(self: NodeId, endpoint: string, incarnation: U64, now: int, okEndpoint: string -> bool): Table {
    Table(self, okEndpoint, map[self := Member(endpoint, Alive, if incarnation == 0 then 1 else incarnation, now, 0)],
          if endpoint == "" then map[] else map[endpoint := self])
  }

  /** A node always holds itself alive; every other record names a valid node at a valid endpoint; and every
      contact address belongs to a known member. */
  ghost predicate TableValid(t: Table) {
    && t.self in t.members && t.members[t.self].status == Alive
    && !t.okEndpoint("")
    && (forall n :: n in t.members ==> t.members[n].incarnation != 0 && !t.members[n].status.OtherStatus?)
    && (forall n :: n in t.members && n != t.self ==> ValidNodeId(n) && t.okEndpoint(t.members[n].endpoint))
    && (forall a :: a in t.byTarget ==> t.byTarget[a] in t.members)
  }

  function WithoutTargetsOf(byTarget: map<string, NodeId>, n: NodeId): map<string, NodeId> {
    map a | a in byTarget && byTarget[a] != n :: byTarget[a]
  }

  // ---------------------------------------------------------------- indirect evidence

  predicate Accuses(t: Table, e: Entry)
    requires t.self in t.members
  {
    ValidEntry(t, e) && e.node == t.self && e.status != Alive && e.incarnation >= t.members[t.self].incarnation
  }

  predicate Supersedes(e: Entry, m: Member) {
    e.incarnation > m.incarnation || (e.incarnation == m.incarnation && Rank(e.status) > Rank(m.status))
  }

  /** The body of Merge's loop for one entry; None when nothing changes. The branch that would fill in a missing
      endpoint is kept: TableValid shows that it is never taken. */
  function MergeOne(t: Table, e: Entry, now: int): Option<Table>
    requires t.self in t.members
  {
    if !ValidEntry(t, e) then None
    else if e.node == t.self then
      if Accuses(t, e) then
        var own := t.members[t.self].(incarnation := Bump(e.incarnation), status := Alive, lastSeen := now, missed := 0);
        Some(t.(members := t.members[t.self := own]))
      else None
    else if e.node in t.members && !Supersedes(e, t.members[e.node]) then
      var m := t.members[e.node];
      if m.endpoint == "" && e.endpoint != "" && e.incarnation == m.incarnation then
        Some(t.(members := t.members[e.node := m.(endpoint := e.endpoint)], byTarget := t.byTarget[e.endpoint := e.node]))
      else None
    else
      var fresher := e.node in t.members && e.incarnation > t.members[e.node].incarnation;
      var targets := if fresher then WithoutTargetsOf(t.byTarget, e.node) else t.byTarget;
      Some(t.(members := t.members[e.node := Member(e.endpoint, e.status, e.incarnation, now, 0)],
              byTarget := if e.endpoint != "" then targets[e.endpoint := e.node] else targets))
  }

  function AfterOne(t: Table, e: Entry, now: int): (r: Table)
    requires t.self in t.members
    ensures r.self == t.self && r.self in r.members && r.okEndpoint == t.okEndpoint
  {
    match MergeOne(t, e, now) case None => t case Some(r) => r
  }

  function MergeAll(t: Table, es: seq<Entry>, now: int): (r: Table)
    requires t.self in t.members
    ensures r.self == t.self && r.self in r.members && r.okEndpoint == t.okEndpoint
  {
    if es == [] then t else AfterOne(MergeAll(t, es[..|es| - 1], now), es[|es| - 1], now)
  }

  /** Merge's result. */
  predicate MergeChanges(t: Table, es: seq<Entry>, now: int)
    requires t.self in t.members
  {
    es != [] && (MergeChanges(t, es[..|es| - 1], now)
                 || MergeOne(MergeAll(t, es[..|es| - 1], now), es[|es| - 1], now).Some?)
  }

  // ---------------------------------------------------------------- direct evidence and failure detection

  predicate Observable(t: Table, n: NodeId, endpoint: string, incarnation: U64) {
    && ValidNodeId(n) && n != t.self && t.okEndpoint(endpoint) && incarnation != 0
    && !(n in t.members && incarnation < t.members[n].incarnation)
  }

  function Observe(t: Table, n: NodeId, endpoint: string, incarnation: U64, now: int): Table {
    if !Observable(t, n, endpoint, incarnation) then t
    else
      var stale := n in t.members && (incarnation > t.members[n].incarnation || t.members[n].endpoint != endpoint);
      var targets := if stale then WithoutTargetsOf(t.byTarget, n) else t.byTarget;
      t.(members := t.members[n := Member(endpoint, Alive, incarnation, now, 0)], byTarget := targets[endpoint := n])
  }

  predicate ObserveChanges(t: Table, n: NodeId, endpoint: string, incarnation: U64) {
    && Observable(t, n, endpoint, incarnation)
    && (n !in t.members || t.members[n].status != Alive || t.members[n].incarnation != incarnation
        || t.members[n].endpoint != endpoint)
  }

  function Associate(t: Table, n: NodeId, target: string): Table {
    if n == "" || target == "" || n !in t.members then t else t.(byTarget := t.byTarget[target := n])
  }

  function Missed(m: Member, suspectAfter: int, deadAfter: int): Member {
    var k := m.missed + 1;
    m.(missed := k, status := if k >= deadAfter then Dead else if k >= suspectAfter then Suspect else m.status)
  }

  function MarkMissed(t: Table, endpoint: string, suspectAfter: int, deadAfter: int): Table
    requires TableValid(t)
  {
    if endpoint !in t.byTarget || t.byTarget[endpoint] == t.self then t
    else
      var n := t.byTarget[endpoint];
      t.(members := t.members[n := Missed(t.members[n], suspectAfter, deadAfter)])
  }

  function TimedOut(m: Member, now: int, suspectAfter: int, deadAfter: int): Member {
    var since := now - m.lastSeen;
    if since >= deadAfter then m.(status := Dead)
    else if since >= suspectAfter && m.status == Alive then m.(status := Suspect)
    else m
  }

  function Timeouts(t: Table, now: int, suspectAfter: int, deadAfter: int): Table {
    t.(members := map n | n in t.members ::
         if n == t.self then t.members[n] else TimedOut(t.members[n], now, suspectAfter, deadAfter))
  }

  // ---------------------------------------------------------------- the order

  /** Incarnation first, status second, in one number; an unknown node is 0. */
  function Key(t: Table, n: NodeId): nat {
    if n in t.members then 4 * t.members[n].incarnation + Rank(t.members[n].status) else 0
  }

  function Incarnation(t: Table, n: NodeId): U64 {
    if n in t.members then t.members[n].incarnation else 0
  }

  function EndpointOf(t: Table, n: NodeId): string {
    if n in t.members then t.members[n].endpoint else ""
  }

  function Larger(a: nat, b: nat): nat {
    if a > b then a else b
  }

  /** What an entry asks for about its node: for a peer, the record itself; for the receiver, an answer just above
      an accusation. */
  function Claim(t: Table, e: Entry): nat {
    if !ValidEntry(t, e) then 0
    else if e.node != t.self then 4 * e.incarnation + Rank(e.status)
    else if e.status == Alive then 0
    else 4 * Bump(e.incarnation) + Rank(Alive)
  }

  function Highest(t: Table, es: seq<Entry>, n: NodeId): nat {
    if es == [] then 0
    else
      var last := es[|es| - 1];
      Larger(Highest(t, es[..|es| - 1], n), if last.node == n then Claim(t, last) else 0)
  }

  /** The key determines what peers are told: incarnation and status. */
  lemma KeyDetermines(t: Table, u: Table, n: NodeId)
    requires TableValid(t) && TableValid(u) && Key(t, n) == Key(u, n)
    ensures n in t.members <==> n in u.members
    ensures n in t.members ==>
              t.members[n].incarnation == u.members[n].incarnation && t.members[n].status == u.members[n].status
  {
  }

  lemma MergeOneKey(t: Table, e: Entry, now: int)
    requires TableValid(t)
    ensures TableValid(AfterOne(t, e, now))
    ensures forall n :: Key(AfterOne(t, e, now), n) == Larger(Key(t, n), if e.node == n then Claim(t, e) else 0)
    ensures MergeOne(t, e, now).Some? <==>
              Claim(t, e) > Key(t, e.node)
              || (ValidEntry(t, e) && e.node == t.self && e.status != Alive && e.incarnation == MAX_U64)
  {
  }

  lemma ClaimFixed(t: Table, u: Table, es: seq<Entry>, n: NodeId)
    requires t.self == u.self && t.okEndpoint == u.okEndpoint
    ensures Highest(t, es, n) == Highest(u, es, n)
    ensures forall e :: Claim(t, e) == Claim(u, e)
  {
  }

  /** Merge is a pointwise maximum: for a peer, of the record known and every record received; for the node itself,
      of its own incarnation and one above every accusation. */
  lemma {:induction false} MergeIsMax(t: Table, es: seq<Entry>, now: int)
    requires TableValid(t)
    ensures TableValid(MergeAll(t, es, now))
    ensures forall n :: Key(MergeAll(t, es, now), n) == Larger(Key(t, n), Highest(t, es, n))
  {
    if es != [] {
      var init, last := es[..|es| - 1], es[|es| - 1];
      MergeIsMax(t, init, now);
      var u := MergeAll(t, init, now);
      MergeOneKey(u, last, now);
      forall n ensures Key(MergeAll(t, es, now), n) == Larger(Key(t, n), Highest(t, es, n)) {
        ClaimFixed(t, u, init, n);
      }
    }
  }

  ghost predicate Rises(t: Table, u: Table) {
    exists n :: Key(u, n) > Key(t, n)
  }

  lemma RisesCompose(t: Table, u: Table, v: Table)
    requires forall n :: Key(t, n) <= Key(u, n) <= Key(v, n)
    ensures Rises(t, v) <==> Rises(t, u) || Rises(u, v)
  {
    if Rises(t, u) {
      var n :| Key(u, n) > Key(t, n);
      assert Key(v, n) > Key(t, n);
    }
    if Rises(u, v) {
      var n :| Key(v, n) > Key(u, n);
      assert Key(v, n) > Key(t, n);
    }
    if Rises(t, v) {
      var n :| Key(v, n) > Key(t, n);
      assert Key(u, n) > Key(t, n) || Key(v, n) > Key(u, n);
    }
  }

  /** An accusation at the last incarnation cannot be answered from above. */
  predicate Unanswerable(t: Table, e: Entry) {
    ValidEntry(t, e) && e.node == t.self && e.status != Alive && e.incarnation == MAX_U64
  }

  lemma MergeLast(t: Table, es: seq<Entry>, now: int)
    requires t.self in t.members && es != []
    ensures MergeAll(t, es, now) == AfterOne(MergeAll(t, es[..|es| - 1], now), es[|es| - 1], now)
    ensures MergeChanges(t, es, now) <==>
              || MergeChanges(t, es[..|es| - 1], now)
              || MergeOne(MergeAll(t, es[..|es| - 1], now), es[|es| - 1], now).Some?
  {
    hide AfterOne, MergeOne;
  }

  /** What the last entry adds to the records and to the report. */
  lemma LastReports(t: Table, u: Table, e: Entry, now: int)
    requires TableValid(u) && t.self == u.self && t.okEndpoint == u.okEndpoint
    requires forall n :: Key(t, n) <= Key(u, n)
    ensures MergeOne(u, e, now).Some? <==> Rises(u, AfterOne(u, e, now)) || Unanswerable(t, e)
    ensures Rises(t, AfterOne(u, e, now)) <==> Rises(t, u) || Rises(u, AfterOne(u, e, now))
  {
    MergeOneKey(u, e, now);
    hide MergeOne, AfterOne, TableValid, Claim, Key, Rises;
    OneRises(u, e, AfterOne(u, e, now));
    RisesCompose(t, u, AfterOne(u, e, now));
  }

  /** Merge reports a change exactly when some record moved up, or an unanswerable accusation arrived, which is
      reported all the same. */
  lemma {:induction false} MergeReports(t: Table, es: seq<Entry>, now: int)
    requires TableValid(t)
    ensures MergeChanges(t, es, now) <==>
              Rises(t, MergeAll(t, es, now)) || (exists e :: e in es && Unanswerable(t, e))
  {
    if es != [] {
      var init, last := es[..|es| - 1], es[|es| - 1];
      assert es == init + [last];
      hide MergeAll, MergeChanges, TableValid, Rises, Key, Highest, Unanswerable, AfterOne, MergeOne;
      MergeReports(t, init, now);
      MergeIsMax(t, init, now);
      MergeLast(t, es, now);
      LastReports(t, MergeAll(t, init, now), last, now);
    }
  }

  lemma OneRises(u: Table, e: Entry, v: Table)
    requires forall n :: Key(v, n) == Larger(Key(u, n), if e.node == n then Claim(u, e) else 0)
    ensures Rises(u, v) <==> Claim(u, e) > Key(u, e.node)
  {
    if Claim(u, e) > Key(u, e.node) {
      assert Key(v, e.node) > Key(u, e.node);
    }
  }

  lemma {:induction false} HighestBounds(t: Table, es: seq<Entry>, n: NodeId)
    ensures forall e :: e in es && e.node == n ==> Claim(t, e) <= Highest(t, es, n)
    ensures Highest(t, es, n) == 0 || exists e :: e in es && e.node == n && Claim(t, e) == Highest(t, es, n)
  {
    if es != [] {
      var init, last := es[..|es| - 1], es[|es| - 1];
      HighestBounds(t, init, n);
      assert es == init + [last];
      assert last in es;
    }
  }

  // ---------------------------------------------------------------- order, batching and duplication

  datatype Batch = Batch(entries: seq<Entry>, now: int)

  function MergeBatches(t: Table, bs: seq<Batch>): (r: Table)
    requires t.self in t.members
    ensures r.self == t.self && r.self in r.members && r.okEndpoint == t.okEndpoint
  {
    if bs == [] then t
    else MergeAll(MergeBatches(t, bs[..|bs| - 1]), bs[|bs| - 1].entries, bs[|bs| - 1].now)
  }

  function Flatten(bs: seq<Batch>): seq<Entry> {
    if bs == [] then [] else Flatten(bs[..|bs| - 1]) + bs[|bs| - 1].entries
  }

  lemma {:induction false} HighestConcat(t: Table, es: seq<Entry>, fs: seq<Entry>, n: NodeId)
    ensures Highest(t, es + fs, n) == Larger(Highest(t, es, n), Highest(t, fs, n))
  {
    if fs == [] {
      assert es + fs == es;
    } else {
      assert (es + fs)[..|es + fs| - 1] == es + fs[..|fs| - 1];
      HighestConcat(t, es, fs[..|fs| - 1], n);
    }
  }

  lemma {:induction false} BatchesAreMax(t: Table, bs: seq<Batch>)
    requires TableValid(t)
    ensures TableValid(MergeBatches(t, bs))
    ensures forall n :: Key(MergeBatches(t, bs), n) == Larger(Key(t, n), Highest(t, Flatten(bs), n))
  {
    if bs != [] {
      var init, last := bs[..|bs| - 1], bs[|bs| - 1];
      BatchesAreMax(t, init);
      var u := MergeBatches(t, init);
      MergeIsMax(u, last.entries, last.now);
      forall n ensures Key(MergeBatches(t, bs), n) == Larger(Key(t, n), Highest(t, Flatten(bs), n)) {
        ClaimFixed(t, u, last.entries, n);
        HighestConcat(t, Flatten(init), last.entries, n);
      }
    }
  }

  /** Two nodes in the same state that were told the same facts agree, whatever the order, the batching, the
      duplication and the times: the same members, with the same incarnations and statuses. */
  lemma MergeIndependent(t: Table, bs: seq<Batch>, cs: seq<Batch>)
    requires TableValid(t) && forall e :: e in Flatten(bs) <==> e in Flatten(cs)
    ensures MergeBatches(t, bs).members.Keys == MergeBatches(t, cs).members.Keys
    ensures forall n :: n in MergeBatches(t, bs).members ==>
              && MergeBatches(t, bs).members[n].incarnation == MergeBatches(t, cs).members[n].incarnation
              && MergeBatches(t, bs).members[n].status == MergeBatches(t, cs).members[n].status
  {
    var u, v := MergeBatches(t, bs), MergeBatches(t, cs);
    BatchesAreMax(t, bs);
    BatchesAreMax(t, cs);
    forall n ensures n in u.members <==> n in v.members
      ensures n in u.members ==> u.members[n].incarnation == v.members[n].incarnation
                                 && u.members[n].status == v.members[n].status
    {
      HighestBounds(t, Flatten(bs), n);
      HighestBounds(t, Flatten(cs), n);
      KeyDetermines(u, v, n);
    }
  }

  lemma MergeTwo(t: Table, x: Entry, y: Entry)
    requires t.self in t.members
    ensures MergeAll(t, [x, y], 0) == AfterOne(AfterOne(t, x, 0), y, 0)
  {
    hide AfterOne;
    assert [x, y][..1] == [x] && [x][..0] == [];
    assert MergeAll(t, [], 0) == t;
    assert MergeAll(t, [x], 0) == AfterOne(t, x, 0);
  }

  // ---------------------------------------------------------------- endpoints: the first one wins

  /** The endpoint in the first entry about `n` whose claim is `key`; empty when there is none. */
  function FirstAt(t: Table, es: seq<Entry>, n: NodeId, key: nat): string {
    if es == [] then ""
    else if es[0].node == n && Claim(t, es[0]) == key then es[0].endpoint
    else FirstAt(t, es[1..], n, key)
  }

  lemma {:induction false} FirstAtAppend(t: Table, es: seq<Entry>, e: Entry, n: NodeId, key: nat)
    ensures FirstAt(t, es + [e], n, key) ==
            if exists x :: x in es && x.node == n && Claim(t, x) == key then FirstAt(t, es, n, key)
            else if e.node == n && Claim(t, e) == key then e.endpoint else ""
  {
    if es == [] {
      assert es + [e] == [e];
    } else {
      assert (es + [e])[0] == es[0] && (es + [e])[1..] == es[1..] + [e];
      FirstAtAppend(t, es[1..], e, n, key);
      assert es == [es[0]] + es[1..];
    }
  }

  lemma AfterOneEndpoint(t: Table, e: Entry, now: int, n: NodeId)
    requires TableValid(t) && n != t.self
    ensures EndpointOf(AfterOne(t, e, now), n) ==
            if e.node == n && Claim(t, e) > Key(t, n) then e.endpoint else EndpointOf(t, n)
  {
  }

  /** Merge keeps a peer's endpoint unless the peer's record rises, and then takes the endpoint of the first entry
      that carries the highest claim. */
  lemma {:induction false} MergeEndpoint(t: Table, es: seq<Entry>, now: int, n: NodeId)
    requires TableValid(t) && n != t.self
    ensures EndpointOf(MergeAll(t, es, now), n) ==
            if Key(t, n) >= Highest(t, es, n) then EndpointOf(t, n) else FirstAt(t, es, n, Highest(t, es, n))
  {
    if es != [] {
      var init, last := es[..|es| - 1], es[|es| - 1];
      assert es == init + [last];
      var u := MergeAll(t, init, now);
      hide MergeAll, MergeChanges, AfterOne, TableValid, EndpointOf, Claim, Key, FirstAt, MergeOne;
      MergeEndpoint(t, init, now, n);
      MergeIsMax(t, init, now);
      MergeLast(t, es, now);
      AfterOneEndpoint(u, last, now, n);
      ClaimFixed(t, u, init, n);
      HighestBounds(t, init, n);
      FirstAtAppend(t, init, last, n, Highest(t, es, n));
    }
  }

  /** All entries about `n` that carry the highest claim name one endpoint. */
  ghost predicate OneEndpoint(t: Table, es: seq<Entry>, n: NodeId) {
    forall x, y :: x in es && y in es && AtTop(t, es, n, x) && AtTop(t, es, n, y) ==> x.endpoint == y.endpoint
  }

  predicate AtTop(t: Table, es: seq<Entry>, n: NodeId, e: Entry) {
    e.node == n && Claim(t, e) == Highest(t, es, n)
  }

  lemma {:induction false} FirstAtIs(t: Table, es: seq<Entry>, n: NodeId, key: nat)
    requires exists x :: x in es && x.node == n && Claim(t, x) == key
    ensures exists x: Entry :: x in es && x.node == n && Claim(t, x) == key && x.endpoint == FirstAt(t, es, n, key)
  {
    if !(es[0].node == n && Claim(t, es[0]) == key) {
      assert es == [es[0]] + es[1..];
      FirstAtIs(t, es[1..], n, key);
      var x: Entry :| x in es[1..] && x.node == n && Claim(t, x) == key && x.endpoint == FirstAt(t, es[1..], n, key);
      assert x in es;
    } else {
      assert es[0] in es;
    }
  }

  lemma SameElementsSameHighest(t: Table, es: seq<Entry>, fs: seq<Entry>, n: NodeId)
    requires forall e :: e in es <==> e in fs
    ensures Highest(t, es, n) == Highest(t, fs, n)
  {
    HighestBounds(t, es, n);
    HighestBounds(t, fs, n);
  }

  /** One of the entries moved to the front. */
  lemma ToFront(es: seq<Entry>, z: Entry) returns (fs: seq<Entry>)
    requires z in es
    ensures fs != [] && fs[0] == z && multiset(fs) == multiset(es)
  {
    var i :| 0 <= i < |es| && es[i] == z;
    fs := [z] + es[..i] + es[i + 1..];
    assert es == es[..i] + [z] + es[i + 1..];
  }

  ghost predicate OrderFree(t: Table, es: seq<Entry>, now: int, n: NodeId)
    requires t.self in t.members
  {
    forall fs :: multiset(fs) == multiset(es) ==>
      EndpointOf(MergeAll(t, fs, now), n) == EndpointOf(MergeAll(t, es, now), n)
  }

  /** Endpoints are not part of what MergeIndependent says: the order of a batch cannot matter to a peer's endpoint
      if and only if the record does not rise, or all entries with the highest claim name one endpoint. */
  lemma EndpointsFirstWin(t: Table, es: seq<Entry>, now: int, n: NodeId)
    requires TableValid(t) && n != t.self
    ensures OrderFree(t, es, now, n) <==> Key(t, n) >= Highest(t, es, n) || OneEndpoint(t, es, n)
  {
    var h := Highest(t, es, n);
    assert t.self in t.members;
    hide MergeAll, TableValid, EndpointOf, Claim, Key, Highest, FirstAt;
    MergeEndpoint(t, es, now, n);
    if Key(t, n) >= h || OneEndpoint(t, es, n) {
      forall fs | multiset(fs) == multiset(es)
        ensures EndpointOf(MergeAll(t, fs, now), n) == EndpointOf(MergeAll(t, es, now), n)
      {
        SameMembers(fs, es);
        SameElementsSameHighest(t, es, fs, n);
        MergeEndpoint(t, fs, now, n);
        if Key(t, n) < h {
          HighestBounds(t, es, n);
          FirstAtIs(t, es, n, h);
          FirstAtIs(t, fs, n, h);
          var x: Entry :| x in es && x.node == n && Claim(t, x) == h && x.endpoint == FirstAt(t, es, n, h);
          var y: Entry :| y in fs && y.node == n && Claim(t, y) == h && y.endpoint == FirstAt(t, fs, n, h);
          assert AtTop(t, es, n, x) && AtTop(t, es, n, y);
        }
      }
    } else {
      var x: Entry, y: Entry :| x in es && y in es && AtTop(t, es, n, x) && AtTop(t, es, n, y) && x.endpoint != y.endpoint;
      var fs := ToFront(es, x);
      var gs := ToFront(es, y);
      SameMembers(fs, es);
      SameMembers(gs, es);
      SameElementsSameHighest(t, es, fs, n);
      SameElementsSameHighest(t, es, gs, n);
      MergeEndpoint(t, fs, now, n);
      MergeEndpoint(t, gs, now, n);
      FirstAtHead(t, fs, n, h);
      FirstAtHead(t, gs, n, h);
    }
  }

  lemma FirstAtHead(t: Table, es: seq<Entry>, n: NodeId, key: nat)
    requires es != [] && es[0].node == n && Claim(t, es[0]) == key
    ensures FirstAt(t, es, n, key) == es[0].endpoint
  {
  }

  lemma SameMembers(es: seq<Entry>, fs: seq<Entry>)
    requires multiset(es) == multiset(fs)
    ensures forall e :: e in es <==> e in fs
  {
    forall e ensures e in es <==> e in fs {
      assert e in es <==> e in multiset(es);
      assert e in fs <==> e in multiset(fs);
    }
  }

  /** Two records of the same life, one batch: whoever is named first is kept. */
  lemma EndpointsDiffer(self: NodeId, peer: NodeId)
    requires self != peer && ValidNodeId(peer)
    ensures var t := NewTable(self, "", 1, 0, (s: string) => s != "");
            var x, y := Entry(peer, "a:1", Alive, 7), Entry(peer, "b:1", Alive, 7);
            TableValid(t)
            && MergeAll(t, [x, y], 0).members[peer].endpoint == "a:1"
            && MergeAll(t, [y, x], 0).members[peer].endpoint == "b:1"
  {
    var t := NewTable(self, "", 1, 0, (s: string) => s != "");
    var x, y := Entry(peer, "a:1", Alive, 7), Entry(peer, "b:1", Alive, 7);
    MergeTwo(t, x, y);
    MergeTwo(t, y, x);
    hide MergeAll;
  }

  // ---------------------------------------------------------------- every operation

  /** Direct evidence puts a node at exactly its stated incarnation, alive; it lowers a record only by clearing a
      suspicion or a death at the same incarnation. */
  lemma ObserveKey(t: Table, n: NodeId, endpoint: string, incarnation: U64, now: int)
    requires TableValid(t)
    ensures var u := Observe(t, n, endpoint, incarnation, now);
            && TableValid(u)
            && (forall o :: o != n ==> Key(u, o) == Key(t, o))
            && Incarnation(u, n) >= Incarnation(t, n)
            && (Observable(t, n, endpoint, incarnation) ==> Key(u, n) == 4 * incarnation + 1)
            && (Key(u, n) < Key(t, n) <==>
                  Observable(t, n, endpoint, incarnation) && n in t.members
                  && incarnation == t.members[n].incarnation && t.members[n].status != Alive)
            && (ObserveChanges(t, n, endpoint, incarnation) <==>
                  Key(u, n) != Key(t, n) || EndpointOf(u, n) != EndpointOf(t, n))
  {
  }

  /** A missed probe touches one member's status; it moves the record down in exactly one case: the member was dead,
      and its count of misses lies between the two thresholds. */
  lemma MarkMissedKey(t: Table, endpoint: string, suspectAfter: int, deadAfter: int)
    requires TableValid(t)
    ensures var u := MarkMissed(t, endpoint, suspectAfter, deadAfter);
            && TableValid(u)
            && (forall n :: Incarnation(u, n) == Incarnation(t, n))
            && (forall n :: Key(u, n) < Key(t, n) <==>
                  && endpoint in t.byTarget && t.byTarget[endpoint] == n && n != t.self
                  && t.members[n].status == Dead
                  && suspectAfter <= t.members[n].missed + 1 < deadAfter)
  {
  }

  /** That case occurs with the thresholds in use: a member reported dead whose third probe in a row is missed. */
  lemma DeadBecomesSuspect(t: Table, n: NodeId, endpoint: string)
    requires TableValid(t) && endpoint in t.byTarget && t.byTarget[endpoint] == n && n != t.self
    requires t.members[n].status == Dead && t.members[n].missed == 2
    ensures MarkMissed(t, endpoint, 3, 6).members[n].status == Suspect
    ensures Key(MarkMissed(t, endpoint, 3, 6), n) < Key(t, n)
  {
  }

  /** A missed probe is charged to the member behind the address: one more miss for it, nothing for anyone else, and
      nothing at all for an unknown address or the node's own. */
  lemma ProbeCharged(t: Table, endpoint: string, suspectAfter: int, deadAfter: int)
    requires TableValid(t)
    ensures var u := MarkMissed(t, endpoint, suspectAfter, deadAfter);
            && u.members.Keys == t.members.Keys && u.byTarget == t.byTarget
            && (forall n :: n in t.members && !(endpoint in t.byTarget && t.byTarget[endpoint] == n && n != t.self) ==>
                  u.members[n] == t.members[n])
            && (endpoint in t.byTarget && t.byTarget[endpoint] != t.self ==>
                  var n := t.byTarget[endpoint];
                  && u.members[n].missed == t.members[n].missed + 1
                  && u.members[n].lastSeen == t.members[n].lastSeen && u.members[n].endpoint == t.members[n].endpoint)
  {
  }

  function MissedTimes(t: Table, endpoint: string, suspectAfter: int, deadAfter: int, k: nat): (u: Table)
    requires TableValid(t)
    ensures TableValid(u) && u.byTarget == t.byTarget && u.self == t.self && u.members.Keys == t.members.Keys
  {
    if k == 0 then t
    else
      var u := MissedTimes(t, endpoint, suspectAfter, deadAfter, k - 1);
      MarkMissedKey(u, endpoint, suspectAfter, deadAfter);
      ProbeCharged(u, endpoint, suspectAfter, deadAfter);
      MarkMissed(u, endpoint, suspectAfter, deadAfter)
  }

  /** What `k` misses in a row amount to. */
  predicate Counted(t: Table, n: NodeId, k: nat, suspectAfter: int, deadAfter: int) {
    && n in t.members && t.members[n].missed == k
    && t.members[n].status == if k >= deadAfter then Dead else if k >= suspectAfter then Suspect else Alive
  }

  lemma ProbeCounted(t: Table, n: NodeId, endpoint: string, k: nat, suspectAfter: int, deadAfter: int)
    requires TableValid(t) && endpoint in t.byTarget && t.byTarget[endpoint] == n && n != t.self
    requires Counted(t, n, k, suspectAfter, deadAfter) && suspectAfter <= deadAfter
    ensures Counted(MarkMissed(t, endpoint, suspectAfter, deadAfter), n, k + 1, suspectAfter, deadAfter)
  {
    ProbeStatus(t, endpoint, suspectAfter, deadAfter);
  }

  /** How failure detection proceeds: from the last contact on, misses in a row make a member suspect and then dead, at
      exactly the thresholds. */
  lemma {:induction false} MissesAccumulate(t: Table, n: NodeId, endpoint: string, suspectAfter: int, deadAfter: int, k: nat)
    requires TableValid(t) && 0 < suspectAfter <= deadAfter
    requires endpoint in t.byTarget && t.byTarget[endpoint] == n && n != t.self
    requires n in t.members && t.members[n].status == Alive && t.members[n].missed == 0
    ensures Counted(MissedTimes(t, endpoint, suspectAfter, deadAfter, k), n, k, suspectAfter, deadAfter)
  {
    hide TableValid, MarkMissed, MissedTimes;
    MissedOnceMore(t, endpoint, suspectAfter, deadAfter, k);
    if k > 0 {
      hide Counted;
      MissesAccumulate(t, n, endpoint, suspectAfter, deadAfter, k - 1);
      ProbeCounted(MissedTimes(t, endpoint, suspectAfter, deadAfter, k - 1), n, endpoint, k - 1, suspectAfter, deadAfter);
    }
  }

  lemma MissedOnceMore(t: Table, endpoint: string, suspectAfter: int, deadAfter: int, k: nat)
    requires TableValid(t)
    ensures MissedTimes(t, endpoint, suspectAfter, deadAfter, k) ==
            if k == 0 then t
            else MarkMissed(MissedTimes(t, endpoint, suspectAfter, deadAfter, k - 1), endpoint, suspectAfter, deadAfter)
  {
    hide TableValid, MarkMissed;
  }

  /** One miss more, and the status that the count then calls for, if it calls for one. */
  lemma ProbeStatus(t: Table, endpoint: string, suspectAfter: int, deadAfter: int)
    requires TableValid(t) && endpoint in t.byTarget && t.byTarget[endpoint] != t.self
    ensures var n := t.byTarget[endpoint];
            var u := MarkMissed(t, endpoint, suspectAfter, deadAfter);
            && n in t.members && n in u.members && u.members[n].missed == t.members[n].missed + 1
            && u.members[n].status == (if t.members[n].missed + 1 >= deadAfter then Dead
                                       else if t.members[n].missed + 1 >= suspectAfter then Suspect else t.members[n].status)
  {
  }

  // ---------------------------------------------------------------- contact addresses and times

  /** Direct contact makes the address the member's, takes every other address from it if its life or its endpoint is new,
      forgives its misses, and starts its clock. */
  lemma ContactMade(t: Table, n: NodeId, endpoint: string, incarnation: U64, now: int)
    requires TableValid(t) && Observable(t, n, endpoint, incarnation)
    ensures var u := Observe(t, n, endpoint, incarnation, now);
            && n in u.members && u.members[n].endpoint == endpoint && u.members[n].missed == 0 && u.members[n].lastSeen == now
            && endpoint in u.byTarget && u.byTarget[endpoint] == n
            && (forall m :: m in t.members && m != n ==> m in u.members && u.members[m] == t.members[m])
            && (forall a :: a != endpoint && a in u.byTarget ==> a in t.byTarget && u.byTarget[a] == t.byTarget[a])
            && (forall a :: a in t.byTarget && t.byTarget[a] != n ==> a in u.byTarget)
            && (n in t.members && (incarnation > t.members[n].incarnation || endpoint != t.members[n].endpoint) ==>
                  forall a :: a in u.byTarget && u.byTarget[a] == n ==> a == endpoint)
  {
  }

  /** A record that is accepted from others does the same for its node, except that a new endpoint of the same life leaves
      the old addresses in place. */
  lemma RecordTaken(t: Table, e: Entry, now: int)
    requires TableValid(t) && e.node != t.self && Claim(t, e) > Key(t, e.node)
    ensures var u := AfterOne(t, e, now);
            && e.node in u.members && u.members[e.node] == Member(e.endpoint, e.status, e.incarnation, now, 0)
            && e.endpoint in u.byTarget && u.byTarget[e.endpoint] == e.node
            && (forall m :: m in t.members && m != e.node ==> m in u.members && u.members[m] == t.members[m])
            && (e.node in t.members && e.incarnation > t.members[e.node].incarnation ==>
                  forall a :: a in u.byTarget && u.byTarget[a] == e.node ==> a == e.endpoint)
  {
    assert e.node in t.members ==> !t.members[e.node].status.OtherStatus?;
  }

  /** An address that was dialled leads to the member that answered, and nothing else changes. */
  lemma DialledAddress(t: Table, n: NodeId, target: string)
    requires TableValid(t) && n in t.members && n != "" && target != ""
    ensures var u := Associate(t, n, target);
            && target in u.byTarget && u.byTarget[target] == n && u.members == t.members
            && forall a :: a != target ==> (a in u.byTarget <==> a in t.byTarget) && (a in t.byTarget ==> u.byTarget[a] == t.byTarget[a])
  {
  }

  /** The clock that contact starts: no timeout before `suspectAfter` touches the member, the next ones make it suspect, and
      from `deadAfter` on it is dead. */
  lemma ContactTimesOut(t: Table, n: NodeId, endpoint: string, incarnation: U64, now: int, later: int, suspectAfter: int,
                        deadAfter: int)
    requires TableValid(t) && Observable(t, n, endpoint, incarnation) && suspectAfter <= deadAfter
    ensures var u := Timeouts(Observe(t, n, endpoint, incarnation, now), later, suspectAfter, deadAfter);
            n in u.members && u.members[n].status ==
              if later - now >= deadAfter then Dead else if later - now >= suspectAfter then Suspect else Alive
  {
  }

  /** Timeouts only raise statuses: the result is the maximum of the record and what the silence calls for. */
  lemma TimeoutsKey(t: Table, now: int, suspectAfter: int, deadAfter: int)
    requires TableValid(t)
    ensures TableValid(Timeouts(t, now, suspectAfter, deadAfter))
    ensures forall n :: n in t.members && n != t.self ==>
              Key(Timeouts(t, now, suspectAfter, deadAfter), n) ==
              Larger(Key(t, n), 4 * t.members[n].incarnation
                                + (if now - t.members[n].lastSeen >= deadAfter then 3
                                   else if now - t.members[n].lastSeen >= suspectAfter then 2 else 0))
    ensures forall n :: n !in t.members || n == t.self ==>
              Key(Timeouts(t, now, suspectAfter, deadAfter), n) == Key(t, n)
    ensures forall n :: Incarnation(Timeouts(t, now, suspectAfter, deadAfter), n) == Incarnation(t, n)
  {
  }

  datatype Operation =
    | OpMerge(entries: seq<Entry>, now: int)
    | OpObserve(node: NodeId, endpoint: string, incarnation: U64, now: int)
    | OpAssociate(node: NodeId, endpoint: string)
    | OpMissed(endpoint: string, suspectAfter: int, deadAfter: int)
    | OpTimeouts(now: int, suspectAfter: int, deadAfter: int)

  function Apply(t: Table, op: Operation): Table
    requires TableValid(t)
  {
    match op
    case OpMerge(es, now) => MergeAll(t, es, now)
    case OpObserve(n, endpoint, incarnation, now) => Observe(t, n, endpoint, incarnation, now)
    case OpAssociate(n, target) => Associate(t, n, target)
    case OpMissed(endpoint, s, d) => MarkMissed(t, endpoint, s, d)
    case OpTimeouts(now, s, d) => Timeouts(t, now, s, d)
  }

  /** What every operation keeps: a valid table, the node's own identity, every member, and every incarnation from
      falling. */
  lemma ApplyKeeps(t: Table, op: Operation)
    requires TableValid(t)
    ensures var u := Apply(t, op);
            && TableValid(u) && u.self == t.self && u.okEndpoint == t.okEndpoint
            && t.members.Keys <= u.members.Keys
            && (forall n :: Incarnation(t, n) <= Incarnation(u, n))
  {
    match op
    case OpMerge(es, now) =>
      MergeIsMax(t, es, now);
      var u := Apply(t, op);
      forall n ensures Incarnation(t, n) <= Incarnation(u, n) && (n in t.members ==> n in u.members) {
        assert Key(u, n) >= Key(t, n);
      }
    case OpObserve(n, endpoint, incarnation, now) => ObserveKey(t, n, endpoint, incarnation, now);
    case OpAssociate(n, target) =>
    case OpMissed(endpoint, s, d) => MarkMissedKey(t, endpoint, s, d);
    case OpTimeouts(now, s, d) => TimeoutsKey(t, now, s, d);
  }
}
