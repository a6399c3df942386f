/** The Table object of internal/membership, and what a node tells its peers from it. */
module MembershipTable {
  import opened Base
  import Protocol
  import M = Membership

  const MAX_DISSEMINATED: nat := 64

  function EntryOf(t: M.Table, n: NodeId): M.Entry
    requires n in t.members
  {
    M.Entry(n, t.members[n].endpoint, t.members[n].status, t.members[n].incarnation)
  }

  ghost function Contactable(t: M.Table): set<NodeId> {
    set n | n in t.members && t.members[n].endpoint != ""
  }

  /** The records that have an endpoint, in the order of their node ids. */
  ghost predicate Lists(t: M.Table, es: seq<M.Entry>) {
    && (forall n :: n in Contactable(t) <==> exists i :: 0 <= i < |es| && es[i].node == n)
    && (forall i :: 0 <= i < |es| ==> es[i].node in t.members && es[i] == EntryOf(t, es[i].node))
    && (forall i, j :: 0 <= i < j < |es| ==> StrLess(es[i].node, es[j].node))
  }

  /** A true, duplicate-free selection that is bounded and complete when it can be. The node's own record is left out
      exactly when it has no endpoint and the others fit. */
  ghost predicate Disseminates(t: M.Table, es: seq<M.Entry>)
    requires t.self in t.members
  {
    && |es| <= MAX_DISSEMINATED
    && (forall i :: 0 <= i < |es| ==> es[i].node in t.members && es[i] == EntryOf(t, es[i].node))
    && (forall i, j :: 0 <= i < j < |es| ==> es[i].node != es[j].node)
    && (|Contactable(t)| <= MAX_DISSEMINATED ==> forall n :: n in Contactable(t) ==> EntryOf(t, n) in es)
    && (EntryOf(t, t.self) in es <==> t.members[t.self].endpoint != "" || |Contactable(t)| > MAX_DISSEMINATED)
  }

  ghost predicate SortedMembers(t: M.Table, all: seq<(NodeId, M.Member)>) {
    && (forall n :: n in t.members ==> exists i :: 0 <= i < |all| && all[i].0 == n)
    && (forall i :: 0 <= i < |all| ==> all[i].0 in t.members && all[i].1 == t.members[all[i].0])
    && (forall i, j :: 0 <= i < j < |all| ==> StrLess(all[i].0, all[j].0))
  }

  function WithEndpoint(all: seq<(NodeId, M.Member)>): seq<M.Entry> {
    if all == [] then []
    else
      var (n, m) := all[|all| - 1];
      WithEndpoint(all[..|all| - 1])
      + (if m.endpoint == "" then [] else [M.Entry(n, m.endpoint, m.status, m.incarnation)])
  }

  /** Where each record of the result comes from, and that none is lost. */
  lemma {:induction false} WithEndpointFrom(all: seq<(NodeId, M.Member)>)
    requires forall i, j :: 0 <= i < j < |all| ==> StrLess(all[i].0, all[j].0)
    ensures forall e :: e in WithEndpoint(all) ==> e.endpoint != "" && FromSome(all, e)
    ensures forall i :: 0 <= i < |all| && all[i].1.endpoint != "" ==> RecordOf(all[i]) in WithEndpoint(all)
    ensures forall i, j :: 0 <= i < j < |WithEndpoint(all)| ==> StrLess(WithEndpoint(all)[i].node, WithEndpoint(all)[j].node)
  {
    if all != [] {
      var init, last := all[..|all| - 1], all[|all| - 1];
      WithEndpointFrom(init);
      var es := WithEndpoint(init);
      forall e | e in es ensures FromSome(all, e) && StrLess(e.node, last.0) {
        var i :| 0 <= i < |init| && e == RecordOf(init[i]);
        assert e == RecordOf(all[i]);
      }
      forall i | 0 <= i < |all| && all[i].1.endpoint != "" ensures RecordOf(all[i]) in WithEndpoint(all) {
        if i < |init| {
          assert RecordOf(init[i]) in es;
        }
      }
      if last.1.endpoint != "" {
        assert WithEndpoint(all) == es + [RecordOf(last)];
        assert FromSome(all, RecordOf(last));
        forall i, j | 0 <= i < j < |es| + 1
          ensures StrLess(WithEndpoint(all)[i].node, WithEndpoint(all)[j].node)
        {
          if j == |es| {
            assert es[i] in es;
          }
        }
      } else {
        assert WithEndpoint(all) == es;
      }
    }
  }

  function RecordOf(x: (NodeId, M.Member)): M.Entry {
    M.Entry(x.0, x.1.endpoint, x.1.status, x.1.incarnation)
  }

  ghost predicate FromSome(all: seq<(NodeId, M.Member)>, e: M.Entry) {
    exists i :: 0 <= i < |all| && e == RecordOf(all[i])
  }

  lemma WithEndpointLists(t: M.Table, all: seq<(NodeId, M.Member)>)
    requires SortedMembers(t, all)
    ensures Lists(t, WithEndpoint(all))
  {
    WithEndpointFrom(all);
    var es := WithEndpoint(all);
    forall i | 0 <= i < |es| ensures es[i].node in Contactable(t) && es[i] == EntryOf(t, es[i].node) {
      assert es[i] in es;
      var k :| 0 <= k < |all| && es[i] == RecordOf(all[k]);
    }
    forall n | n in Contactable(t) ensures exists i :: 0 <= i < |es| && es[i].node == n {
      var k :| 0 <= k < |all| && all[k].0 == n;
      assert RecordOf(all[k]) in es;
      var i :| 0 <= i < |es| && es[i] == RecordOf(all[k]);
    }
  }

  lemma TargetKnown(t: M.Table, endpoint: string)
    requires M.TableValid(t) && endpoint in t.byTarget
    ensures t.byTarget[endpoint] in t.members
  {
  }

  class Table {
    const selfNodeID: NodeId
    const okEndpoint: string -> bool
    var members: map<NodeId, M.Member>
    var byTarget: map<string, NodeId>

    function Value(): M.Table
      reads this
    {
      M.Table(selfNodeID, okEndpoint, members, byTarget)
    }

    ghost predicate Valid()
      reads this
    {
      M.TableValid(Value())
    }

    constructor (selfNodeID: NodeId, selfEndpoint: string, incarnation: U64, now: int, okEndpoint: string -> bool)
      requires !okEndpoint("")
      ensures Valid() && Value() == M.NewTable(selfNodeID, selfEndpoint, incarnation, now, okEndpoint)
    {
      this.selfNodeID := selfNodeID;
      this.okEndpoint := okEndpoint;
      members := map[selfNodeID := M.Member(selfEndpoint, M.Alive, if incarnation == 0 then 1 else incarnation, now, 0)];
      byTarget := if selfEndpoint != "" then map[selfEndpoint := selfNodeID] else map[];
    }

    method ObserveAlive(n: NodeId, endpoint: string, incarnation: U64, now: int) returns (changed: bool)
      requires Valid()
      modifies this
      ensures Valid()
      ensures Value() == M.Observe(old(Value()), n, endpoint, incarnation, now)
      ensures changed == M.ObserveChanges(old(Value()), n, endpoint, incarnation)
    {
      M.ObserveKey(Value(), n, endpoint, incarnation, now);
      if !ValidNodeId(n) || n == selfNodeID || !okEndpoint(endpoint) || incarnation == 0 {
        return false;
      }
      var known := n in members;
      if known && incarnation < members[n].incarnation {
        return false;
      }
      if known && (incarnation > members[n].incarnation || members[n].endpoint != endpoint) {
        ClearTargetsForNode(n);
      }
      changed := !known || members[n].status != M.Alive || members[n].incarnation != incarnation
                 || members[n].endpoint != endpoint;
      byTarget := byTarget[endpoint := n];
      members := members[n := M.Member(endpoint, M.Alive, incarnation, now, 0)];
    }

    /** One pass over the received entries; the outcome is the pointwise maximum of MergeIsMax. */
    method Merge(entries: seq<M.Entry>, now: int) returns (changed: bool)
      requires Valid()
      modifies this
      ensures Valid()
      ensures Value() == M.MergeAll(old(Value()), entries, now)
      ensures forall n :: M.Key(Value(), n) ==
                          M.Larger(old(M.Key(Value(), n)), M.Highest(old(Value()), entries, n))
      ensures changed == M.MergeChanges(old(Value()), entries, now)
    {
      hide M.Highest, M.Key;
      ghost var t := Value();
      changed := false;
      assert entries[..0] == [];
      for i := 0 to |entries|
        invariant Valid()
        invariant Value() == M.MergeAll(t, entries[..i], now)
        invariant changed == M.MergeChanges(t, entries[..i], now)
      {
        assert entries[..i + 1][..i] == entries[..i];
        var one := MergeEntry(entries[i], now);
        changed := changed || one;
      }
      assert entries[..|entries|] == entries;
      M.MergeIsMax(t, entries, now);
    }

    /** The body of the loop. */
    method MergeEntry(e: M.Entry, now: int) returns (changed: bool)
      requires Valid()
      modifies this
      ensures Valid()
      ensures Value() == M.AfterOne(old(Value()), e, now)
      ensures changed == M.MergeOne(old(Value()), e, now).Some?
    {
      M.MergeOneKey(Value(), e, now);
      if !M.ValidEntry(Value(), e) {
        return false;
      }
      if e.node == selfNodeID {
        var own := members[selfNodeID];
        if e.status != M.Alive && e.incarnation >= own.incarnation {
          members := members[selfNodeID := own.(incarnation := M.Bump(e.incarnation), status := M.Alive,
                                                lastSeen := now, missed := 0)];
          return true;
        }
        return false;
      }
      var known := e.node in members;
      var accept := !known || M.Supersedes(e, members[e.node]);
      if !accept {
        // Every other member has an endpoint, so there is never a missing one to fill in here.
        return false;
      }
      if known && e.incarnation > members[e.node].incarnation {
        ClearTargetsForNode(e.node);
      }
      members := members[e.node := M.Member(e.endpoint, e.status, e.incarnation, now, 0)];
      if e.endpoint != "" {
        byTarget := byTarget[e.endpoint := e.node];
      }
      return true;
    }

    method ClearTargetsForNode(n: NodeId)
      modifies this`byTarget
      ensures byTarget == M.WithoutTargetsOf(old(byTarget), n)
    {
      var todo := byTarget.Keys;
      while todo != {}
        invariant todo <= byTarget.Keys <= old(byTarget).Keys
        invariant forall a :: a in byTarget ==> byTarget[a] == old(byTarget)[a]
        invariant forall a :: a in old(byTarget) && a !in todo ==> (a in byTarget <==> old(byTarget)[a] != n)
        decreases todo
      {
        var a :| a in todo;
        if byTarget[a] == n {
          byTarget := byTarget - {a};
        }
        todo := todo - {a};
      }
    }

    method AssociateTarget(n: NodeId, target: string)
      requires Valid()
      modifies this`byTarget
      ensures Valid()
      ensures Value() == M.Associate(old(Value()), n, target)
    {
      if n == "" || target == "" {
        return;
      }
      if n in members {
        byTarget := byTarget[target := n];
      }
    }

    method MarkMissedByEndpoint(endpoint: string, suspectAfter: int, deadAfter: int)
      requires Valid()
      modifies this`members
      ensures Valid()
      ensures Value() == M.MarkMissed(old(Value()), endpoint, suspectAfter, deadAfter)
    {
      hide M.Key, M.Incarnation, M.TableValid;
      M.MarkMissedKey(Value(), endpoint, suspectAfter, deadAfter);
      if endpoint !in byTarget || byTarget[endpoint] == selfNodeID {
        return;
      }
      TargetKnown(Value(), endpoint);
      var n := byTarget[endpoint];
      var m := members[n];
      m := m.(missed := m.missed + 1);
      if m.missed >= deadAfter {
        m := m.(status := M.Dead);
      } else if m.missed >= suspectAfter {
        m := m.(status := M.Suspect);
      }
      members := members[n := m];
    }

    method ApplyTimeouts(now: int, suspectAfter: int, deadAfter: int)
      requires Valid()
      modifies this`members
      ensures Valid()
      ensures Value() == M.Timeouts(old(Value()), now, suspectAfter, deadAfter)
    {
      hide M.Key, M.TableValid;
      M.TimeoutsKey(Value(), now, suspectAfter, deadAfter);
      ghost var target := M.Timeouts(Value(), now, suspectAfter, deadAfter).members;
      var todo := members.Keys;
      while todo != {}
        invariant todo <= members.Keys == old(members).Keys
        invariant forall n :: n in members ==> members[n] == if n in todo then old(members)[n] else target[n]
        decreases todo
      {
        var n :| n in todo;
        todo := todo - {n};
        if n == selfNodeID {
          continue;
        }
        var m := members[n];
        var since := now - m.lastSeen;
        if since >= deadAfter {
          m := m.(status := M.Dead);
        } else if since >= suspectAfter && m.status == M.Alive {
          m := m.(status := M.Suspect);
        }
        members := members[n := m];
      }
      assert members == target;
    }

    method SelfEntry() returns (e: M.Entry)
      requires Valid()
      ensures e == EntryOf(Value(), selfNodeID) && e.status == M.Alive
    {
      var m := members[selfNodeID];
      e := M.Entry(selfNodeID, m.endpoint, m.status, m.incarnation);
    }

    method Snapshot() returns (out: seq<(NodeId, M.Member)>)
      ensures SortedMembers(Value(), out)
    {
      var names: seq<NodeId> := [];
      var todo := members.Keys;
      while todo != {}
        invariant todo <= members.Keys
        invariant Protocol.Increasing(names)
        invariant forall n :: n in names <==> n in members && n !in todo
        decreases todo
      {
        var n :| n in todo;
        Protocol.StrInsertIncreasing(names, n);
        names := Protocol.StrInsert(names, n);
        todo := todo - {n};
      }
      var ms := members;
      forall i | 0 <= i < |names| ensures names[i] in ms {
        assert names[i] in names;
      }
      out := seq(|names|, i requires 0 <= i < |names| && names[i] in ms => (names[i], ms[names[i]]));
      forall n | n in members ensures exists i :: 0 <= i < |out| && out[i].0 == n {
        var k :| 0 <= k < |names| && names[k] == n;
        assert out[k].0 == n;
      }
    }

    method Entries() returns (es: seq<M.Entry>)
      ensures Lists(Value(), es)
    {
      hide Lists, SortedMembers;
      var all := Snapshot();
      es := [];
      for i := 0 to |all|
        invariant es == WithEndpoint(all[..i])
      {
        assert all[..i + 1][..i] == all[..i];
        if all[i].1.endpoint == "" {
          continue;
        }
        es := es + [M.Entry(all[i].0, all[i].1.endpoint, all[i].1.status, all[i].1.incarnation)];
      }
      assert all[..|all|] == all;
      WithEndpointLists(Value(), all);
    }

    /** `shuffled` is how the random shuffle leaves the other nodes' records. */
    method DisseminatedMembership(shuffled: seq<M.Entry>) returns (out: seq<M.Entry>)
      requires Valid()
      requires Shuffles(Value(), shuffled)
      ensures Disseminates(Value(), out)
    {
      hide Lists, Disseminates, Shuffles, M.TableValid, EntryOf;
      var entries := Entries();
      if |entries| <= MAX_DISSEMINATED {
        AllDisseminates(Value(), entries);
        return entries;
      }
      var self := SelfEntry();
      ShuffledEnough(Value(), entries, shuffled);
      SomeDisseminates(Value(), entries, self, shuffled);
      out := [self] + shuffled[..MAX_DISSEMINATED - 1];
    }
  }

  /** The other nodes' records, each once, in some order. */
  ghost predicate Shuffles(t: M.Table, es: seq<M.Entry>) {
    && (forall n :: n in Contactable(t) && n != t.self <==> exists i :: 0 <= i < |es| && es[i].node == n)
    && (forall i :: 0 <= i < |es| ==> es[i].node in t.members && es[i] == EntryOf(t, es[i].node))
    && (forall i, j :: 0 <= i < j < |es| ==> es[i].node != es[j].node)
  }

  ghost function Nodes(es: seq<M.Entry>): set<NodeId> {
    set i | 0 <= i < |es| :: es[i].node
  }

  lemma {:induction false} DistinctNodes(es: seq<M.Entry>)
    requires forall i, j :: 0 <= i < j < |es| ==> es[i].node != es[j].node
    ensures |Nodes(es)| == |es|
  {
    if es != [] {
      var init := es[..|es| - 1];
      DistinctNodes(init);
      assert Nodes(es) == Nodes(init) + {es[|es| - 1].node};
    }
  }

  lemma ListedOnce(t: M.Table, es: seq<M.Entry>)
    requires Lists(t, es)
    ensures |es| == |Contactable(t)|
    ensures forall i, j :: 0 <= i < j < |es| ==> es[i].node != es[j].node
    ensures forall n :: n in t.members ==> (EntryOf(t, n) in es <==> n in Contactable(t))
  {
    forall n | n in t.members && EntryOf(t, n) in es ensures n in Contactable(t) {
      var i :| 0 <= i < |es| && es[i] == EntryOf(t, n);
    }
    forall i, j | 0 <= i < j < |es| ensures es[i].node != es[j].node {
      StrLessAsymmetric(es[i].node, es[j].node);
    }
    DistinctNodes(es);
    assert Nodes(es) == Contactable(t);
  }

  /** Records that fit are all sent. */
  lemma AllDisseminates(t: M.Table, es: seq<M.Entry>)
    requires M.TableValid(t) && Lists(t, es) && |es| <= MAX_DISSEMINATED
    ensures Disseminates(t, es)
  {
    ListedOnce(t, es);
  }

  /** Otherwise the own record goes with the first of the others. */
  lemma SomeDisseminates(t: M.Table, es: seq<M.Entry>, self: M.Entry, others: seq<M.Entry>)
    requires M.TableValid(t) && Lists(t, es) && Shuffles(t, others) && |es| > MAX_DISSEMINATED
    requires self == EntryOf(t, t.self) && |others| >= MAX_DISSEMINATED - 1
    requires forall i :: 0 <= i < |others| ==> others[i].node != t.self
    ensures Disseminates(t, [self] + others[..MAX_DISSEMINATED - 1])
  {
    ListedOnce(t, es);
    var out := [self] + others[..MAX_DISSEMINATED - 1];
    hide Lists;
    assert out[0] == self;
    assert forall i :: 1 <= i < |out| ==> out[i] == others[i - 1];
  }

  lemma ShuffledEnough(t: M.Table, es: seq<M.Entry>, others: seq<M.Entry>)
    requires Lists(t, es) && Shuffles(t, others)
    ensures |others| >= |es| - 1
    ensures forall i :: 0 <= i < |others| ==> others[i].node != t.self
  {
    ListedOnce(t, es);
    DistinctNodes(others);
    assert Nodes(others) == Contactable(t) - {t.self};
  }

  /** Before it has heard of anyone, a node without an endpoint has nothing to tell, not even itself. */
  lemma NothingToTell(self: NodeId, incarnation: U64, now: int, okEndpoint: string -> bool, es: seq<M.Entry>)
    ensures Disseminates(M.NewTable(self, "", incarnation, now, okEndpoint), es) <==> es == []
  {
    var t := M.NewTable(self, "", incarnation, now, okEndpoint);
    assert Contactable(t) == {};
    if es != [] {
      assert es[0] in es;
    }
  }
}
