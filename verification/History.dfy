/** DeltaHistory of internal/gossip/anti_entropy: a bounded store per origin and a contiguous watermark. */
module History {
  import opened Base
  import opened Protocol

  type Stored = map<U64, StateDelta>

  datatype Hist = Hist(capacity: nat, entries: map<NodeId, Stored>, contiguous: map<NodeId, U64>)

  function At(h: Hist, o: NodeId): Stored {
    if o in h.entries then h.entries[o] else map[]
  }

  function Watermark(h: Hist, o: NodeId): U64 {
    Get(h.contiguous, o)
  }

  /** One origin: at most `capacity` entries, each under its own origin and sequence, none just above the watermark. */
  ghost predicate SlotValid(o: NodeId, m: Stored, w: U64, capacity: nat) {
    && |m| <= capacity
    && (forall s :: s in m ==> s >= 1 && m[s].origin == o && m[s].sequence == s)
    && Next64(w) !in m
  }

  ghost predicate HistValid(h: Hist) {
    && h.capacity > 0
    && (forall o :: o in h.contiguous ==> ValidNodeId(o))
    && (forall o :: o in h.entries ==> ValidNodeId(o))
    && forall o :: SlotValid(o, At(h, o), Watermark(h, o), h.capacity)
  }

  // ---------------------------------------------------------------- specification

  ghost predicate IsLeast(k: U64, s: set<U64>) {
    k in s && forall j :: j in s ==> k <= j
  }

  lemma {:induction false} LeastExists(s: set<U64>)
    requires s != {}
    ensures exists k :: IsLeast(k, s)
  {
    var x :| x in s;
    var t := s - {x};
    assert forall j :: j in s ==> j == x || j in t;
    if t == {} {
      assert IsLeast(x, s);
    } else {
      LeastExists(t);
      var k :| IsLeast(k, t);
      assert IsLeast(if x < k then x else k, s);
    }
  }

  ghost function Least(s: set<U64>): (k: U64)
    requires s != {}
    ensures IsLeast(k, s)
  {
    LeastExists(s);
    var k :| IsLeast(k, s);
    k
  }

  ghost function EvictOldest(m: Stored, capacity: nat): Stored {
    if |m| > capacity then m - {Least(m.Keys)} else m
  }

  /** The highest sequence reachable from `w` through stored successors. Sequence 0 is never stored, so the
      walk never wraps. */
  function Extend(m: Stored, w: U64): U64
    decreases MAX_U64 - w
  {
    if Next64(w) in m && Next64(w) > w then Extend(m, Next64(w)) else w
  }

  lemma {:induction false} ExtendMeaning(m: Stored, w: U64)
    requires 0 !in m
    ensures w <= Extend(m, w) && Next64(Extend(m, w)) !in m
    ensures forall s: U64 :: w < s <= Extend(m, w) ==> s in m
    decreases MAX_U64 - w
  {
    if Next64(w) in m {
      ExtendMeaning(m, Next64(w));
    }
  }

  function DropThrough(m: Stored, w: U64): Stored {
    map s | s in m && s > w :: m[s]
  }

  predicate Recordable(d: StateDelta) {
    ValidNodeId(d.origin) && d.sequence != 0
  }

  ghost function RecordedStored(m: Stored, d: StateDelta, capacity: nat): Stored {
    EvictOldest(m[d.sequence := d], capacity)
  }

  ghost function AfterRecord(h: Hist, d: StateDelta): Hist {
    if !Recordable(d) || d.sequence in At(h, d.origin) then h
    else
      var m := RecordedStored(At(h, d.origin), d, h.capacity);
      h.(entries := h.entries[d.origin := m],
         contiguous := h.contiguous[d.origin := Extend(m, Watermark(h, d.origin))])
  }

  predicate Lifts(h: Hist, ws: map<NodeId, U64>, o: NodeId) {
    o in ws && ValidNodeId(o) && ws[o] > Watermark(h, o)
  }

  function AdvancedStored(h: Hist, ws: map<NodeId, U64>, o: NodeId): Stored {
    if Lifts(h, ws, o) then DropThrough(At(h, o), ws[o]) else At(h, o)
  }

  function AdvancedWatermark(h: Hist, ws: map<NodeId, U64>, o: NodeId): U64 {
    if Lifts(h, ws, o) then Extend(DropThrough(At(h, o), ws[o]), ws[o]) else Watermark(h, o)
  }

  function AfterAdvance(h: Hist, ws: map<NodeId, U64>): Hist {
    h.(entries := map o | o in h.entries :: AdvancedStored(h, ws, o),
       contiguous := map o | o in h.contiguous.Keys + ws.Keys && (o in h.contiguous || Lifts(h, ws, o))
         :: AdvancedWatermark(h, ws, o))
  }

  /** The watermarks that Watermarks reports: explicit zeros are left out. */
  function Reported(h: Hist): map<NodeId, U64> {
    map o | o in h.contiguous && h.contiguous[o] > 0 :: h.contiguous[o]
  }

  ghost function NewHistory(capacity: nat): Hist {
    Hist(capacity, map[], map[])
  }

  // ---------------------------------------------------------------- one call

  lemma EvictMeaning(m: Stored, d: StateDelta, capacity: nat)
    requires |m| <= capacity && d.sequence !in m && capacity > 0
    ensures var e := EvictOldest(m[d.sequence := d], capacity);
            && |e| <= capacity
            && (forall s :: s in e ==> s == d.sequence || s in m)
            && (forall s :: s in e ==> e[s] == if s == d.sequence then d else m[s])
            && (d.sequence in e <==> |m| < capacity || exists s :: s in m && s < d.sequence)
  {
    var n := m[d.sequence := d];
    assert n.Keys == m.Keys + {d.sequence};
    assert |n| == |m| + 1;
    if |n| > capacity {
      var k := Least(n.Keys);
      var e := n - {k};
      assert e.Keys == n.Keys - {k};
      assert |e| == |n| - 1;
      if k == d.sequence {
        forall s | s in m ensures s >= d.sequence { assert s in n; }
      } else {
        assert k in m && k < d.sequence;
      }
    }
  }

  /** What Record does to the one origin it touches. */
  lemma SlotRecord(m: Stored, w: U64, d: StateDelta, capacity: nat)
    requires SlotValid(d.origin, m, w, capacity) && capacity > 0 && d.sequence !in m && d.sequence != 0
    ensures var e := RecordedStored(m, d, capacity);
            && SlotValid(d.origin, e, Extend(e, w), capacity)
            && w <= Extend(e, w)
            && (forall s: U64 :: w < s <= Extend(e, w) ==> s in m || s == d.sequence)
            && (forall s :: s in e ==> (s in m && e[s] == m[s]) || (s == d.sequence && e[s] == d))
  {
    EvictMeaning(m, d, capacity);
    ExtendMeaning(RecordedStored(m, d, capacity), w);
  }

  lemma RecordView(h: Hist, d: StateDelta, o: NodeId)
    requires HistValid(h)
    ensures var h' := AfterRecord(h, d);
            if o == d.origin && Recordable(d) && d.sequence !in At(h, o) then
              && At(h', o) == RecordedStored(At(h, o), d, h.capacity)
              && 0 !in At(h', o) && Watermark(h', o) == Extend(At(h', o), Watermark(h, o))
            else At(h', o) == At(h, o) && Watermark(h', o) == Watermark(h, o)
  {
    assert SlotValid(o, At(h, o), Watermark(h, o), h.capacity);
  }

  /** Record keeps the invariant, never lowers a watermark, and only passes sequences that were stored. */
  lemma RecordEffect(h: Hist, d: StateDelta)
    requires HistValid(h)
    ensures HistValid(AfterRecord(h, d))
    ensures AfterRecord(h, d).capacity == h.capacity
    ensures forall o :: Watermark(h, o) <= Watermark(AfterRecord(h, d), o)
    ensures forall o, s: U64 :: Watermark(h, o) < s <= Watermark(AfterRecord(h, d), o) ==>
              s in At(h, o) || (o == d.origin && s == d.sequence)
    ensures forall o, s :: s in At(AfterRecord(h, d), o) ==>
              (s in At(h, o) && At(AfterRecord(h, d), o)[s] == At(h, o)[s])
              || (o == d.origin && s == d.sequence && At(AfterRecord(h, d), o)[s] == d)
  {
    var h' := AfterRecord(h, d);
    forall o
      ensures SlotValid(o, At(h', o), Watermark(h', o), h.capacity)
      ensures Watermark(h, o) <= Watermark(h', o)
      ensures forall s: U64 :: Watermark(h, o) < s <= Watermark(h', o) ==>
                s in At(h, o) || (o == d.origin && s == d.sequence)
      ensures forall s :: s in At(h', o) ==>
                (s in At(h, o) && At(h', o)[s] == At(h, o)[s])
                || (o == d.origin && s == d.sequence && At(h', o)[s] == d)
    {
      RecordView(h, d, o);
      assert SlotValid(o, At(h, o), Watermark(h, o), h.capacity);
      if o == d.origin && Recordable(d) && d.sequence !in At(h, o) {
        SlotRecord(At(h, o), Watermark(h, o), d, h.capacity);
      }
    }
  }

  lemma SlotAdvance(o: NodeId, m: Stored, w: U64, to: U64, capacity: nat)
    requires SlotValid(o, m, w, capacity)
    ensures var e := DropThrough(m, to);
            && 0 !in e && SlotValid(o, e, Extend(e, to), capacity)
            && to <= Extend(e, to)
            && (forall s: U64 :: to < s <= Extend(e, to) ==> s in m)
  {
    var e := DropThrough(m, to);
    ExtendMeaning(e, to);
    assert e.Keys <= m.Keys;
    SubsetCardinality(e.Keys, m.Keys);
    assert |e| == |e.Keys| && |m| == |m.Keys|;
  }

  lemma AdvanceView(h: Hist, ws: map<NodeId, U64>, o: NodeId)
    ensures Watermark(AfterAdvance(h, ws), o) == AdvancedWatermark(h, ws, o)
    ensures At(AfterAdvance(h, ws), o) == AdvancedStored(h, ws, o)
  {
    if o !in h.entries {
      assert AdvancedStored(h, ws, o) == map[];
    }
  }

  /** AdvanceWatermarks keeps the invariant: it jumps, forgets what lies below, then runs on through stored entries. */
  lemma AdvanceEffect(h: Hist, ws: map<NodeId, U64>)
    requires HistValid(h)
    ensures HistValid(AfterAdvance(h, ws))
    ensures AfterAdvance(h, ws).capacity == h.capacity
    ensures forall o :: Watermark(h, o) <= Watermark(AfterAdvance(h, ws), o)
    ensures forall o :: ValidNodeId(o) ==> Get(ws, o) <= Watermark(AfterAdvance(h, ws), o)
    ensures forall o, s: U64 :: Watermark(h, o) < s <= Watermark(AfterAdvance(h, ws), o) ==>
              s in At(h, o) || (o in ws && s <= ws[o])
    ensures forall o, s :: s in At(AfterAdvance(h, ws), o) ==>
              s in At(h, o) && At(AfterAdvance(h, ws), o)[s] == At(h, o)[s]
  {
    var h' := AfterAdvance(h, ws);
    forall o
      ensures SlotValid(o, At(h', o), Watermark(h', o), h.capacity)
      ensures Watermark(h, o) <= Watermark(h', o)
      ensures ValidNodeId(o) ==> Get(ws, o) <= Watermark(h', o)
      ensures forall s: U64 :: Watermark(h, o) < s <= Watermark(h', o) ==> s in At(h, o) || (o in ws && s <= ws[o])
      ensures forall s :: s in At(h', o) ==> s in At(h, o) && At(h', o)[s] == At(h, o)[s]
    {
      AdvanceView(h, ws, o);
      assert SlotValid(o, At(h, o), Watermark(h, o), h.capacity);
      if Lifts(h, ws, o) {
        SlotAdvance(o, At(h, o), Watermark(h, o), ws[o], h.capacity);
      }
    }
  }

  ghost function Above(h: Hist, o: NodeId): set<U64> {
    set s | s in At(h, o) && s > Watermark(h, o)
  }

  /** The next expected delta moves the watermark exactly when fewer than `capacity` entries wait above it. */
  lemma NextRecordAdvances(h: Hist, d: StateDelta)
    requires HistValid(h) && ValidNodeId(d.origin)
    requires Watermark(h, d.origin) < MAX_U64 && d.sequence == Watermark(h, d.origin) + 1
    ensures Watermark(AfterRecord(h, d), d.origin) > Watermark(h, d.origin) <==> |Above(h, d.origin)| < h.capacity
  {
    var o, w := d.origin, Watermark(h, d.origin);
    var m := At(h, o);
    assert SlotValid(o, m, w, h.capacity);
    RecordView(h, d, o);
    EvictMeaning(m, d, h.capacity);
    var e := EvictOldest(m[d.sequence := d], h.capacity);
    ExtendMeaning(e, w);
    assert Above(h, o) <= m.Keys && |m.Keys| == |m|;
    SubsetCardinality(Above(h, o), m.Keys);
    if exists s :: s in m && s < d.sequence {
      var s :| s in m && s < d.sequence;
      assert s in m.Keys && s !in Above(h, o);
      assert Above(h, o) != m.Keys;
    } else {
      forall s | s in m ensures s in Above(h, o) {
        assert s != d.sequence;
      }
      assert Above(h, o) == m.Keys;
    }
  }

  /** AdvanceWatermarks forgets exactly what lies at or below a watermark that it raises. */
  lemma AdvanceForgets(h: Hist, ws: map<NodeId, U64>, o: NodeId, s: U64)
    ensures s in At(AfterAdvance(h, ws), o) <==>
            s in At(h, o) && !(o in ws && ValidNodeId(o) && ws[o] > Watermark(h, o) && s <= ws[o])
  {
    AdvanceView(h, ws, o);
  }

  lemma EvictExact(m: Stored, d: StateDelta, capacity: nat)
    requires |m| <= capacity && d.sequence !in m && capacity > 0
    ensures var e := EvictOldest(m[d.sequence := d], capacity);
            && (|m| < capacity ==> e == m[d.sequence := d])
            && (|m| == capacity ==>
                  forall s :: s in e <==> (s in m || s == d.sequence) && exists t :: (t in m || t == d.sequence) && t < s)
  {
    var n := m[d.sequence := d];
    assert n.Keys == m.Keys + {d.sequence} && |n| == |m| + 1;
    if |m| == capacity {
      var k := Least(n.Keys);
      assert (k in m || k == d.sequence) && forall t :: t in m || t == d.sequence ==> t in n.Keys && k <= t;
    }
  }

  /** Record adds the delta and, only when that is one too many, drops the entry with the lowest sequence. */
  lemma RecordExact(h: Hist, d: StateDelta)
    requires HistValid(h) && Recordable(d) && d.sequence !in At(h, d.origin)
    ensures var m, e := At(h, d.origin), At(AfterRecord(h, d), d.origin);
            && (|m| < h.capacity ==> e == m[d.sequence := d])
            && (|m| == h.capacity ==>
                  forall s :: s in e <==> (s in m || s == d.sequence) && exists t :: (t in m || t == d.sequence) && t < s)
            && (forall s :: s in e ==> e[s] == if s == d.sequence then d else m[s])
  {
    assert SlotValid(d.origin, At(h, d.origin), Watermark(h, d.origin), h.capacity);
    RecordView(h, d, d.origin);
    hide AfterRecord, Extend, SlotValid, HistValid;
    EvictExact(At(h, d.origin), d, h.capacity);
    EvictMeaning(At(h, d.origin), d, h.capacity);
  }

  /** A delta is held after Record exactly when it was held before, or there was room, or something older could go. */
  lemma RecordedWhen(h: Hist, d: StateDelta)
    requires HistValid(h) && Recordable(d)
    ensures var m := At(h, d.origin);
            d.sequence in At(AfterRecord(h, d), d.origin) <==>
            d.sequence in m || |m| < h.capacity || exists s :: s in m && s < d.sequence
  {
    if d.sequence !in At(h, d.origin) {
      assert SlotValid(d.origin, At(h, d.origin), Watermark(h, d.origin), h.capacity);
      RecordView(h, d, d.origin);
      hide AfterRecord, Extend, SlotValid, HistValid;
      EvictMeaning(At(h, d.origin), d, h.capacity);
    }
  }

  // ---------------------------------------------------------------- every call sequence

  datatype Call = DoRecord(delta: StateDelta) | DoAdvance(watermarks: map<NodeId, U64>)

  ghost function Apply(h: Hist, c: Call): Hist {
    match c
    case DoRecord(d) => AfterRecord(h, d)
    case DoAdvance(ws) => AfterAdvance(h, ws)
  }

  ghost function AfterCalls(capacity: nat, calls: seq<Call>): (h: Hist)
    requires capacity > 0
    ensures HistValid(h) && h.capacity == capacity
  {
    if calls == [] then NewHistory(capacity)
    else
      var h := AfterCalls(capacity, calls[..|calls| - 1]);
      var c := calls[|calls| - 1];
      if c.DoRecord? then RecordEffect(h, c.delta); Apply(h, c) else AdvanceEffect(h, c.watermarks); Apply(h, c)
  }

  ghost predicate Accounts(c: Call, o: NodeId, s: U64) {
    match c
    case DoRecord(d) => d.origin == o && d.sequence == s
    case DoAdvance(ws) => o in ws && s <= ws[o]
  }

  ghost predicate Accounted(calls: seq<Call>, o: NodeId, s: U64) {
    exists c :: c in calls && Accounts(c, o, s)
  }

  /** However calls interleave, each stored sequence was recorded, and each sequence up to the watermark
      was recorded or lies under a watermark that was advanced to. */
  lemma {:induction false} WatermarkAccounted(capacity: nat, calls: seq<Call>)
    requires capacity > 0
    ensures forall o, s :: s in At(AfterCalls(capacity, calls), o) ==> DoRecord(At(AfterCalls(capacity, calls), o)[s]) in calls
    ensures forall o, s: U64 :: 1 <= s <= Watermark(AfterCalls(capacity, calls), o) ==> Accounted(calls, o, s)
  {
    if calls != [] {
      var init, c := calls[..|calls| - 1], calls[|calls| - 1];
      WatermarkAccounted(capacity, init);
      var h, h' := AfterCalls(capacity, init), AfterCalls(capacity, calls);
      if c.DoRecord? { RecordEffect(h, c.delta); } else { AdvanceEffect(h, c.watermarks); }
      assert calls == init + [c];
      forall o, s: U64 | 1 <= s <= Watermark(h', o) ensures Accounted(calls, o, s) {
        if s <= Watermark(h, o) {
          assert Accounted(init, o, s);
          var x :| x in init && Accounts(x, o, s);
          assert x in calls;
        } else if s in At(h, o) {
          var x := DoRecord(At(h, o)[s]);
          assert x in init && At(h, o)[s].sequence == s && At(h, o)[s].origin == o;
          assert x in calls && Accounts(x, o, s);
        } else {
          assert c in calls && Accounts(c, o, s);
        }
      }
    }
  }

  // ---------------------------------------------------------------- ranges

  /** Range serves exactly the deltas from..to, in order, or nothing. */
  ghost function RangeOf(h: Hist, r: DeltaRange): Option<seq<StateDelta>> {
    if RangeOk(r) && forall s: U64 :: r.from <= s <= r.to ==> s in At(h, r.origin)
    then Some(seq(r.to - r.from + 1, i requires 0 <= i < r.to - r.from + 1 && r.from + i in At(h, r.origin)
                                     => At(h, r.origin)[r.from + i]))
    else None
  }

  /** One key of the range over the given watermarks. */
  ghost predicate KeyAdvanced(h: Hist, ws: map<NodeId, U64>, o: NodeId, t: Hist) {
    && (o in t.entries <==> o in h.entries)
    && (if Lifts(h, ws, o) then
          var m := DropThrough(At(h, o), ws[o]);
          && 0 !in m
          && o in t.contiguous && t.contiguous[o] == Extend(m, ws[o])
          && (o in h.entries ==> t.entries[o] == m)
        else
          && (o in t.contiguous <==> o in h.contiguous)
          && (o in h.contiguous ==> t.contiguous[o] == h.contiguous[o])
          && (o in h.entries ==> t.entries[o] == h.entries[o]))
  }

  lemma AdvanceKey(h: Hist, ws: map<NodeId, U64>, o: NodeId)
    requires HistValid(h)
    ensures KeyAdvanced(h, ws, o, AfterAdvance(h, ws))
  {
    assert SlotValid(o, At(h, o), Watermark(h, o), h.capacity);
  }

  function OneAdvanced(h: Hist, o: NodeId, to: U64): Hist {
    if !ValidNodeId(o) || to <= Watermark(h, o) then h
    else
      var m := DropThrough(At(h, o), to);
      h.(contiguous := h.contiguous[o := Extend(m, to)],
         entries := if o in h.entries then h.entries[o := m] else h.entries)
  }

  /** Origins still to do are as in `h`, all others already as in the target. */
  ghost predicate Halfway(now: Hist, h: Hist, t: Hist, todo: set<NodeId>) {
    && now.capacity == t.capacity
    && (forall o :: o in now.entries <==> o in t.entries)
    && (forall o :: o in now.entries <==> o in h.entries)
    && (forall o :: o in now.entries ==> now.entries[o] == if o in todo then h.entries[o] else t.entries[o])
    && (forall o :: o in now.contiguous <==> if o in todo then o in h.contiguous else o in t.contiguous)
    && (forall o :: o in now.contiguous ==>
          now.contiguous[o] == if o in todo then h.contiguous[o] else t.contiguous[o])
  }

  lemma HalfwayStart(h: Hist, ws: map<NodeId, U64>, t: Hist)
    requires t.capacity == h.capacity && forall o :: KeyAdvanced(h, ws, o, t)
    ensures Halfway(h, h, t, ws.Keys)
  {
    forall o
      ensures o in h.entries <==> o in t.entries
      ensures o !in ws ==> (o in h.contiguous <==> o in t.contiguous)
      ensures o !in ws && o in h.entries ==> h.entries[o] == t.entries[o]
      ensures o !in ws && o in h.contiguous ==> h.contiguous[o] == t.contiguous[o]
    {
      assert KeyAdvanced(h, ws, o, t);
    }
  }

  lemma HalfwayKey(now: Hist, h: Hist, ws: map<NodeId, U64>, t: Hist, todo: set<NodeId>, o: NodeId)
    requires Halfway(now, h, t, todo) && o in todo && o in ws && KeyAdvanced(h, ws, o, t)
    ensures At(now, o) == At(h, o) && Watermark(now, o) == Watermark(h, o)
    ensures 0 !in DropThrough(At(now, o), ws[o])
  {
  }

  lemma HalfwayStep(now: Hist, next: Hist, h: Hist, ws: map<NodeId, U64>, t: Hist, todo: set<NodeId>, o: NodeId)
    requires Halfway(now, h, t, todo) && o in todo && o in ws && KeyAdvanced(h, ws, o, t)
    requires 0 !in DropThrough(At(now, o), ws[o])
    requires next == OneAdvanced(now, o, ws[o])
    ensures Halfway(next, h, t, todo - {o})
  {
    HalfwayKey(now, h, ws, t, todo, o);
    assert forall k :: k in todo - {o} <==> k in todo && k != o;
  }

  lemma HalfwayEnd(now: Hist, h: Hist, t: Hist)
    requires Halfway(now, h, t, {})
    ensures now == t
  {
    assert now.entries == t.entries;
    assert now.contiguous == t.contiguous;
  }

  /** The loop that moves a watermark over stored successors. */
  method RunOn(bySequence: Stored, from: U64) returns (watermark: U64)
    requires 0 !in bySequence
    ensures watermark == Extend(bySequence, from)
  {
    watermark := from;
    while Next64(watermark) in bySequence
      invariant Extend(bySequence, watermark) == Extend(bySequence, from)
      decreases MAX_U64 - watermark
    {
      watermark := Next64(watermark);
    }
  }

  /** The inner loop of the eviction. */
  method Oldest(bySequence: Stored, start: U64) returns (oldest: U64)
    requires start in bySequence
    ensures oldest == Least(bySequence.Keys)
  {
    oldest := start;
    var todo := bySequence.Keys;
    while todo != {}
      invariant todo <= bySequence.Keys
      invariant oldest in bySequence
      invariant forall s :: s in bySequence && s !in todo ==> oldest <= s
      decreases todo
    {
      var s :| s in todo;
      if s < oldest {
        oldest := s;
      }
      todo := todo - {s};
    }
  }

  lemma RecordSlot(h: Hist, d: StateDelta)
    requires HistValid(h) && d.sequence !in At(h, d.origin) && d.sequence != 0
    ensures h.capacity > 0 && |At(h, d.origin)[d.sequence := d]| <= h.capacity + 1
    ensures 0 !in EvictOldest(At(h, d.origin)[d.sequence := d], h.capacity)
  {
    assert SlotValid(d.origin, At(h, d.origin), Watermark(h, d.origin), h.capacity);
    EvictMeaning(At(h, d.origin), d, h.capacity);
  }

  /** The eviction loop: at most one entry is too many. */
  method Evict(full: Stored, start: U64, capacity: nat) returns (bySequence: Stored)
    requires start in full && 0 < capacity && |full| <= capacity + 1
    ensures bySequence == EvictOldest(full, capacity)
  {
    bySequence := full;
    while |bySequence| > capacity
      invariant bySequence == full || bySequence == EvictOldest(full, capacity)
      decreases |bySequence|
    {
      var oldest := Oldest(bySequence, start);
      assert |bySequence.Keys - {oldest}| == |bySequence.Keys| - 1;
      bySequence := bySequence - {oldest};
      assert bySequence.Keys == full.Keys - {oldest};
    }
  }

  class DeltaHistory {
    const capacity: nat
    var entries: map<NodeId, Stored>
    var contiguous: map<NodeId, U64>

    function Value(): Hist
      reads this
    {
      Hist(capacity, entries, contiguous)
    }

    ghost predicate Valid()
      reads this
    {
      HistValid(Value())
    }

    constructor (capacity: nat)
      requires capacity > 0
      ensures Valid() && Value() == NewHistory(capacity)
    {
      this.capacity := capacity;
      entries := map[];
      contiguous := map[];
    }

    method Record(d: StateDelta) returns (ok: bool)
      requires Valid()
      modifies this
      ensures Valid()
      ensures ok == Recordable(d)
      ensures Value() == AfterRecord(old(Value()), d)
    {
      hide HistValid, EvictOldest, Extend, ValidNodeId;
      RecordEffect(Value(), d);
      if !ValidNodeId(d.origin) || d.sequence == 0 {
        return false;
      }
      var bySequence := if d.origin in entries then entries[d.origin] else map[];
      if d.sequence in bySequence {
        return true;
      }
      RecordSlot(Value(), d);
      bySequence := Evict(bySequence[d.sequence := d], d.sequence, capacity);
      var watermark := RunOn(bySequence, Get(contiguous, d.origin));
      entries := entries[d.origin := bySequence];
      contiguous := contiguous[d.origin := watermark];
      return true;
    }

    /** An origin is listed exactly when its watermark is positive, and then with that watermark. */
    method Watermarks() returns (out: map<NodeId, U64>)
      ensures forall o :: o in out <==> Watermark(Value(), o) > 0
      ensures forall o :: o in out ==> out[o] == Watermark(Value(), o)
      ensures out == Reported(Value())
    {
      out := map[];
      var todo := contiguous.Keys;
      while todo != {}
        invariant todo <= contiguous.Keys
        invariant forall o :: o in out <==> o in contiguous && o !in todo && contiguous[o] > 0
        invariant forall o :: o in out ==> out[o] == contiguous[o]
        decreases todo
      {
        var o :| o in todo;
        if contiguous[o] > 0 {
          out := out[o := contiguous[o]];
        }
        todo := todo - {o};
      }
    }

    /** The body of the loop in AdvanceWatermarks, for one origin. */
    method AdvanceOne(o: NodeId, to: U64)
      requires 0 !in DropThrough(At(Value(), o), to)
      modifies this
      ensures Value() == OneAdvanced(old(Value()), o, to)
    {
      if !ValidNodeId(o) || to <= Get(contiguous, o) {
        return;
      }
      var bySequence := DropThrough(if o in entries then entries[o] else map[], to);
      var watermark := RunOn(bySequence, to);
      contiguous := contiguous[o := watermark];
      if o in entries {
        entries := entries[o := bySequence];
      }
    }

    /** The range over the given watermarks, in any order. */
    method AdvanceEach(ws: map<NodeId, U64>, ghost target: Hist)
      requires target.capacity == capacity
      requires forall o :: KeyAdvanced(Value(), ws, o, target)
      modifies this
      ensures Value() == target
    {
      ghost var h := Value();
      var todo := ws.Keys;
      HalfwayStart(h, ws, target);
      while todo != {}
        invariant todo <= ws.Keys
        invariant Halfway(Value(), h, target, todo)
        decreases todo
      {
        var o :| o in todo;
        assert KeyAdvanced(h, ws, o, target);
        ghost var now := Value();
        HalfwayKey(now, h, ws, target, todo, o);
        AdvanceOne(o, ws[o]);
        HalfwayStep(now, Value(), h, ws, target, todo, o);
        todo := todo - {o};
      }
      HalfwayEnd(Value(), h, target);
    }

    method AdvanceWatermarks(ws: map<NodeId, U64>)
      requires Valid()
      modifies this
      ensures Valid()
      ensures Value() == AfterAdvance(old(Value()), ws)
    {
      ghost var target := AfterAdvance(Value(), ws);
      assert HistValid(target) by { AdvanceEffect(Value(), ws); }
      forall o ensures KeyAdvanced(Value(), ws, o, target) {
        AdvanceKey(Value(), ws, o);
      }
      AdvanceEach(ws, target);
    }

    /** Terminates even when the range ends at 2^64-1: the loop leaves before its counter could wrap. */
    method Range(r: DeltaRange) returns (out: Option<seq<StateDelta>>)
      requires Valid()
      ensures out == RangeOf(Value(), r)
    {
      if !RangeOk(r) {
        return None;
      }
      if r.origin !in entries {
        assert r.from !in At(Value(), r.origin);
        return None;
      }
      var bySequence := entries[r.origin];
      var items: seq<StateDelta> := [];
      var sequence := r.from;
      while true
        invariant r.from <= sequence <= r.to
        invariant |items| == sequence - r.from
        invariant forall s: U64 :: r.from <= s < sequence ==> s in bySequence && items[s - r.from] == bySequence[s]
        decreases r.to - sequence
      {
        if sequence !in bySequence {
          return None;
        }
        items := items + [bySequence[sequence]];
        if sequence == r.to {
          break;
        }
        sequence := Next64(sequence);
      }
      ghost var want := RangeOf(Value(), r);
      assert At(Value(), r.origin) == bySequence;
      assert want.Some? && |want.value| == |items|;
      forall i | 0 <= i < |items| ensures items[i] == want.value[i] {
        var s: U64 := r.from + i;
        assert items[s - r.from] == bySequence[s];
      }
      assert items == want.value;
      return Some(items);
    }
  }
}
