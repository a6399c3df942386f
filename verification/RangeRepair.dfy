/** Range repair: a digest round closes the gap to the peer by up to 256 deltas per origin, or not at all. */
module RangeRepair {
  import opened Base
  import opened TopK
  import opened Sum
  import opened Protocol
  import opened History
  import opened Pipeline
  import opened Recovery
  import opened Runtime
  import opened Knowledge
  import opened Cluster
  import opened Rounds

  // ---------------------------------------------------------------- recording a block of deltas

  ghost function RecordAll(h: Hist, ds: seq<StateDelta>): Hist {
    if ds == [] then h else AfterRecord(RecordAll(h, ds[..|ds| - 1]), ds[|ds| - 1])
  }

  /** `ds` are consecutive deltas of `o`, the first numbered `from`. */
  ghost predicate Block(ds: seq<StateDelta>, o: NodeId, from: int) {
    forall i :: 0 <= i < |ds| ==> ds[i].origin == o && ds[i].sequence == from + i
  }

  ghost predicate Room(h: Hist, o: NodeId) {
    |Above(h, o)| < h.capacity
  }

  lemma AboveShrinks(h: Hist, g: Hist, o: NodeId)
    requires Above(g, o) <= Above(h, o) && g.capacity == h.capacity && Room(h, o)
    ensures Room(g, o)
  {
    SubsetCardinality(Above(g, o), Above(h, o));
  }

  /** With room, recording the next expected delta, or one already passed, keeps room and loses no progress. */
  lemma RecordWithRoom(h: Hist, d: StateDelta)
    requires HistValid(h) && Recordable(d) && Room(h, d.origin) && d.sequence <= Watermark(h, d.origin) + 1
    ensures var g := AfterRecord(h, d);
            Room(g, d.origin) && Watermark(g, d.origin) >= Max64(Watermark(h, d.origin), d.sequence)
  {
    var o := d.origin;
    var g := AfterRecord(h, d);
    RecordEffect(h, d);
    if d.sequence == Watermark(h, o) + 1 {
      NextRecordAdvances(h, d);
    }
    forall s | s in Above(g, o) ensures s in Above(h, o) {
      assert s in At(h, o) || s == d.sequence;
    }
    AboveShrinks(h, g, o);
  }

  lemma {:induction false} BlockWithRoom(h: Hist, ds: seq<StateDelta>, o: NodeId)
    requires HistValid(h) && ValidNodeId(o) && Room(h, o) && Block(ds, o, Watermark(h, o) + 1)
    ensures var g := RecordAll(h, ds);
            HistValid(g) && g.capacity == h.capacity && Room(g, o) && Watermark(g, o) >= Watermark(h, o) + |ds|
  {
    if ds != [] {
      var init, d := ds[..|ds| - 1], ds[|ds| - 1];
      BlockWithRoom(h, init, o);
      RecordWithRoom(RecordAll(h, init), d);
      RecordEffect(RecordAll(h, init), d);
    }
  }

  /** Every slot is taken by an entry above the watermark. */
  ghost predicate Jammed(h: Hist, o: NodeId) {
    |At(h, o)| == h.capacity && forall s :: s in At(h, o) ==> s > Watermark(h, o)
  }

  lemma JammedIsNoRoom(h: Hist, o: NodeId)
    requires HistValid(h)
    ensures Jammed(h, o) <==> !Room(h, o)
  {
    var m := At(h, o);
    assert SlotValid(o, m, Watermark(h, o), h.capacity);
    assert Above(h, o) <= m.Keys && |m.Keys| == |m|;
    SubsetCardinality(Above(h, o), m.Keys);
    if Jammed(h, o) {
      assert Above(h, o) == m.Keys;
    }
    if !Room(h, o) {
      forall s | s in m ensures s > Watermark(h, o) { assert s in m.Keys; }
    }
  }

  /** A jammed history evicts the delta it is waiting for as soon as it arrives. */
  lemma RecordJammed(h: Hist, d: StateDelta)
    requires HistValid(h) && Recordable(d) && Jammed(h, d.origin) && d.sequence > Watermark(h, d.origin)
    ensures var g := AfterRecord(h, d); Jammed(g, d.origin) && Watermark(g, d.origin) == Watermark(h, d.origin)
  {
    var o := d.origin;
    var m, w := At(h, o), Watermark(h, o);
    assert SlotValid(o, m, w, h.capacity);
    RecordView(h, d, o);
    if d.sequence !in m {
      var n := m[d.sequence := d];
      assert n.Keys == m.Keys + {d.sequence};
      assert |n| == |m| + 1;
      var k := Least(n.Keys);
      var e := n - {k};
      assert e.Keys == n.Keys - {k} && |e| == |n| - 1;
      EvictMeaning(m, d, h.capacity);
      assert w < k <= d.sequence && Next64(w) !in m;
      assert Next64(w) !in e;
    }
  }

  lemma {:induction false} BlockJammed(h: Hist, ds: seq<StateDelta>, o: NodeId)
    requires HistValid(h) && ValidNodeId(o) && Jammed(h, o) && Block(ds, o, Watermark(h, o) + 1)
    ensures var g := RecordAll(h, ds);
            HistValid(g) && g.capacity == h.capacity && Jammed(g, o) && Watermark(g, o) == Watermark(h, o)
  {
    if ds != [] {
      var init, d := ds[..|ds| - 1], ds[|ds| - 1];
      BlockJammed(h, init, o);
      RecordJammed(RecordAll(h, init), d);
      RecordEffect(RecordAll(h, init), d);
    }
  }

  lemma {:induction false} RecordOthers(h: Hist, ds: seq<StateDelta>, o: NodeId)
    requires HistValid(h) && forall d :: d in ds ==> d.origin != o
    ensures var g := RecordAll(h, ds);
            HistValid(g) && g.capacity == h.capacity && At(g, o) == At(h, o) && Watermark(g, o) == Watermark(h, o)
  {
    if ds != [] {
      var init, d := ds[..|ds| - 1], ds[|ds| - 1];
      RecordOthers(h, init, o);
      RecordEffect(RecordAll(h, init), d);
      RecordView(RecordAll(h, init), d, o);
    }
  }

  lemma {:induction false} RecordAllAppend(h: Hist, xs: seq<StateDelta>, ys: seq<StateDelta>)
    ensures RecordAll(h, xs + ys) == RecordAll(RecordAll(h, xs), ys)
  {
    if ys == [] {
      assert xs + ys == xs;
    } else {
      RecordAllAppend(h, xs, ys[..|ys| - 1]);
      assert (xs + ys)[..|xs + ys| - 1] == xs + ys[..|ys| - 1];
    }
  }

  // ---------------------------------------------------------------- the response

  ghost predicate StoredWellFormed(h: Hist) {
    forall o, s :: s in At(h, o) ==> WellFormed(At(h, o)[s])
  }

  lemma ServedBlock(h: Hist, r: DeltaRange)
    requires HistValid(h) && StoredWellFormed(h) && RangeOf(h, r).Some?
    ensures var ds := RangeOf(h, r).value;
            Block(ds, r.origin, r.from) && |ds| == r.to - r.from + 1 && forall d :: d in ds ==> WellFormed(d)
  {
    var ds := RangeOf(h, r).value;
    assert SlotValid(r.origin, At(h, r.origin), Watermark(h, r.origin), h.capacity);
    forall i | 0 <= i < |ds| ensures ds[i].origin == r.origin && ds[i].sequence == r.from + i && WellFormed(ds[i]) {
      var s: U64 := r.from + i;
      assert s in At(h, r.origin);
    }
  }

  /** A response splits around the block of any requested origin. */
  lemma {:induction false} CollectSplits(h: Hist, ranges: seq<DeltaRange>, i: nat)
    returns (pre: seq<StateDelta>, post: seq<StateDelta>)
    requires HistValid(h) && StoredWellFormed(h) && i < |ranges| && DistinctOrigins(ranges)
    requires forall r :: r in ranges ==> RangeOf(h, r).Some?
    ensures CollectRanges(h, ranges) == Some(pre + RangeOf(h, ranges[i]).value + post)
    ensures forall d :: d in pre + post ==> d.origin != ranges[i].origin
    decreases |ranges|
  {
    hide RangeOf, HistValid, StoredWellFormed;
    var rest := ranges[1..];
    var first := RangeOf(h, ranges[0]).value;
    assert ranges[0] in ranges;
    if i == 0 {
      CollectAll(h, rest);
      pre, post := [], CollectRanges(h, rest).value;
      assert pre + first + post == first + post;
      forall d | d in post ensures d.origin != ranges[0].origin {
        assert FromRanges(d, rest);
        var j :| 0 <= j < |rest| && rest[j].origin == d.origin;
        assert ranges[j + 1] == rest[j];
      }
    } else {
      forall j, k | 0 <= j < k < |rest| ensures rest[j].origin != rest[k].origin {
        assert rest[j] == ranges[j + 1] && rest[k] == ranges[k + 1];
      }
      var p, q := CollectSplits(h, rest, i - 1);
      var block := RangeOf(h, rest[i - 1]).value;
      pre, post := first + p, q;
      assert first + (p + block + q) == pre + block + post;
      FirstBlockOrigin(h, ranges[0]);
      assert rest[i - 1] == ranges[i] && ranges[0].origin != ranges[i].origin;
    }
  }

  lemma FirstBlockOrigin(h: Hist, r: DeltaRange)
    requires HistValid(h) && StoredWellFormed(h) && RangeOf(h, r).Some?
    ensures forall d :: d in RangeOf(h, r).value ==> d.origin == r.origin && WellFormed(d)
  {
    hide RangeOf;
    ServedBlock(h, r);
  }

  ghost predicate FromRanges(d: StateDelta, ranges: seq<DeltaRange>) {
    exists j :: 0 <= j < |ranges| && ranges[j].origin == d.origin
  }

  lemma {:induction false} CollectAll(h: Hist, ranges: seq<DeltaRange>)
    requires HistValid(h) && StoredWellFormed(h)
    requires forall r :: r in ranges ==> RangeOf(h, r).Some?
    ensures CollectRanges(h, ranges).Some?
    ensures forall d :: d in CollectRanges(h, ranges).value ==> WellFormed(d) && FromRanges(d, ranges)
  {
    hide RangeOf, WellFormed, HistValid, StoredWellFormed;
    if ranges != [] {
      assert ranges[0] in ranges;
      CollectAll(h, ranges[1..]);
      FirstBlockOrigin(h, ranges[0]);
      var ds := CollectRanges(h, ranges).value;
      forall d | d in ds ensures WellFormed(d) && FromRanges(d, ranges) {
        if d in RangeOf(h, ranges[0]).value {
        } else {
          assert FromRanges(d, ranges[1..]);
          var j :| 0 <= j < |ranges[1..]| && ranges[1..][j].origin == d.origin;
          assert ranges[j + 1].origin == d.origin;
        }
      }
    }
  }

  /** With every append succeeding, the response is applied in full: the history records all of it, and the
      own sequence passes every own delta in it. */
  lemma {:induction false} ApplyDeltasRecords(n: Node, ds: seq<StateDelta>)
    requires ReplicaValid(n.replica) && forall d :: d in ds ==> WellFormed(d)
    ensures var r := ApplyDeltas(n, ds, |ds|, Done);
            && r.1 && r.0.history == RecordAll(n.history, ds) && ReplicaValid(r.0.replica)
            && r.0.replica.nodeId == n.replica.nodeId && r.0.replica.kmax == n.replica.kmax
            && n.replica.deltaSeq <= r.0.replica.deltaSeq
            && (n.replica.deltaSeq < r.0.replica.deltaSeq ==> exists d :: d in ds && d.origin == n.replica.nodeId)
            && forall d :: d in ds && d.origin == n.replica.nodeId ==> d.sequence <= r.0.replica.deltaSeq
    decreases |ds|
  {
    hide ReplicaValid, WellFormed, ContentsLeq, Subsumes, AfterRecord;
    if ds != [] {
      var d, rest := ds[0], ds[1..];
      assert d in ds;
      ReceiveAdvancesOnce(n.replica, d);
      ReceiveGrows(n.replica, d);
      var n1 := ApplyDelta(n, d, Done);
      ApplyDeltasRecords(n1, rest);
      RecordAllAppend(n.history, [d], rest);
      assert [d] + rest == ds;
      assert RecordAll(n.history, [d]) == AfterRecord(n.history, d) by { assert [d][..0] == []; }
    }
  }

  // ---------------------------------------------------------------- one round

  /** Nodes between which a range repair is due and can be served. */
  ghost predicate Servable(x: Node, y: Node) {
    && Ready(x) && Ready(y) && StoredWellFormed(x.history)
    && forall o, s: U64 :: Advertised(y, o) < s <= Advertised(x, o) ==> s in At(x.history, o)
  }

  function Gap(x: Node, y: Node, o: NodeId): nat {
    if Advertised(x, o) > Advertised(y, o) then Advertised(x, o) - Advertised(y, o) else 0
  }

  function Asked(x: Node, y: Node, o: NodeId): DeltaRange {
    RangeFor(LocalDigest(y).sequences, LocalDigest(x).sequences, o)
  }

  lemma AskedIs(x: Node, y: Node, o: NodeId)
    requires Ready(x) && Gap(x, y, o) > 0
    ensures var r := Asked(x, y, o);
            && RangeOk(r) && r.origin == o && r.from == Advertised(y, o) + 1
            && r.to == Advertised(y, o) + (if Gap(x, y, o) > 256 then 256 else Gap(x, y, o))
  {
    hide LocalDigest, HistValid;
    RangeForMeaning(LocalDigest(y).sequences, LocalDigest(x).sequences, o);
    DigestValid(x);
  }

  /** Whether the very ranges that `y` asks of `x` now are stored in full. */
  ghost predicate Served(x: Node, y: Node) {
    && Ready(x) && Ready(y) && StoredWellFormed(x.history)
    && forall o :: Gap(x, y, o) > 0 ==> RangeOf(x.history, Asked(x, y, o)).Some?
  }

  lemma ServableServed(x: Node, y: Node)
    requires Servable(x, y)
    ensures Served(x, y)
  {
    hide LocalDigest, HistValid, Asked, Ready;
    forall o | Gap(x, y, o) > 0 ensures RangeOf(x.history, Asked(x, y, o)).Some? {
      AskedIs(x, y, o);
      var r := Asked(x, y, o);
      forall s: U64 | r.from <= s <= r.to ensures s in At(x.history, o) {
        assert Advertised(y, o) < s <= Advertised(x, o);
      }
    }
  }

  /** The request holds exactly one range for each origin with a gap. */
  lemma RequestIs(x: Node, y: Node)
    requires Ready(x)
    ensures var ranges := MissingRanges(LocalDigest(y).sequences, LocalDigest(x).sequences);
            && (forall r :: r in ranges ==> Gap(x, y, r.origin) > 0 && r == Asked(x, y, r.origin))
            && (forall o :: Gap(x, y, o) > 0 ==> Asked(x, y, o) in ranges)
            && (ranges != [] ==> ValidRanges(ranges))
  {
    hide LocalDigest, RangeFor, RangeOf, MissingRanges;
    var local, peer := LocalDigest(y).sequences, LocalDigest(x).sequences;
    assert ValidSequences(peer) by { DigestValid(x); }
    RequestAgreement(local, peer);
    forall r | r in MissingRanges(local, peer) ensures Gap(x, y, r.origin) > 0 {
      assert r.origin in BehindOrigins(local, peer);
    }
  }

  lemma RequestServed(x: Node, y: Node)
    requires Served(x, y)
    ensures var ranges := MissingRanges(LocalDigest(y).sequences, LocalDigest(x).sequences);
            && (forall r :: r in ranges ==> RangeOf(x.history, r).Some?)
            && (forall o :: Gap(x, y, o) > 0 ==> Asked(x, y, o) in ranges)
            && (ranges != [] ==> ValidRanges(ranges))
  {
    hide LocalDigest, RangeFor, RangeOf, MissingRanges, Asked, Gap;
    RequestIs(x, y);
  }

  /** The request is answered by a range response, which is applied in full. */
  lemma RoundApplies(x: Node, y: Node, o: NodeId) returns (ds: seq<StateDelta>)
    requires Served(x, y) && Gap(x, y, o) > 0
    ensures var r := DigestRound(x, y);
            && r.0 == Bumped(x, Next64(Next64(x.outSeq)))
            && LocalDigest(r.1) == LocalDigest(ApplyDeltas(y, ds, |ds|, Done).0)
            && r.1.history == ApplyDeltas(y, ds, |ds|, Done).0.history
            && r.1.replica == ApplyDeltas(y, ds, |ds|, Done).0.replica
    ensures CollectRanges(x.history, MissingRanges(LocalDigest(y).sequences, LocalDigest(x).sequences)) == Some(ds)
    ensures forall d :: d in ds ==> WellFormed(d) && Gap(x, y, d.origin) > 0
  {
    hide LocalDigest, RangeOf, MissingRanges, CollectRanges, ApplyDeltas, HistValid, ReplicaValid, Asked, Gap, DigestRound;
    RequestServed(x, y);
    RequestIs(x, y);
    var ranges := MissingRanges(LocalDigest(y).sequences, LocalDigest(x).sequences);
    CollectAll(x.history, ranges);
    ds := CollectRanges(x.history, ranges).value;
    forall d | d in ds ensures Gap(x, y, d.origin) > 0 {
      assert FromRanges(d, ranges);
      var j :| 0 <= j < |ranges| && ranges[j].origin == d.origin;
      assert ranges[j] in ranges;
    }
    assert ValidRecovered(ds) by { ServedValid(x, ranges, ds, Asked(x, y, o)); }
    DigestValid(x);
    var x1, y0 := Bumped(x, Next64(x.outSeq)), Bumped(y, Next64(y.outSeq));
    assert HandleDigest(y, LocalDigest(x)) == Send(y, RangeReqMsg(ranges, LocalDigest(y)));
    assert HandleRangeReq(x1, ranges, LocalDigest(y)) == Send(x1, RangeRespMsg(ds));
    FullRound(x, y, RangeReqMsg(ranges, LocalDigest(y)), RangeRespMsg(ds));
    OutSeqIrrelevant(y, y0, ds, |ds|, Done);
    ApplyDeltasRecords(y0, ds);
    SameDigestParts(ApplyDeltas(y, ds, |ds|, Done).0, DigestRound(x, y).1);
  }

  lemma SameDigestParts(n: Node, m: Node)
    requires n.replica == m.replica && n.history == m.history
    ensures LocalDigest(n) == LocalDigest(m)
  {
  }

  lemma {:induction false} OutSeqIrrelevant(n: Node, m: Node, ds: seq<StateDelta>, failAt: nat, io: Append)
    requires m == n.(outSeq := m.outSeq)
    ensures ApplyDeltas(m, ds, failAt, io).0 == ApplyDeltas(n, ds, failAt, io).0.(outSeq := m.outSeq)
    decreases |ds|
  {
    if ds != [] {
      var now := if failAt > 0 then Done else io;
      var n1, m1 := ApplyDelta(n, ds[0], now), ApplyDelta(m, ds[0], now);
      assert m1 == n1.(outSeq := m.outSeq);
      if DeltaApplied(n, ds[0], now) {
        OutSeqIrrelevant(n1, m1, ds[1..], if failAt > 0 then failAt - 1 else 0, io);
      }
    }
  }

  lemma ServedValid(x: Node, ranges: seq<DeltaRange>, ds: seq<StateDelta>, r: DeltaRange)
    requires Ready(x) && StoredWellFormed(x.history) && ValidRanges(ranges) && r in ranges
    requires forall q :: q in ranges ==> RangeOf(x.history, q).Some?
    requires CollectRanges(x.history, ranges) == Some(ds) && forall d :: d in ds ==> WellFormed(d)
    ensures ValidRecovered(ds)
  {
    hide RangeOf;
    var i :| 0 <= i < |ranges| && ranges[i] == r;
    var pre, post := CollectSplits(x.history, ranges, i);
    ServedBlock(x.history, r);
    assert RangeOk(ranges[i]);
    RangeOkMeaning(r);
    assert ds != [];
    forall k | 0 <= k < |ds| ensures ValidRecoveredDelta(ds[k]) {
      assert ds[k] in ds;
    }
  }

  /** Range repair makes progress: one served round lowers the gap of every origin with room by min(256, gap), and
      leaves a jammed one exactly as it was. */
  lemma RangeRepairProgress(x: Node, y: Node, o: NodeId)
    requires Served(x, y) && Gap(x, y, o) > 0
    ensures var r := DigestRound(x, y);
            && Advertised(r.0, o) == Advertised(x, o)
            && (o == y.replica.nodeId || Room(y.history, o) ==>
                  && Gap(r.0, r.1, o) + (if Gap(x, y, o) > 256 then 256 else Gap(x, y, o)) <= Gap(x, y, o)
                  && (o != y.replica.nodeId ==> Room(r.1.history, o)))
            && (o != y.replica.nodeId ==>
                  (Advertised(r.1, o) > Advertised(y, o) <==> Room(y.history, o)))
            && (o != y.replica.nodeId && !Room(y.history, o) ==>
                  Advertised(r.1, o) == Advertised(y, o) && !Room(r.1.history, o))
  {
    hide LocalDigest, RangeOf, MissingRanges, CollectRanges, ApplyDeltas, DigestRound, RecordAll, HistValid,
         ReplicaValid, Above, Asked;
    var ds := RoundApplies(x, y, o);
    var r := DigestRound(x, y);
    SameDigestParts(x, r.0);
    AskedIs(x, y, o);
    RequestServed(x, y);
    var ranges := MissingRanges(LocalDigest(y).sequences, LocalDigest(x).sequences);
    var i :| 0 <= i < |ranges| && ranges[i] == Asked(x, y, o);
    var pre, post := CollectSplits(x.history, ranges, i);
    var block := RangeOf(x.history, ranges[i]).value;
    ServedBlock(x.history, ranges[i]);
    ApplyDeltasRecords(y, ds);
    AdvertisedIs(y, o);
    AdvertisedIs(r.1, o);
    if o == y.replica.nodeId {
      assert block[|block| - 1] in ds;
    } else {
      BlockRecorded(y.history, pre, block, post, o);
    }
  }

  lemma BlockRecorded(h: Hist, pre: seq<StateDelta>, block: seq<StateDelta>, post: seq<StateDelta>, o: NodeId)
    requires HistValid(h) && ValidNodeId(o) && Block(block, o, Watermark(h, o) + 1) && block != []
    requires forall d :: d in pre + post ==> d.origin != o
    ensures var g := RecordAll(h, pre + block + post);
            && (Room(h, o) ==> Room(g, o) && Watermark(g, o) >= Watermark(h, o) + |block|)
            && (!Room(h, o) ==> Watermark(g, o) == Watermark(h, o) && !Room(g, o))
  {
    var h1 := RecordAll(h, pre);
    var h2 := RecordAll(h1, block);
    RecordAllAppend(h, pre, block);
    RecordAllAppend(h, pre + block, post);
    RecordOthers(h, pre, o);
    assert Above(h1, o) == Above(h, o);
    JammedIsNoRoom(h1, o);
    if Room(h, o) {
      BlockWithRoom(h1, block, o);
    } else {
      BlockJammed(h1, block, o);
      JammedIsNoRoom(h2, o);
    }
    RecordOthers(h2, post, o);
    assert Above(RecordAll(h2, post), o) == Above(h2, o);
  }

  // ---------------------------------------------------------------- until the gap is closed

  lemma {:induction false} RecordAllEffect(h: Hist, ds: seq<StateDelta>)
    requires HistValid(h)
    ensures var g := RecordAll(h, ds);
            && HistValid(g) && g.capacity == h.capacity
            && (forall o :: Watermark(h, o) <= Watermark(g, o))
            && (forall o, s :: s in At(g, o) ==> s in At(h, o) || exists d :: d in ds && d.origin == o && d.sequence == s)
  {
    if ds != [] {
      var init, d := ds[..|ds| - 1], ds[|ds| - 1];
      RecordAllEffect(h, init);
      RecordEffect(RecordAll(h, init), d);
      assert forall x :: x in init ==> x in ds;
    }
  }

  lemma RoundKeepsServable(x: Node, y: Node, o: NodeId)
    requires Servable(x, y) && Gap(x, y, o) > 0
    ensures var r := DigestRound(x, y);
            Servable(r.0, r.1) && r.1.replica.nodeId == y.replica.nodeId
            && forall p :: Advertised(y, p) <= Advertised(r.1, p) && Advertised(r.0, p) == Advertised(x, p)
  {
    hide LocalDigest, RangeOf, MissingRanges, CollectRanges, ApplyDeltas, DigestRound, RecordAll, HistValid,
         ReplicaValid, Above;
    ServableServed(x, y);
    var ds := RoundApplies(x, y, o);
    var r := DigestRound(x, y);
    SameDigestParts(x, r.0);
    ApplyDeltasRecords(y, ds);
    RecordAllEffect(y.history, ds);
    forall p ensures Advertised(y, p) <= Advertised(r.1, p) {
      AdvertisedIs(y, p);
      AdvertisedIs(r.1, p);
    }
    forall p, s: U64 | Advertised(r.1, p) < s <= Advertised(r.0, p) ensures s in At(r.0.history, p) {
      assert Advertised(y, p) < s <= Advertised(x, p);
    }
  }

  ghost predicate NoGap(x: Node, y: Node) {
    forall o :: Gap(x, y, o) == 0
  }

  /** Digest rounds in one direction, until nothing is missing or `n` rounds have been spent. */
  ghost function RepairRounds(x: Node, y: Node, n: nat): (Node, Node)
    decreases n
  {
    hide DigestRound, NoGap;
    if n == 0 || NoGap(x, y) then (x, y)
    else var r := DigestRound(x, y); RepairRounds(r.0, r.1, n - 1)
  }

  /** Range repair terminates: rounds enough to cover the largest gap, 256 at a time, close every gap. */
  lemma {:induction false} RangeRepairTerminates(x: Node, y: Node, n: nat)
    requires Servable(x, y)
    requires forall o :: Gap(x, y, o) > 0 ==> o == y.replica.nodeId || Room(y.history, o)
    requires forall o :: Gap(x, y, o) <= 256 * n
    ensures var r := RepairRounds(x, y, n); NoGap(r.0, r.1)
    decreases n
  {
    hide DigestRound, Servable, Served, Room, Gap;
    ServableServed(x, y);
    if n > 0 && !NoGap(x, y) {
      var o :| Gap(x, y, o) != 0;
      var r := DigestRound(x, y);
      RoundKeepsServable(x, y, o);
      forall p
        ensures Gap(r.0, r.1, p) <= 256 * (n - 1)
        ensures Gap(r.0, r.1, p) > 0 ==> p == r.1.replica.nodeId || Room(r.1.history, p)
      {
        if Gap(x, y, p) > 0 {
          RangeRepairProgress(x, y, p);
        } else {
          GapStaysClosed(x, y, r.0, r.1, p);
        }
      }
      RangeRepairTerminates(r.0, r.1, n - 1);
    }
  }

  lemma JammedRound(x: Node, y: Node, o: NodeId)
    requires Servable(x, y) && Gap(x, y, o) > 0 && o != y.replica.nodeId && !Room(y.history, o)
    ensures var r := DigestRound(x, y);
            && Servable(r.0, r.1) && r.1.replica.nodeId == y.replica.nodeId
            && Gap(r.0, r.1, o) == Gap(x, y, o) && !Room(r.1.history, o)
  {
    hide DigestRound, Servable, Served, Room, Advertised;
    ServableServed(x, y);
    RoundKeepsServable(x, y, o);
    RangeRepairProgress(x, y, o);
  }

  /** A jammed origin never moves: after any number of rounds its gap is what it was. */
  lemma {:induction false} JammedStays(x: Node, y: Node, n: nat, o: NodeId)
    requires Servable(x, y) && Gap(x, y, o) > 0 && o != y.replica.nodeId && !Room(y.history, o)
    ensures var r := RepairRounds(x, y, n); Gap(r.0, r.1, o) == Gap(x, y, o)
    decreases n
  {
    hide DigestRound, Servable, NoGap, Room, Gap;
    if n > 0 && !NoGap(x, y) {
      var r := DigestRound(x, y);
      JammedRound(x, y, o);
      JammedStays(r.0, r.1, n - 1, o);
    }
  }

  ghost predicate Repaired(x: Node, y: Node, n: nat) {
    var r := RepairRounds(x, y, n); NoGap(r.0, r.1)
  }

  /** Repair by ranges closes every gap after some number of rounds if and only if every origin with a gap is the
      receiver's own or has room in the receiver's history. */
  lemma RepairedExactlyWithRoom(x: Node, y: Node)
    requires Servable(x, y)
    ensures (exists n :: Repaired(x, y, n)) <==>
            forall o :: Gap(x, y, o) > 0 ==> o == y.replica.nodeId || Room(y.history, o)
  {
    hide DigestRound, Servable, Room, RepairRounds;
    if forall o :: Gap(x, y, o) > 0 ==> o == y.replica.nodeId || Room(y.history, o) {
      var n := MAX_U64 / 256 + 1;
      RangeRepairTerminates(x, y, n);
      assert Repaired(x, y, n);
    } else {
      var o :| Gap(x, y, o) > 0 && o != y.replica.nodeId && !Room(y.history, o);
      forall n: nat ensures !Repaired(x, y, n) {
        JammedStays(x, y, n, o);
      }
    }
  }

  lemma GapStaysClosed(x: Node, y: Node, x': Node, y': Node, o: NodeId)
    requires Gap(x, y, o) == 0 && Advertised(x', o) == Advertised(x, o) && Advertised(y, o) <= Advertised(y', o)
    ensures Gap(x', y', o) == 0
  {
  }

  /** The assumptions above hold of every node of every run. */
  lemma ReachableReady(cfg: Config, ids: set<NodeId>, actions: seq<Action>, id: NodeId)
    requires ConfigOk(cfg) && ValidIds(ids) && id in ids
    ensures var c := Run(Start(cfg, ids), actions);
            id in c.nodes && Ready(c.nodes[id]) && StoredWellFormed(c.nodes[id].history)
  {
    hide Run, Start;
    var c := Run(Start(cfg, ids), actions);
    RunInv(cfg, ids, actions, {});
    var n := c.nodes[id];
    assert NodeInv(c.issued, cfg.kmax, {}, id, n);
    forall o, s | s in At(n.history, o)
      ensures WellFormed(At(n.history, o)[s]) && (o == id ==> s <= n.replica.deltaSeq)
    {
      assert SlotValid(o, At(n.history, o), Watermark(n.history, o), n.history.capacity);
      assert IsIssued(c.issued, At(n.history, o)[s]);
    }
  }
}
