/** Messages of internal/gossip/protocol and the digest comparison of internal/gossip/anti_entropy. */
module Protocol {
  import opened Base
  import opened TopK
  import opened Sum

  datatype Kind = SUM | TOPK | OtherKind

  /** The decoded JSON payload of a delta; `BadBody` does not parse. */
  datatype DeltaBody = SumBody(node: NodeId, value: U64) | TopBody(candidate: Candidate) | BadBody

  datatype StateDelta = StateDelta(kind: Kind, version: U64, origin: NodeId, sequence: U64, body: DeltaBody)

  /** A SHA-256 over the canonical serialisation, taken to be injective. */
  datatype Checksum = NoChecksum | OfSum(sum: SumState) | OfTop(topk: TopState)

  datatype AggregateDigest = AggregateDigest(version: U64, checksum: Checksum)

  datatype StateDigest = StateDigest(sum: AggregateDigest, topk: AggregateDigest, sequences: map<NodeId, U64>)

  datatype DeltaRange = DeltaRange(origin: NodeId, from: U64, to: U64)

  datatype Fragment<+T> = Absent | Malformed | Present(payload: T)

  datatype SnapshotResp = SnapshotResp(version: U64, sumState: Fragment<SumState>,
                                       topkState: Fragment<TopState>, sequences: map<NodeId, U64>)

  const MAX_DELTA_RANGE_SIZE: U64 := 256

  /** DecodeSUMDelta. */
  function DecodeSumDelta(d: StateDelta): Option<DeltaBody> {
    if d.kind == SUM && d.body.SumBody? && ValidNodeId(d.body.node) && (d.origin == "" || d.origin == d.body.node)
    then Some(d.body) else None
  }

  /** DecodeTOPKDelta: a payload of another shape parses as a candidate with zero fields. */
  function DecodeTopDelta(d: StateDelta): Option<Candidate> {
    var c := if d.body.TopBody? then d.body.candidate else Candidate("", 0, 0, "");
    if d.kind != TOPK || d.body.BadBody? || (d.origin != "" && d.origin != c.origin) then None else Some(c)
  }

  // ---------------------------------------------------------------- uint64 arithmetic

  function Add64(a: U64, b: U64): U64 {
    if a + b > MAX_U64 then a + b - MAX_U64 - 1 else a + b
  }

  function Sub64(a: U64, b: U64): U64 {
    if a >= b then a - b else a - b + MAX_U64 + 1
  }

  /** The guard shared by validateDeltaRanges and DeltaHistory.Range, in wrapping arithmetic. */
  predicate RangeOk(r: DeltaRange) {
    && ValidNodeId(r.origin)
    && r.from != 0
    && !(r.to < r.from)
    && !(Add64(Sub64(r.to, r.from), 1) > MAX_DELTA_RANGE_SIZE)
  }

  /** The guard means what it says over the integers: no accepted range wraps. */
  lemma RangeOkMeaning(r: DeltaRange)
    ensures RangeOk(r) <==> ValidNodeId(r.origin) && 1 <= r.from <= r.to && r.to - r.from + 1 <= 256
  {
  }

  ghost predicate DistinctOrigins(ranges: seq<DeltaRange>) {
    forall i, j :: 0 <= i < j < |ranges| ==> ranges[i].origin != ranges[j].origin
  }

  ghost predicate ValidRanges(ranges: seq<DeltaRange>) {
    ranges != [] && (forall i :: 0 <= i < |ranges| ==> RangeOk(ranges[i])) && DistinctOrigins(ranges)
  }

  method ValidateDeltaRanges(ranges: seq<DeltaRange>) returns (ok: bool)
    ensures ok <==> ValidRanges(ranges)
  {
    if |ranges| == 0 {
      return false;
    }
    var seen: set<NodeId> := {};
    for i := 0 to |ranges|
      invariant seen == set k | 0 <= k < i :: ranges[k].origin
      invariant forall k :: 0 <= k < i ==> RangeOk(ranges[k])
      invariant forall j, k :: 0 <= j < k < i ==> ranges[j].origin != ranges[k].origin
    {
      if !RangeOk(ranges[i]) || ranges[i].origin in seen {
        return false;
      }
      seen := seen + {ranges[i].origin};
    }
    return true;
  }

  predicate ValidRecoveredDelta(d: StateDelta) {
    && ValidNodeId(d.origin) && d.sequence != 0
    && match d.kind
       case SUM => DecodeSumDelta(d).Some?
       case TOPK => DecodeTopDelta(d).Some?
       case OtherKind => false
  }

  ghost predicate ValidRecovered(ds: seq<StateDelta>) {
    ds != [] && forall i :: 0 <= i < |ds| ==> ValidRecoveredDelta(ds[i])
  }

  method ValidateRecoveredDeltas(ds: seq<StateDelta>) returns (ok: bool)
    ensures ok <==> ValidRecovered(ds)
  {
    if |ds| == 0 {
      return false;
    }
    for i := 0 to |ds|
      invariant forall k :: 0 <= k < i ==> ValidRecoveredDelta(ds[k])
    {
      if !ValidRecoveredDelta(ds[i]) {
        return false;
      }
    }
    return true;
  }

  predicate ValidSequences(m: map<NodeId, U64>) {
    forall k :: k in m ==> ValidNodeId(k) && m[k] != 0
  }

  // ---------------------------------------------------------------- missing ranges

  ghost predicate Increasing(l: seq<string>) {
    forall i, j :: 0 <= i < j < |l| ==> StrLess(l[i], l[j])
  }

  function StrInsert(l: seq<string>, s: string): seq<string> {
    if l == [] then [s]
    else if StrLess(s, l[0]) then [s] + l
    else [l[0]] + StrInsert(l[1..], s)
  }

  lemma {:induction false} StrInsertIncreasing(l: seq<string>, s: string)
    requires Increasing(l) && s !in l
    ensures Increasing(StrInsert(l, s))
    ensures forall x :: x in StrInsert(l, s) <==> x in l || x == s
  {
    if l != [] {
      if StrLess(s, l[0]) {
        forall j | 0 <= j < |l| ensures StrLess(s, l[j]) {
          if j > 0 { StrLessTransitive(s, l[0], l[j]); }
        }
      } else {
        StrLessTotal(s, l[0]);
        StrInsertIncreasing(l[1..], s);
        var r := StrInsert(l[1..], s);
        forall j | 0 <= j < |r| ensures StrLess(l[0], r[j]) {
          assert r[j] in r;
        }
        assert l == [l[0]] + l[1..];
      }
    }
  }

  ghost function SortStrings(s: set<string>): seq<string> {
    if s == {} then [] else var x :| x in s; StrInsert(SortStrings(s - {x}), x)
  }

  lemma {:induction false} SortStringsIncreasing(s: set<string>)
    ensures Increasing(SortStrings(s))
    ensures forall x :: x in SortStrings(s) <==> x in s
  {
    if s != {} {
      var x :| x in s && SortStrings(s) == StrInsert(SortStrings(s - {x}), x);
      SortStringsIncreasing(s - {x});
      StrInsertIncreasing(SortStrings(s - {x}), x);
    }
  }

  lemma {:induction false} IncreasingUnique(l: seq<string>, m: seq<string>)
    requires Increasing(l) && Increasing(m) && forall x :: x in l <==> x in m
    ensures l == m
  {
    if l == [] {
      assert forall i :: 0 <= i < |m| ==> m[i] in l;
    } else {
      assert l[0] in l && l[0] in m;
      assert m[0] in m && m[0] in l;
      var i :| 0 <= i < |m| && m[i] == l[0];
      var j :| 0 <= j < |l| && l[j] == m[0];
      if i > 0 && j > 0 {
        StrLessAsymmetric(m[0], m[i]);
      }
      forall x ensures x in l[1..] <==> x in m[1..] {
        IncreasingTail(l, x);
        IncreasingTail(m, x);
      }
      IncreasingUnique(l[1..], m[1..]);
    }
  }

  lemma IncreasingTail(l: seq<string>, x: string)
    requires Increasing(l) && l != []
    ensures x in l[1..] <==> x in l && x != l[0]
  {
    if x in l[1..] {
      var j :| 0 <= j < |l[1..]| && l[1..][j] == x;
      StrLessAsymmetric(l[0], l[j + 1]);
    }
  }

  ghost function BehindOrigins(local: map<NodeId, U64>, peer: map<NodeId, U64>): set<NodeId> {
    set o | o in peer && peer[o] > Get(local, o)
  }

  /** The range asked for one origin, in the source's wrapping arithmetic. */
  function RangeFor(local: map<NodeId, U64>, peer: map<NodeId, U64>, o: NodeId): DeltaRange {
    var from := Next64(Get(local, o));
    var to := Get(peer, o);
    DeltaRange(o, from, if Add64(Sub64(to, from), 1) > MAX_DELTA_RANGE_SIZE
                        then Sub64(Add64(from, MAX_DELTA_RANGE_SIZE), 1) else to)
  }

  ghost function RangesFor(local: map<NodeId, U64>, peer: map<NodeId, U64>, origins: seq<NodeId>): seq<DeltaRange> {
    seq(|origins|, i requires 0 <= i < |origins| => RangeFor(local, peer, origins[i]))
  }

  ghost function MissingRanges(local: map<NodeId, U64>, peer: map<NodeId, U64>): seq<DeltaRange> {
    RangesFor(local, peer, SortStrings(BehindOrigins(local, peer)))
  }

  /** Over the integers: start just above the local watermark, ask for at most 256, never past the peer. */
  lemma RangeForMeaning(local: map<NodeId, U64>, peer: map<NodeId, U64>, o: NodeId)
    requires o in BehindOrigins(local, peer)
    ensures var r := RangeFor(local, peer, o);
            && r.from == Get(local, o) + 1
            && r.to == if peer[o] - Get(local, o) > 256 then Get(local, o) + 256 else peer[o]
  {
  }

  /** Requester, validator and server agree: a request built from a valid peer digest passes every guard. */
  lemma RequestAgreement(local: map<NodeId, U64>, peer: map<NodeId, U64>)
    requires ValidSequences(peer)
    ensures BehindOrigins(local, peer) != {} <==> MissingRanges(local, peer) != []
    ensures MissingRanges(local, peer) != [] ==> ValidRanges(MissingRanges(local, peer))
    ensures forall r :: r in MissingRanges(local, peer) ==>
              r.origin in BehindOrigins(local, peer) && r == RangeFor(local, peer, r.origin)
    ensures forall o :: o in BehindOrigins(local, peer) ==> RangeFor(local, peer, o) in MissingRanges(local, peer)
  {
    var origins := SortStrings(BehindOrigins(local, peer));
    var ranges := MissingRanges(local, peer);
    SortStringsIncreasing(BehindOrigins(local, peer));
    if origins != [] { assert origins[0] in BehindOrigins(local, peer); }
    forall i | 0 <= i < |ranges| ensures RangeOk(ranges[i]) && ranges[i].origin in BehindOrigins(local, peer) {
      assert origins[i] in BehindOrigins(local, peer);
      RangeForMeaning(local, peer, origins[i]);
    }
    forall i, j | 0 <= i < j < |ranges| ensures ranges[i].origin != ranges[j].origin {
      StrLessAsymmetric(origins[i], origins[j]);
    }
    forall o | o in BehindOrigins(local, peer) ensures RangeFor(local, peer, o) in ranges {
      var i :| 0 <= i < |origins| && origins[i] == o;
      assert ranges[i] == RangeFor(local, peer, o);
    }
  }

  method MissingDeltaRanges(local: StateDigest, peer: StateDigest) returns (ranges: seq<DeltaRange>)
    ensures ranges == MissingRanges(local.sequences, peer.sequences)
  {
    var origins: seq<NodeId> := [];
    var todo := peer.sequences.Keys;
    ghost var behind := BehindOrigins(local.sequences, peer.sequences);
    while todo != {}
      invariant todo <= peer.sequences.Keys
      invariant Increasing(origins)
      invariant forall o :: o in origins <==> o in behind && o !in todo
      decreases todo
    {
      var o :| o in todo;
      if peer.sequences[o] > Get(local.sequences, o) {
        StrInsertIncreasing(origins, o);
        origins := StrInsert(origins, o);
      }
      todo := todo - {o};
    }
    SortStringsIncreasing(behind);
    IncreasingUnique(origins, SortStrings(behind));
    ranges := [];
    for i := 0 to |origins|
      invariant ranges == RangesFor(local.sequences, peer.sequences, origins)[..i]
    {
      var from := Next64(Get(local.sequences, origins[i]));
      var to := Get(peer.sequences, origins[i]);
      if Add64(Sub64(to, from), 1) > MAX_DELTA_RANGE_SIZE {
        to := Sub64(Add64(from, MAX_DELTA_RANGE_SIZE), 1);
      }
      ranges := ranges + [DeltaRange(origins[i], from, to)];
    }
  }

  // ---------------------------------------------------------------- snapshot wanted

  predicate DigestNeedsSnapshot(local: AggregateDigest, peer: AggregateDigest) {
    || peer.version > local.version
    || (peer.version == local.version && !peer.checksum.NoChecksum? && !local.checksum.NoChecksum?
        && peer.checksum != local.checksum)
  }

  function AggregatesNeedingSnapshot(local: StateDigest, peer: StateDigest): seq<Kind> {
    (if DigestNeedsSnapshot(local.sum, peer.sum) then [SUM] else [])
    + (if DigestNeedsSnapshot(local.topk, peer.topk) then [TOPK] else [])
  }
}
