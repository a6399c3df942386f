/** Encodings that meet what Wal and Storage ask of theirs, so that nothing proved from those is empty. */
module Encodings {
  import opened Base
  import opened TopK
  import opened Sum
  import opened Protocol
  import Storage
  import Wal

  /** A nested list of numbers, as JSON would write it with brackets and unary digits. */
  datatype Tree = Leaf(n: nat) | Node(children: seq<Tree>)

  const OPEN: Wal.Byte := 40
  const CLOSE: Wal.Byte := 41
  const ZERO: Wal.Byte := 48
  const ONE: Wal.Byte := 49

  function Digits(n: nat): seq<Wal.Byte> {
    if n == 0 then [ZERO] else [ONE] + Digits(n - 1)
  }

  function Text(t: Tree): seq<Wal.Byte>
    decreases t
  {
    match t
    case Leaf(n) => Digits(n)
    case Node(ts) => [OPEN] + Texts(ts) + [CLOSE]
  }

  function Texts(ts: seq<Tree>): seq<Wal.Byte>
    decreases ts
  {
    if ts == [] then [] else Text(ts[0]) + Texts(ts[1..])
  }

  predicate Printable(s: seq<Wal.Byte>) {
    forall i :: 0 <= i < |s| ==> s[i] == OPEN || s[i] == CLOSE || s[i] == ZERO || s[i] == ONE
  }

  lemma {:induction false} DigitsPrintable(n: nat)
    ensures Printable(Digits(n)) && (Digits(n)[0] == ZERO || Digits(n)[0] == ONE)
  {
    if n > 0 { DigitsPrintable(n - 1); }
  }

  lemma {:induction false} TextPrintable(t: Tree)
    ensures Text(t) != [] && Text(t)[0] != CLOSE && Printable(Text(t))
    decreases t
  {
    match t
    case Leaf(n) => DigitsPrintable(n);
    case Node(ts) => TextsPrintable(ts);
  }

  lemma {:induction false} TextsPrintable(ts: seq<Tree>)
    ensures Printable(Texts(ts))
    decreases ts
  {
    if ts != [] {
      TextPrintable(ts[0]);
      TextsPrintable(ts[1..]);
    }
  }

  // ---------------------------------------------------------------- reading back

  lemma {:induction false} DigitsPrefix(m: nat, n: nat, x: seq<Wal.Byte>, y: seq<Wal.Byte>)
    requires Digits(m) + x == Digits(n) + y
    ensures m == n && x == y
  {
    var a, b := Digits(m) + x, Digits(n) + y;
    assert a[0] == Digits(m)[0] && b[0] == Digits(n)[0];
    if m > 0 && n > 0 {
      assert a[1..] == Digits(m - 1) + x && b[1..] == Digits(n - 1) + y;
      DigitsPrefix(m - 1, n - 1, x, y);
    } else {
      assert a[1..] == x && b[1..] == y;
    }
  }

  /** No text is a proper prefix of another: what follows it starts at one place only. */
  lemma {:induction false} TextPrefix(t: Tree, u: Tree, x: seq<Wal.Byte>, y: seq<Wal.Byte>)
    requires Text(t) + x == Text(u) + y
    ensures t == u && x == y
    decreases t
  {
    var a, b := Text(t) + x, Text(u) + y;
    if t.Leaf? { DigitsPrintable(t.n); }
    if u.Leaf? { DigitsPrintable(u.n); }
    assert a[0] == Text(t)[0] && b[0] == Text(u)[0];
    if t.Leaf? && u.Leaf? {
      DigitsPrefix(t.n, u.n, x, y);
    } else {
      assert t.Node? && u.Node?;
      assert a[1..] == Texts(t.children) + ([CLOSE] + x) && b[1..] == Texts(u.children) + ([CLOSE] + y);
      TextsPrefix(t.children, u.children, x, y);
    }
  }

  lemma {:induction false} TextsPrefix(ts: seq<Tree>, us: seq<Tree>, x: seq<Wal.Byte>, y: seq<Wal.Byte>)
    requires Texts(ts) + ([CLOSE] + x) == Texts(us) + ([CLOSE] + y)
    ensures ts == us && x == y
    decreases ts
  {
    var a, b := Texts(ts) + ([CLOSE] + x), Texts(us) + ([CLOSE] + y);
    if ts != [] {
      TextPrintable(ts[0]);
      assert a == Text(ts[0]) + (Texts(ts[1..]) + ([CLOSE] + x));
      assert a[0] == Text(ts[0])[0];
    } else {
      assert a == [CLOSE] + x;
    }
    if us != [] {
      TextPrintable(us[0]);
      assert b == Text(us[0]) + (Texts(us[1..]) + ([CLOSE] + y));
      assert b[0] == Text(us[0])[0];
    } else {
      assert b == [CLOSE] + y;
    }
    if ts == [] {
      assert a[1..] == x && b[1..] == y;
    } else {
      TextPrefix(ts[0], us[0], Texts(ts[1..]) + ([CLOSE] + x), Texts(us[1..]) + ([CLOSE] + y));
      TextsPrefix(ts[1..], us[1..], x, y);
      assert ts == [ts[0]] + ts[1..] && us == [us[0]] + us[1..];
    }
  }

  lemma TextInjective(t: Tree, u: Tree)
    requires Text(t) == Text(u)
    ensures t == u
  {
    assert Text(t) + [] == Text(t) && Text(u) + [] == Text(u);
    TextPrefix(t, u, [], []);
  }

  // ---------------------------------------------------------------- values as trees

  function OfInt(i: int): Tree {
    Node([Leaf(if i < 0 then 1 else 0), Leaf(if i < 0 then -i else i)])
  }

  function OfString(s: string): Tree {
    Node(seq(|s|, i requires 0 <= i < |s| => Leaf(s[i] as int)))
  }

  lemma StringInjective(s: string, t: string)
    requires OfString(s) == OfString(t)
    ensures s == t
  {
    forall i | 0 <= i < |s| ensures i < |t| && s[i] == t[i] {
      assert OfString(s).children[i] == Leaf(s[i] as int);
      assert OfString(t).children[i] == Leaf(t[i] as int);
    }
  }

  ghost function OfMap(m: map<NodeId, U64>): Tree {
    var ks := SortStrings(m.Keys);
    Node(seq(|ks|, i requires 0 <= i < |ks| => Node([OfString(ks[i]), Leaf(Get(m, ks[i]))])))
  }

  lemma MapIncluded(m: map<NodeId, U64>, n: map<NodeId, U64>, k: NodeId)
    requires OfMap(m) == OfMap(n) && k in m
    ensures k in n && m[k] == n[k]
  {
    var ks, ls := SortStrings(m.Keys), SortStrings(n.Keys);
    SortStringsIncreasing(m.Keys);
    SortStringsIncreasing(n.Keys);
    var i :| 0 <= i < |ks| && ks[i] == k;
    assert OfMap(m).children[i] == Node([OfString(k), Leaf(m[k])]);
    assert OfMap(n).children[i] == Node([OfString(ls[i]), Leaf(Get(n, ls[i]))]);
    assert OfMap(m).children[i].children[0] == OfMap(n).children[i].children[0];
    assert OfMap(m).children[i].children[1] == OfMap(n).children[i].children[1];
    StringInjective(k, ls[i]);
    assert ls[i] in ls;
  }

  lemma MapInjective(m: map<NodeId, U64>, n: map<NodeId, U64>)
    requires OfMap(m) == OfMap(n)
    ensures m == n
  {
    forall k ensures k in m <==> k in n
      ensures k in m ==> m[k] == n[k]
    {
      if k in m { MapIncluded(m, n, k); }
      if k in n { MapIncluded(n, m, k); }
    }
  }

  function OfCandidate(c: Candidate): Tree {
    Node([OfString(c.itemId), OfInt(c.score), OfInt(c.eventTs), OfString(c.origin)])
  }

  lemma CandidateInjective(c: Candidate, d: Candidate)
    requires OfCandidate(c) == OfCandidate(d)
    ensures c == d
  {
    var s, t := OfCandidate(c).children, OfCandidate(d).children;
    assert s[0] == t[0] && s[1] == t[1] && s[2] == t[2] && s[3] == t[3];
    assert OfInt(c.score).children[0] == OfInt(d.score).children[0];
    assert OfInt(c.score).children[1] == OfInt(d.score).children[1];
    assert OfInt(c.eventTs).children[0] == OfInt(d.eventTs).children[0];
    assert OfInt(c.eventTs).children[1] == OfInt(d.eventTs).children[1];
    StringInjective(c.itemId, d.itemId);
    StringInjective(c.origin, d.origin);
  }

  function OfKind(k: Kind): Tree {
    match k case SUM => Leaf(0) case TOPK => Leaf(1) case OtherKind => Leaf(2)
  }

  function OfBody(b: DeltaBody): Tree {
    match b
    case SumBody(node, value) => Node([OfString(node), Leaf(value)])
    case TopBody(c) => Node([OfCandidate(c)])
    case BadBody => Node([])
  }

  lemma BodyInjective(a: DeltaBody, b: DeltaBody)
    requires OfBody(a) == OfBody(b)
    ensures a == b
  {
    var s, t := OfBody(a).children, OfBody(b).children;
    assert |s| == |t|;
    if a.SumBody? {
      assert s[0] == t[0] && s[1] == t[1];
      StringInjective(a.node, b.node);
    } else if a.TopBody? {
      assert s[0] == t[0];
      CandidateInjective(a.candidate, b.candidate);
    }
  }

  function OfDelta(d: StateDelta): Tree {
    Node([OfKind(d.kind), Leaf(d.version), OfString(d.origin), Leaf(d.sequence), OfBody(d.body)])
  }

  lemma DeltaInjective(d: StateDelta, e: StateDelta)
    requires OfDelta(d) == OfDelta(e)
    ensures d == e
  {
    var s, t := OfDelta(d).children, OfDelta(e).children;
    assert s[0] == t[0] && s[1] == t[1] && s[2] == t[2] && s[3] == t[3] && s[4] == t[4];
    StringInjective(d.origin, e.origin);
    BodyInjective(d.body, e.body);
  }

  ghost function OfSum(f: Fragment<SumState>): Tree {
    match f
    case Absent => Leaf(0)
    case Malformed => Leaf(1)
    case Present(s) => Node([OfMap(s.contrib), Leaf(s.version)])
  }

  lemma SumInjective(f: Fragment<SumState>, g: Fragment<SumState>)
    requires OfSum(f) == OfSum(g)
    ensures f == g
  {
    if f.Present? {
      var s, t := OfSum(f).children, OfSum(g).children;
      assert s[0] == t[0] && s[1] == t[1];
      MapInjective(f.payload.contrib, g.payload.contrib);
    }
  }

  function OfCandidates(cs: seq<Candidate>): Tree {
    Node(seq(|cs|, i requires 0 <= i < |cs| => OfCandidate(cs[i])))
  }

  lemma CandidatesInjective(cs: seq<Candidate>, ds: seq<Candidate>)
    requires OfCandidates(cs) == OfCandidates(ds)
    ensures cs == ds
  {
    assert |OfCandidates(cs).children| == |OfCandidates(ds).children|;
    forall i | 0 <= i < |cs| ensures cs[i] == ds[i] {
      assert OfCandidates(cs).children[i] == OfCandidates(ds).children[i];
      CandidateInjective(cs[i], ds[i]);
    }
  }

  function OfTop(f: Fragment<TopState>): Tree {
    match f
    case Absent => Leaf(0)
    case Malformed => Leaf(1)
    case Present(s) => Node([OfCandidates(s.candidates), Leaf(s.version)])
  }

  lemma TopInjective(f: Fragment<TopState>, g: Fragment<TopState>)
    requires OfTop(f) == OfTop(g)
    ensures f == g
  {
    if f.Present? {
      var s, t := OfTop(f).children, OfTop(g).children;
      assert s[0] == t[0] && s[1] == t[1];
      CandidatesInjective(f.payload.candidates, g.payload.candidates);
    }
  }

  ghost function OfSnapshot(s: SnapshotResp): Tree {
    Node([Leaf(s.version), OfSum(s.sumState), OfTop(s.topkState), OfMap(s.sequences)])
  }

  lemma SnapshotInjective(a: SnapshotResp, b: SnapshotResp)
    requires OfSnapshot(a) == OfSnapshot(b)
    ensures a == b
  {
    var s, t := OfSnapshot(a).children, OfSnapshot(b).children;
    assert s[0] == t[0] && s[1] == t[1] && s[2] == t[2] && s[3] == t[3];
    SumInjective(a.sumState, b.sumState);
    TopInjective(a.topkState, b.topkState);
    MapInjective(a.sequences, b.sequences);
  }

  function OfBytes(s: seq<Wal.Byte>): Tree {
    Node(seq(|s|, i requires 0 <= i < |s| => Leaf(s[i])))
  }

  function OfRecord(r: Wal.Record): Tree {
    Node([Leaf(r.index), OfString(r.kind), OfBytes(r.payload), Leaf(r.checksum)])
  }

  lemma RecordInjective(q: Wal.Record, r: Wal.Record)
    requires OfRecord(q) == OfRecord(r)
    ensures q == r
  {
    var s, t := OfRecord(q).children, OfRecord(r).children;
    assert s[0] == t[0] && s[1] == t[1] && s[2] == t[2] && s[3] == t[3];
    StringInjective(q.kind, r.kind);
    assert |OfBytes(q.payload).children| == |OfBytes(r.payload).children|;
    forall i | 0 <= i < |q.payload| ensures q.payload[i] == r.payload[i] {
      assert OfBytes(q.payload).children[i] == OfBytes(r.payload).children[i];
    }
  }

  // ---------------------------------------------------------------- the encodings

  ghost function ReadDelta(b: seq<Wal.Byte>): Option<StateDelta> {
    if exists d :: Text(OfDelta(d)) == b then var d :| Text(OfDelta(d)) == b; Some(d) else None
  }

  ghost function ReadSnapshot(b: seq<Wal.Byte>): Option<SnapshotResp> {
    if exists s :: Text(OfSnapshot(s)) == b then var s :| Text(OfSnapshot(s)) == b; Some(s) else None
  }

  ghost function ReadRecord(b: seq<Wal.Byte>): Option<Wal.Record> {
    if exists r :: Text(OfRecord(r)) == b then var r :| Text(OfRecord(r)) == b; Some(r) else None
  }

  /** Mutations can be encoded as the store requires. */
  lemma JsonExists() returns (j: Storage.Json)
    ensures Storage.JsonFaithful(j)
  {
    j := Storage.Json((d: StateDelta) => Text(OfDelta(d)), (b: seq<Wal.Byte>) => ReadDelta(b),
                      (s: SnapshotResp) => Text(OfSnapshot(s)), (b: seq<Wal.Byte>) => ReadSnapshot(b));
    forall d ensures j.encodeDelta(d) != [] && j.decodeDelta(j.encodeDelta(d)) == Some(d) {
      TextPrintable(OfDelta(d));
      var e := ReadDelta(Text(OfDelta(d))).value;
      TextInjective(OfDelta(d), OfDelta(e));
      DeltaInjective(d, e);
    }
    forall s ensures j.encodeSnapshot(s) != [] && j.decodeSnapshot(j.encodeSnapshot(s)) == Some(s) {
      TextPrintable(OfSnapshot(s));
      var e := ReadSnapshot(Text(OfSnapshot(s))).value;
      TextInjective(OfSnapshot(s), OfSnapshot(e));
      SnapshotInjective(s, e);
    }
  }

  /** Records can be encoded as the log requires, whatever their checksums are. */
  lemma CodecExists(digest: (U64, string, seq<Wal.Byte>) -> nat) returns (c: Wal.Codec)
    ensures Wal.Faithful(c) && c.digest == digest
  {
    c := Wal.Codec((r: Wal.Record) => Text(OfRecord(r)), (b: seq<Wal.Byte>) => ReadRecord(b), digest);
    forall r ensures var e := c.encode(r);
        e != [] && !Wal.Space(e[0]) && !Wal.Space(e[|e| - 1]) && Wal.NEWLINE !in e && c.decode(e) == Some(r)
    {
      TextPrintable(OfRecord(r));
      var q := ReadRecord(Text(OfRecord(r))).value;
      TextInjective(OfRecord(r), OfRecord(q));
      RecordInjective(r, q);
    }
  }
}
