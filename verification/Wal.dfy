/** The write-ahead log of internal/storage/wal, down to the bytes of its file. */
module Wal {
  import opened Base

  type Byte = x: int | 0 <= x < 256

  const NEWLINE: Byte := 10

  datatype Record = Record(index: U64, kind: string, payload: seq<Byte>, checksum: nat)

  /** JSON and SHA-256, as functions: what a record looks like as a line, and what its checksum must be. */
  datatype Codec = Codec(encode: Record -> seq<Byte>, decode: seq<Byte> -> Option<Record>,
                         digest: (U64, string, seq<Byte>) -> nat)

  predicate Space(b: Byte) {
    b == 32 || 9 <= b <= 13
  }

  function TrimLeft(s: seq<Byte>): seq<Byte> {
    if s != [] && Space(s[0]) then TrimLeft(s[1..]) else s
  }

  function TrimRight(s: seq<Byte>): seq<Byte> {
    if s != [] && Space(s[|s| - 1]) then TrimRight(s[..|s| - 1]) else s
  }

  function Trim(s: seq<Byte>): seq<Byte> {
    TrimRight(TrimLeft(s))
  }

  lemma {:induction false} TrimLeftIs(s: seq<Byte>) returns (i: nat)
    ensures i <= |s| && TrimLeft(s) == s[i..] && forall k :: 0 <= k < i ==> Space(s[k])
    ensures i < |s| ==> !Space(s[i])
  {
    hide Space;
    if s != [] && Space(s[0]) {
      var n := TrimLeftIs(s[1..]);
      i := n + 1;
      assert s[1..][n..] == s[i..];
      forall k | 0 <= k < i ensures Space(s[k]) {
        if k > 0 { assert s[k] == s[1..][k - 1]; }
      }
    } else {
      i := 0;
    }
  }

  lemma {:induction false} TrimRightIs(s: seq<Byte>) returns (j: nat)
    ensures j <= |s| && TrimRight(s) == s[..j] && forall k :: j <= k < |s| ==> Space(s[k])
    ensures j > 0 ==> !Space(s[j - 1])
  {
    hide Space;
    j := |s|;
    if s != [] && Space(s[j - 1]) {
      j := TrimRightIs(s[..j - 1]);
    }
  }

  /** Trimming takes exactly the white space at the two ends. */
  lemma TrimMeaning(s: seq<Byte>) returns (i: nat, j: nat)
    ensures i <= j <= |s| && Trim(s) == s[i..j]
    ensures forall k :: 0 <= k < i || j <= k < |s| ==> Space(s[k])
    ensures i < j ==> !Space(s[i]) && !Space(s[j - 1])
  {
    hide Space, TrimLeft, TrimRight;
    i := TrimLeftIs(s);
    var t := s[i..];
    var n := TrimRightIs(t);
    j := i + n;
    assert t[..n] == s[i..j];
    forall k | j <= k < |s| ensures Space(s[k]) {
      assert s[k] == t[k - i];
    }
    assert forall k :: 0 <= k < n ==> t[k] == s[i + k];
  }

  /** An encoded record is a JSON object on one line, and decodes back. */
  ghost predicate Faithful(c: Codec) {
    forall r :: (var e := c.encode(r);
      e != [] && !Space(e[0]) && !Space(e[|e| - 1]) && NEWLINE !in e && c.decode(e) == Some(r))
  }

  function Line(r: Record, c: Codec): seq<Byte> {
    c.encode(r) + [NEWLINE]
  }

  predicate RecordOk(r: Record, expected: U64, c: Codec) {
    r.index == expected && r.kind != "" && r.payload != [] && r.checksum == c.digest(r.index, r.kind, r.payload)
  }

  // ---------------------------------------------------------------- scanning

  /** A record that was read, the file offset after its line, and the length of that line. */
  datatype Kept = Kept(record: Record, end: nat, lineSize: nat)

  /** Offset of the first newline, or the length when there is none. */
  function LineEnd(b: seq<Byte>): (i: nat)
    ensures i <= |b| && NEWLINE !in b[..i] && (i < |b| ==> b[i] == NEWLINE)
  {
    if b == [] then 0
    else if b[0] == NEWLINE then 0
    else
      var i := LineEnd(b[1..]);
      assert b[..1 + i] == [b[0]] + b[1..][..i];
      1 + i
  }

  function Prepend(k: Kept, ks: Option<seq<Kept>>): Option<seq<Kept>> {
    match ks
    case None => None
    case Some(rest) => Some([k] + rest)
  }

  /** The record in a non-blank line, unless it is corrupt. */
  function LineRecord(text: seq<Byte>, expected: U64, c: Codec): Option<Record> {
    match c.decode(text)
    case None => None
    case Some(r) => if RecordOk(r, expected, c) then Some(r) else None
  }

  /** readRecords on the bytes from offset `start` on: None is a corrupt record. A last line without its
      newline is dropped; a blank line is skipped. */
  function Scan(b: seq<Byte>, start: nat, expected: U64, c: Codec): Option<seq<Kept>>
    decreases |b|
  {
    var i := LineEnd(b);
    if i == |b| then Some([])
    else
      var text, rest, next := Trim(b[..i + 1]), b[i + 1..], start + i + 1;
      if text == [] then Scan(rest, next, expected, c)
      else
        match LineRecord(text, expected, c)
        case None => None
        case Some(r) => Prepend(Kept(r, next, i + 1), Scan(rest, next, Next64(expected), c))
  }

  /** One line of the scan. */
  lemma ScanUnfold(b: seq<Byte>, start: nat, expected: U64, c: Codec)
    ensures var i := LineEnd(b);
            Scan(b, start, expected, c) ==
            if i == |b| then Some([])
            else if Trim(b[..i + 1]) == [] then Scan(b[i + 1..], start + i + 1, expected, c)
            else if LineRecord(Trim(b[..i + 1]), expected, c).None? then None
            else Prepend(Kept(LineRecord(Trim(b[..i + 1]), expected, c).value, start + i + 1, i + 1),
                         Scan(b[i + 1..], start + i + 1, Next64(expected), c))
  {
    hide Trim, LineEnd, LineRecord;
  }

  function Records(ks: seq<Kept>): seq<Record> {
    seq(|ks|, i requires 0 <= i < |ks| => ks[i].record)
  }

  /** The source's validSize: the lengths of the lines that held records. */
  function ValidSize(ks: seq<Kept>): nat {
    if ks == [] then 0 else ks[0].lineSize + ValidSize(ks[1..])
  }

  function LastEnd(ks: seq<Kept>, start: nat): nat {
    if ks == [] then start else ks[|ks| - 1].end
  }

  ghost predicate Shaped(ks: seq<Kept>, start: nat, stop: nat) {
    && (forall i :: 0 <= i < |ks| ==> start < ks[i].end <= stop)
    && (forall i, j :: 0 <= i < j < |ks| ==> ks[i].end < ks[j].end)
    && start + ValidSize(ks) <= LastEnd(ks, start) <= stop
  }

  /** One more line, of `n` bytes, in front. */
  lemma ShapedPrepend(k: Kept, ks: seq<Kept>, start: nat, n: nat, stop: nat)
    requires Shaped(ks, start + n, stop) && 0 < n && k.end == start + n && k.lineSize == n
    ensures Shaped([k] + ks, start, stop)
  {
    assert ([k] + ks)[1..] == ks;
  }

  lemma {:induction false} ScanShape(b: seq<Byte>, start: nat, expected: U64, c: Codec)
    requires Scan(b, start, expected, c).Some?
    ensures var ks := Scan(b, start, expected, c).value;
            && (forall i :: 0 <= i < |ks| ==> start < ks[i].end <= start + |b|)
            && (forall i, j :: 0 <= i < j < |ks| ==> ks[i].end < ks[j].end)
            && start + ValidSize(ks) <= LastEnd(ks, start) <= start + |b|
    decreases |b|
  {
    hide Scan, ValidSize, Trim, LineRecord, LineEnd;
    ScanUnfold(b, start, expected, c);
    var i := LineEnd(b);
    if i < |b| {
      var rest := b[i + 1..];
      if Trim(b[..i + 1]) == [] {
        ScanShape(rest, start + i + 1, expected, c);
      } else {
        ScanShape(rest, start + i + 1, Next64(expected), c);
        var k := Kept(LineRecord(Trim(b[..i + 1]), expected, c).value, start + i + 1, i + 1);
        var ks := Scan(rest, start + i + 1, Next64(expected), c).value;
        ShapedPrepend(k, ks, start, i + 1, start + |b|);
        assert Scan(b, start, expected, c) == Some([k] + ks);
      }
    } else {
      NoneKept(start);
    }
  }

  lemma NoneKept(start: nat)
    ensures ValidSize([]) == 0 && LastEnd([], start) == start
  {
  }

  lemma {:induction false} LineEndIs(b: seq<Byte>, i: nat)
    requires i <= |b| && NEWLINE !in b[..i] && (i < |b| ==> b[i] == NEWLINE)
    ensures LineEnd(b) == i
  {
    if b != [] && i > 0 {
      assert b[0] == b[..i][0];
      assert b[..i][1..] == b[1..][..i - 1];
      LineEndIs(b[1..], i - 1);
    }
  }

  lemma LineEndCut(b: seq<Byte>, cut: nat)
    requires cut <= |b|
    ensures LineEnd(b[..cut]) == if LineEnd(b) < cut then LineEnd(b) else cut
  {
    var i := if LineEnd(b) < cut then LineEnd(b) else cut;
    assert b[..cut][..i] == b[..LineEnd(b)][..i];
    LineEndIs(b[..cut], i);
  }

  ghost function Through(ks: seq<Kept>, cut: nat): nat {
    if ks == [] || ks[0].end > cut then 0 else 1 + Through(ks[1..], cut)
  }

  lemma {:induction false} ThroughMeaning(ks: seq<Kept>, cut: nat)
    requires forall i, j :: 0 <= i < j < |ks| ==> ks[i].end < ks[j].end
    ensures Through(ks, cut) <= |ks|
    ensures forall i :: 0 <= i < |ks| ==> (ks[i].end <= cut <==> i < Through(ks, cut))
  {
    if ks != [] && ks[0].end <= cut {
      ThroughMeaning(ks[1..], cut);
    }
  }

  /** Framing survives any cut: truncating a readable file at any byte keeps exactly the records whose full
      line lies below the cut, and the result is readable again. */
  lemma {:induction false} ScanCut(b: seq<Byte>, start: nat, expected: U64, c: Codec, cut: nat)
    requires Scan(b, start, expected, c).Some? && cut <= |b|
    ensures var ks := Scan(b, start, expected, c).value;
            && Through(ks, start + cut) <= |ks|
            && Scan(b[..cut], start, expected, c) == Some(ks[..Through(ks, start + cut)])
    decreases |b|
  {
    hide Trim, LineEnd, LineRecord, Scan;
    var i := LineEnd(b);
    var ks := Scan(b, start, expected, c).value;
    ScanUnfold(b, start, expected, c);
    ScanUnfold(b[..cut], start, expected, c);
    LineEndCut(b, cut);
    ThroughAtMost(ks, start + cut);
    if i < cut {
      var rest := b[i + 1..];
      assert b[..cut][..i + 1] == b[..i + 1];
      assert b[..cut][i + 1..] == rest[..cut - i - 1];
      if Trim(b[..i + 1]) == [] {
        ScanCut(rest, start + i + 1, expected, c, cut - i - 1);
      } else {
        ScanCut(rest, start + i + 1, Next64(expected), c, cut - i - 1);
        var k := Through(ks[1..], start + cut);
        assert ks[1..] == Scan(rest, start + i + 1, Next64(expected), c).value;
        assert ks[..k + 1] == [ks[0]] + ks[1..][..k];
      }
    } else {
      FirstEnd(b, start, expected, c);
      assert ks[..0] == [];
    }
  }

  lemma {:induction false} ThroughAtMost(ks: seq<Kept>, cut: nat)
    ensures Through(ks, cut) <= |ks|
  {
    if ks != [] && ks[0].end <= cut {
      ThroughAtMost(ks[1..], cut);
    }
  }

  lemma {:induction false} FirstEnd(b: seq<Byte>, start: nat, expected: U64, c: Codec)
    requires Scan(b, start, expected, c).Some?
    ensures var ks := Scan(b, start, expected, c).value; ks == [] || ks[0].end > start + LineEnd(b)
    decreases |b|
  {
    var i := LineEnd(b);
    if i < |b| && Trim(b[..i + 1]) == [] {
      FirstEnd(b[i + 1..], start + i + 1, expected, c);
    }
  }

  // ---------------------------------------------------------------- appending

  lemma {:induction false} TrimRightKeeps(s: seq<Byte>)
    requires s != [] && !Space(s[|s| - 1])
    ensures TrimRight(s + [NEWLINE]) == s
  {
    assert (s + [NEWLINE])[..|s|] == s;
  }

  lemma LineScans(r: Record, c: Codec)
    requires Faithful(c)
    ensures LineEnd(Line(r, c)) == |Line(r, c)| - 1 && Trim(Line(r, c)) == c.encode(r)
    ensures c.encode(r) != [] && c.decode(c.encode(r)) == Some(r)
  {
    var e := c.encode(r);
    assert e != [] && !Space(e[0]) && !Space(e[|e| - 1]) && NEWLINE !in e;
    assert Line(r, c)[..|e|] == e;
    LineEndIs(Line(r, c), |e|);
    TrimRightKeeps(e);
  }

  lemma LineEndAppend(b: seq<Byte>, t: seq<Byte>)
    requires LineEnd(b) < |b|
    ensures LineEnd(b + t) == LineEnd(b)
  {
    LineEndCut(b + t, |b|);
    assert (b + t)[..|b|] == b;
  }

  lemma ScanOneLine(start: nat, expected: U64, c: Codec, r: Record)
    requires Faithful(c) && RecordOk(r, expected, c)
    ensures Scan(Line(r, c), start, expected, c) == Some([Kept(r, start + |Line(r, c)|, |Line(r, c)|)])
  {
    hide Trim, LineEnd, RecordOk, Faithful, Scan;
    var line := Line(r, c);
    LineScans(r, c);
    assert line[..|line|] == line && line[|line|..] == [];
    assert LineEnd([]) == 0 by { LineEndIs([], 0); }
    ScanUnfold(line, start, expected, c);
    ScanUnfold([], start + |line|, Next64(expected), c);
    var k := Kept(r, start + |line|, |line|);
    assert [k] + [] == [k];
    assert c.encode(r) != [] && LineRecord(c.encode(r), expected, c) == Some(r);
  }

  /** A scan continues behind a part that ends with its last record. */
  lemma {:induction false} ScanThen(b: seq<Byte>, start: nat, expected: U64, c: Codec, tail: seq<Byte>)
    requires Scan(b, start, expected, c).Some?
    requires var ks := Scan(b, start, expected, c).value;
             LastEnd(ks, start) == start + |b| && expected as int + |ks| <= MAX_U64
    ensures var ks := Scan(b, start, expected, c).value;
            Scan(b + tail, start, expected, c) == PrependAll(ks, Scan(tail, start + |b|, expected + |ks|, c))
    decreases |b|
  {
    hide Trim, LineEnd, LineRecord, Scan;
    var ks := Scan(b, start, expected, c).value;
    var i := LineEnd(b);
    ScanUnfold(b, start, expected, c);
    if i == |b| {
      assert b == [] && b + tail == tail;
      PrependNothing(Scan(tail, start, expected, c));
    } else {
      var rest := b[i + 1..];
      ScanUnfold(b + tail, start, expected, c);
      LineEndAppend(b, tail);
      assert (b + tail)[..i + 1] == b[..i + 1];
      assert (b + tail)[i + 1..] == rest + tail;
      if Trim(b[..i + 1]) == [] {
        LastEndBound(rest, start + i + 1, expected, c);
        ScanThen(rest, start + i + 1, expected, c, tail);
      } else {
        var ls := Scan(rest, start + i + 1, Next64(expected), c).value;
        assert ks == [ks[0]] + ls;
        ScanThen(rest, start + i + 1, Next64(expected), c, tail);
        PrependMore(ks[0], ls, Scan(tail, start + |b|, expected + |ks|, c));
      }
    }
  }

  lemma PrependMore(k: Kept, ls: seq<Kept>, ts: Option<seq<Kept>>)
    ensures Prepend(k, PrependAll(ls, ts)) == PrependAll([k] + ls, ts)
  {
    if ts.Some? {
      assert [k] + (ls + ts.value) == [k] + ls + ts.value;
    }
  }

  lemma ScanLine(text: seq<Byte>, start: nat, expected: U64, c: Codec)
    requires NEWLINE !in text
    ensures var line := text + [NEWLINE];
            Scan(line, start, expected, c) ==
            if Trim(line) == [] then Some([])
            else match LineRecord(Trim(line), expected, c)
                 case None => None
                 case Some(r) => Some([Kept(r, start + |line|, |line|)])
  {
    var line := text + [NEWLINE];
    assert line[..|text|] == text && line[|text|] == NEWLINE;
    LineEndIs(line, |text|);
    ScanUnfold(line, start, expected, c);
    assert line[..|text| + 1] == line && line[|text| + 1..] == [];
    hide Trim, LineRecord;
    assert Scan([], start + |line|, expected, c) == Some([]) && Scan([], start + |line|, Next64(expected), c) == Some([]);
    if LineRecord(Trim(line), expected, c).Some? {
      var k := Kept(LineRecord(Trim(line), expected, c).value, start + |line|, |line|);
      assert [k] + [] == [k];
    }
  }

  /** What reading accepts: one more full line is refused, and the whole log with it, unless it is blank or holds a record
      with the next index, a kind, a payload and the checksum of the three. */
  lemma LineAccepted(file: seq<Byte>, text: seq<Byte>, c: Codec)
    requires Tidy(file, c) && NEWLINE !in text && |RecordsIn(file, c)| < MAX_U64
    ensures var line := Trim(text + [NEWLINE]);
            Scan(file + (text + [NEWLINE]), 0, 1, c).Some? <==>
              || line == []
              || (c.decode(line).Some?
                  && var r := c.decode(line).value;
                     && r.index == |RecordsIn(file, c)| + 1 && r.kind != "" && r.payload != []
                     && r.checksum == c.digest(r.index, r.kind, r.payload))
  {
    hide Trim, Scan;
    ScanThen(file, 0, 1, c, text + [NEWLINE]);
    ScanLine(text, |file|, 1 + |RecordsIn(file, c)|, c);
  }

  /** A line appended to a file that ends with its last record is read back as one more record. */
  lemma {:induction false} ScanAppend(b: seq<Byte>, start: nat, expected: U64, c: Codec, r: Record)
    requires Faithful(c) && Scan(b, start, expected, c).Some?
    requires var ks := Scan(b, start, expected, c).value;
             LastEnd(ks, start) == start + |b| && expected as int + |ks| <= MAX_U64 && RecordOk(r, expected + |ks|, c)
    ensures Scan(b + Line(r, c), start, expected, c) ==
            Some(Scan(b, start, expected, c).value + [Kept(r, start + |b| + |Line(r, c)|, |Line(r, c)|)])
    decreases |b|
  {
    hide Trim, LineEnd, RecordOk, Faithful, Line, LineRecord, Scan;
    var line := Line(r, c);
    var ks := Scan(b, start, expected, c).value;
    var i := LineEnd(b);
    ScanUnfold(b, start, expected, c);
    ScanUnfold(b + line, start, expected, c);
    if i == |b| {
      assert ks == [] && b == [] && b + line == line;
      ScanOneLine(start, expected, c, r);
      var k := Kept(r, start + |line|, |line|);
      assert ks + [k] == [k];
    } else {
      var rest := b[i + 1..];
      LineEndAppend(b, line);
      assert (b + line)[..i + 1] == b[..i + 1];
      assert (b + line)[i + 1..] == rest + line;
      if Trim(b[..i + 1]) == [] {
        LastEndBound(rest, start + i + 1, expected, c);
        ScanAppend(rest, start + i + 1, expected, c, r);
      } else {
        var tail := Scan(rest, start + i + 1, Next64(expected), c).value;
        assert ks == [ks[0]] + tail;
        ScanAppend(rest, start + i + 1, Next64(expected), c, r);
        var k := Kept(r, start + |b| + |line|, |line|);
        assert [ks[0]] + (tail + [k]) == ks + [k];
      }
    }
  }

  lemma LastEndBound(b: seq<Byte>, start: nat, expected: U64, c: Codec)
    requires Scan(b, start, expected, c).Some?
    ensures var ks := Scan(b, start, expected, c).value; ks == [] ==> LastEnd(ks, start) == start
  {
  }

  lemma {:induction false} ValidSizeAppend(ks: seq<Kept>, k: Kept)
    ensures ValidSize(ks + [k]) == ValidSize(ks) + k.lineSize
  {
    if ks != [] {
      ValidSizeAppend(ks[1..], k);
      assert (ks + [k])[1..] == ks[1..] + [k];
    }
  }

  lemma {:induction false} ScanIndices(b: seq<Byte>, start: nat, expected: U64, c: Codec)
    requires Scan(b, start, expected, c).Some? && expected as int + |Scan(b, start, expected, c).value| <= MAX_U64 + 1
    ensures var ks := Scan(b, start, expected, c).value;
            forall i :: 0 <= i < |ks| ==> ks[i].record.index == expected + i
    decreases |b|
  {
    hide Trim, LineEnd, Scan;
    ScanUnfold(b, start, expected, c);
    var i := LineEnd(b);
    if i < |b| {
      if Trim(b[..i + 1]) == [] {
        ScanIndices(b[i + 1..], start + i + 1, expected, c);
      } else {
        var ks := Scan(b, start, expected, c).value;
        assert ks[1..] == Scan(b[i + 1..], start + i + 1, Next64(expected), c).value;
        ScanIndices(b[i + 1..], start + i + 1, Next64(expected), c);
      }
    }
  }

  // ---------------------------------------------------------------- reopening

  /** The file that Open leaves behind: cut to validSize. */
  function Reopened(b: seq<Byte>, ks: seq<Kept>): seq<Byte>
    requires ValidSize(ks) <= |b|
  {
    b[..ValidSize(ks)]
  }

  /** Open's truncation keeps the records it read if and only if no blank line stands before the last of
      them: blank lines are skipped but not counted into validSize. */
  lemma ReopenKeepsRecords(b: seq<Byte>, c: Codec)
    requires Scan(b, 0, 1, c).Some?
    ensures var ks := Scan(b, 0, 1, c).value;
            && ValidSize(ks) <= LastEnd(ks, 0) <= |b|
            && (Scan(Reopened(b, ks), 0, 1, c) == Some(ks) <==> ValidSize(ks) == LastEnd(ks, 0))
  {
    hide Scan;
    var ks := Scan(b, 0, 1, c).value;
    var v := ValidSize(ks);
    ScanShape(b, 0, 1, c);
    ScanCut(b, 0, 1, c, v);
    ThroughMeaning(ks, v);
    if ks != [] {
      var last := |ks| - 1;
      assert ks[last].end == LastEnd(ks, 0);
      assert ks[..|ks|] == ks;
      assert LastEnd(ks, 0) <= v <==> last < Through(ks, v);
    }
  }

  /** One leading blank line is enough to lose a record that was just read. */
  lemma BlankLineLosesRecord(r: Record, c: Codec)
    requires Faithful(c) && RecordOk(r, 1, c)
    ensures var b := [NEWLINE] + Line(r, c);
            && Scan(b, 0, 1, c).Some? && Records(Scan(b, 0, 1, c).value) == [r]
            && ValidSize(Scan(b, 0, 1, c).value) <= |b|
            && Scan(Reopened(b, Scan(b, 0, 1, c).value), 0, 1, c) == Some([])
  {
    hide Trim, LineEnd, Line, Faithful;
    var line := Line(r, c);
    var b := [NEWLINE] + line;
    LineEndIs(b, 0);
    assert b[..1] == [NEWLINE] && b[1..] == line;
    assert Trim([NEWLINE]) == [] by { NewlineTrims(); }
    ScanOneLine(1, 1, c, r);
    var ks := [Kept(r, 1 + |line|, |line|)];
    assert Scan(b, 0, 1, c) == Some(ks);
    assert ks[1..] == [] && ValidSize(ks) == |line|;
    ScanCut(b, 0, 1, c, |line|);
    assert Through(ks, |line|) == 0 && ks[..0] == [];
  }

  lemma NewlineTrims()
    ensures Trim([NEWLINE]) == []
  {
    assert [NEWLINE][1..] == [];
    assert TrimLeft([NEWLINE]) == TrimLeft([]);
  }

  // ---------------------------------------------------------------- the log object

  ghost function PrependAll(acc: seq<Kept>, ks: Option<seq<Kept>>): Option<seq<Kept>> {
    match ks
    case None => None
    case Some(rest) => Some(acc + rest)
  }

  /** readRecords: None is ErrCorruptRecord. */
  method ReadRecords(file: seq<Byte>, c: Codec) returns (r: Option<seq<Kept>>, validSize: nat)
    ensures r == Scan(file, 0, 1, c)
    ensures r.Some? ==> validSize == ValidSize(r.value)
  {
    hide Scan, LineEnd, Trim;
    assert file[0..] == file && PrependAll([], Scan(file, 0, 1, c)) == Scan(file, 0, 1, c) by { PrependNothing(Scan(file, 0, 1, c)); }
    var records: seq<Kept> := [];
    var expected: U64 := 1;
    var pos := 0;
    validSize := 0;
    while true
      invariant pos <= |file|
      invariant Scan(file, 0, 1, c) == PrependAll(records, Scan(file[pos..], pos, expected, c))
      invariant validSize == ValidSize(records)
      decreases |file| - pos
    {
      var b := file[pos..];
      var i := LineEnd(b);
      ScanUnfold(b, pos, expected, c);
      if i == |b| {
        assert records + [] == records;
        return Some(records), validSize;
      }
      assert b[i + 1..] == file[pos + i + 1..];
      var text := Trim(b[..i + 1]);
      if text != [] {
        var record := LineRecord(text, expected, c);
        if record.None? {
          return None, validSize;
        }
        var k := Kept(record.value, pos + i + 1, i + 1);
        ghost var rest := Scan(file[pos + i + 1..], pos + i + 1, Next64(expected), c);
        if rest.Some? {
          assert records + ([k] + rest.value) == (records + [k]) + rest.value;
        }
        ValidSizeAppend(records, k);
        records := records + [k];
        expected := Next64(expected);
        validSize := validSize + i + 1;
      }
      pos := pos + i + 1;
    }
  }

  lemma PrependNothing(ks: Option<seq<Kept>>)
    ensures PrependAll([], ks) == ks
  {
    if ks.Some? { assert [] + ks.value == ks.value; }
  }

  datatype SyncMode = SyncAlways | SyncBatch | SyncNone

  /** What the file system does to one call. */
  datatype IO = AllOk | WriteFails | SyncFails

  /** The file is exactly the lines of its records. */
  ghost predicate Tidy(file: seq<Byte>, c: Codec) {
    && Scan(file, 0, 1, c).Some?
    && var ks := Scan(file, 0, 1, c).value; ValidSize(ks) == LastEnd(ks, 0) == |file|
  }

  ghost function RecordsIn(file: seq<Byte>, c: Codec): seq<Record> {
    if Scan(file, 0, 1, c).Some? then Records(Scan(file, 0, 1, c).value) else []
  }

  /** The first `n` records of the file lie within its first `durable` bytes. */
  ghost predicate DurableThrough(file: seq<Byte>, c: Codec, n: int, durable: nat) {
    Scan(file, 0, 1, c).Some? && 0 <= n <= |Scan(file, 0, 1, c).value|
    && (n > 0 ==> Scan(file, 0, 1, c).value[n - 1].end <= durable)
  }

  /** A crash may cut the file anywhere at or after its durable prefix: what is left reads back as a prefix of
      the records, missing at most the last `pending`, and reopening does not touch it further. */
  lemma CrashLosesAtMostPending(file: seq<Byte>, c: Codec, durable: nat, pending: nat, cut: nat)
    requires Tidy(file, c) && durable <= cut <= |file|
    requires DurableThrough(file, c, |RecordsIn(file, c)| - pending, durable)
    ensures var left := file[..cut];
            var k := |RecordsIn(left, c)|;
            && |RecordsIn(file, c)| - pending <= k <= |RecordsIn(file, c)|
            && RecordsIn(left, c) == RecordsIn(file, c)[..k]
            && Scan(left, 0, 1, c).Some?
            && ValidSize(Scan(left, 0, 1, c).value) == LastEnd(Scan(left, 0, 1, c).value, 0) <= |left|
  {
    hide Scan;
    var ks := Scan(file, 0, 1, c).value;
    ScanCut(file, 0, 1, c, cut);
    ScanShape(file, 0, 1, c);
    ThroughMeaning(ks, cut);
    var k := Through(ks, cut);
    ScanShape(file[..cut], 0, 1, c);
    TidyPrefix(ks, k, file, c);
    assert Records(ks[..k]) == Records(ks)[..k];
  }

  /** When no blank lines were read, lines are adjacent, so sizes add up to ends for every prefix too. */
  lemma TidyPrefix(ks: seq<Kept>, k: nat, file: seq<Byte>, c: Codec)
    requires Scan(file, 0, 1, c) == Some(ks) && ValidSize(ks) == LastEnd(ks, 0) && k <= |ks|
    ensures ValidSize(ks[..k]) == LastEnd(ks[..k], 0)
  {
    ScanGaps(file, 0, 1, c);
    GapsPrefix(ks, 0, k);
  }

  /** Each line starts where the previous one ended, or later. */
  ghost predicate Spaced(ks: seq<Kept>, start: nat) {
    ks != [] ==> ks[0].end >= start + ks[0].lineSize && Spaced(ks[1..], ks[0].end)
  }

  lemma {:induction false} ScanGaps(b: seq<Byte>, start: nat, expected: U64, c: Codec)
    requires Scan(b, start, expected, c).Some?
    ensures Spaced(Scan(b, start, expected, c).value, start)
    decreases |b|
  {
    hide Scan, LineEnd, Trim;
    ScanUnfold(b, start, expected, c);
    var i := LineEnd(b);
    if i < |b| {
      if Trim(b[..i + 1]) == [] {
        ScanGaps(b[i + 1..], start + i + 1, expected, c);
        SpacedEarlier(Scan(b, start, expected, c).value, start + i + 1, start);
      } else {
        ScanGaps(b[i + 1..], start + i + 1, Next64(expected), c);
        var ks := Scan(b, start, expected, c).value;
        assert ks[1..] == Scan(b[i + 1..], start + i + 1, Next64(expected), c).value;
      }
    }
  }

  lemma SpacedEarlier(ks: seq<Kept>, start: nat, earlier: nat)
    requires Spaced(ks, start) && earlier <= start
    ensures Spaced(ks, earlier)
  {
  }

  lemma {:induction false} SpacedSize(ks: seq<Kept>, start: nat)
    requires Spaced(ks, start)
    ensures start + ValidSize(ks) <= LastEnd(ks, start)
  {
    if ks != [] {
      SpacedSize(ks[1..], ks[0].end);
    }
  }

  lemma {:induction false} GapsPrefix(ks: seq<Kept>, start: nat, k: nat)
    requires Spaced(ks, start) && start + ValidSize(ks) == LastEnd(ks, start) && k <= |ks|
    ensures start + ValidSize(ks[..k]) == LastEnd(ks[..k], start)
  {
    if k > 0 {
      SpacedSize(ks[1..], ks[0].end);
      GapsPrefix(ks[1..], ks[0].end, k - 1);
      assert ks[..k][1..] == ks[1..][..k - 1];
    }
  }

  class Log {
    const codec: Codec
    const mode: SyncMode
    const batchSize: nat
    var file: seq<Byte>
    var pendingSync: nat
    var lastIndex: U64
    var closed: bool
    /** Length of the prefix of the file that a crash cannot remove. */
    ghost var durable: nat

    ghost predicate Valid()
      reads this
    {
      && Faithful(codec) && batchSize > 0
      && Tidy(file, codec)
      && lastIndex == |RecordsIn(file, codec)|
      && durable <= |file|
      && Safe(lastIndex - pendingSync)
    }

    /** The first `n` records survive any crash. */
    ghost predicate Safe(n: int)
      reads this
    {
      DurableThrough(file, codec, n, durable)
    }

    ghost function Recorded(): seq<Record>
      reads this
    {
      RecordsIn(file, codec)
    }

    constructor (codec: Codec, mode: SyncMode, batchSize: nat, file: seq<Byte>, lastIndex: U64)
      ensures this.codec == codec && this.mode == mode && this.batchSize == batchSize
      ensures this.file == file && this.lastIndex == lastIndex && pendingSync == 0 && !closed && durable == |file|
    {
      this.codec := codec;
      this.mode := mode;
      this.batchSize := batchSize;
      this.file := file;
      this.lastIndex := lastIndex;
      pendingSync := 0;
      closed := false;
      durable := |file|;
    }

    /** Open on the bytes that survived. A corrupt record is an error; otherwise the incomplete tail is cut off. */
    static method Open(codec: Codec, mode: SyncMode, batchSize: int, disk: seq<Byte>) returns (r: Option<Log>)
      requires Faithful(codec)
      requires Scan(disk, 0, 1, codec).Some? ==> |Scan(disk, 0, 1, codec).value| < MAX_U64
      ensures r.None? <==> Scan(disk, 0, 1, codec).None?
      ensures r.Some? ==>
                var ks := Scan(disk, 0, 1, codec).value;
                && fresh(r.value) && r.value.codec == codec && r.value.mode == mode && !r.value.closed
                && r.value.batchSize == (if batchSize <= 0 then 32 else batchSize)
                && r.value.lastIndex == |ks| && ValidSize(ks) <= |disk| && r.value.file == Reopened(disk, ks)
                && (ValidSize(ks) == LastEnd(ks, 0) ==>
                      r.value.Valid() && r.value.Recorded() == Records(ks) && r.value.pendingSync == 0)
    {
      hide Scan;
      var size := if batchSize <= 0 then 32 else batchSize;
      var records, validSize := ReadRecords(disk, codec);
      if records.None? {
        return None;
      }
      var ks := records.value;
      ScanShape(disk, 0, 1, codec);
      ScanIndices(disk, 0, 1, codec);
      ReopenKeepsRecords(disk, codec);
      var file := if |disk| > validSize then disk[..validSize] else disk;
      assert disk[..|disk|] == disk;
      ScanShape(disk, 0, 1, codec);
      var log := new Log(codec, mode, size, file, if ks == [] then 0 else ks[|ks| - 1].record.index);
      return Some(log);
    }

    /** How far the file may be ahead of the disk as long as every sync that was due has succeeded. */
    ghost predicate SyncedInTime()
      reads this
    {
      match mode
      case SyncAlways => pendingSync == 0
      case SyncBatch => pendingSync < batchSize
      case SyncNone => true
    }

    ghost predicate NeedsSync()
      reads this
    {
      mode == SyncAlways || (mode == SyncBatch && pendingSync + 1 >= batchSize)
    }

    /** Append. An error means that nothing was written, except when the write went through and the sync
        that was due failed: then the record stays in the file. */
    method Append(kind: string, payload: seq<Byte>, io: IO) returns (r: Option<U64>)
      requires Valid() && lastIndex < MAX_U64
      modifies this
      ensures Valid() && closed == old(closed)
      ensures forall n :: old(Safe(n)) ==> Safe(n)
      ensures old(closed) || kind == "" || payload == [] || io == WriteFails ==>
                r == None && file == old(file) && lastIndex == old(lastIndex) && pendingSync == old(pendingSync)
      ensures !(old(closed) || kind == "" || payload == [] || io == WriteFails) ==>
                && Recorded() == old(Recorded()) +
                     [Record(old(lastIndex) + 1, kind, payload, codec.digest(old(lastIndex) + 1, kind, payload))]
                && r == (if old(NeedsSync()) && io == SyncFails then None else Some(lastIndex))
                && pendingSync == (if old(NeedsSync()) && io == AllOk then 0 else old(pendingSync) + 1)
      ensures io == AllOk && old(SyncedInTime()) ==> SyncedInTime()
    {
      hide Tidy, Scan, Faithful, DurableThrough;
      if closed || kind == "" || payload == [] || io == WriteFails {
        return None;
      }
      var index := lastIndex + 1;
      WriteRecord(Record(index, kind, payload, codec.digest(index, kind, payload)));
      if mode == SyncAlways || (mode == SyncBatch && pendingSync >= batchSize) {
        var ok := SyncLocked(io);
        if !ok {
          return None;
        }
      }
      return Some(index);
    }

    /** The write of one line, with the index and the count of unsynced records. */
    method WriteRecord(record: Record)
      requires Valid() && lastIndex < MAX_U64 && RecordOk(record, lastIndex + 1, codec)
      modifies this`file, this`lastIndex, this`pendingSync
      ensures Valid() && Recorded() == old(Recorded()) + [record]
      ensures lastIndex == old(lastIndex) + 1 && pendingSync == old(pendingSync) + 1
      ensures forall n :: old(Safe(n)) ==> Safe(n)
    {
      hide Scan, Faithful, Tidy, RecordOk, DurableThrough, Line;
      AppendTidy(file, codec, record);
      forall n | Safe(n) ensures DurableThrough(file + Line(record, codec), codec, n, durable) {
        DurableAppend(file, codec, record, n, durable);
      }
      file := file + Line(record, codec);
      lastIndex := lastIndex + 1;
      pendingSync := pendingSync + 1;
    }

    method SyncLocked(io: IO) returns (ok: bool)
      requires Valid()
      modifies this`pendingSync, this`durable
      ensures Valid()
      ensures ok == (io == AllOk)
      ensures forall n :: old(Safe(n)) ==> Safe(n)
      ensures ok ==> pendingSync == 0 && Safe(lastIndex)
      ensures !ok ==> pendingSync == old(pendingSync)
    {
      if io != AllOk {
        return false;
      }
      hide Scan;
      AllDurable(file, codec);
      durable := |file|;
      pendingSync := 0;
      return true;
    }

    method Sync(io: IO) returns (ok: bool)
      requires Valid()
      modifies this`pendingSync, this`durable
      ensures Valid()
      ensures ok == (!closed && io == AllOk)
      ensures forall n :: old(Safe(n)) ==> Safe(n)
      ensures ok ==> pendingSync == 0 && Safe(lastIndex)
      ensures !ok ==> pendingSync == old(pendingSync)
    {
      if closed {
        return false;
      }
      ok := SyncLocked(io);
    }

    /** Close: one last sync; closing twice is fine. */
    method Close(io: IO) returns (ok: bool)
      requires Valid()
      modifies this`closed, this`durable
      ensures Valid() && closed && ok == (old(closed) || io == AllOk)
      ensures forall n :: old(Safe(n)) ==> Safe(n)
      ensures ok && !old(closed) ==> Safe(lastIndex)
    {
      if closed {
        return true;
      }
      hide Scan, Tidy;
      closed := true;
      if io != AllOk {
        return false;
      }
      AllDurable(file, codec);
      durable := |file|;
      return true;
    }

    /** RecordsAfter: syncs, rereads the file, and keeps the records above `index`. */
    method RecordsAfter(index: U64, io: IO) returns (r: Option<seq<Record>>)
      requires Valid() && index <= lastIndex
      modifies this`durable
      ensures Valid()
      ensures closed || io != AllOk ==> r == None
      ensures forall n :: old(Safe(n)) ==> Safe(n)
      ensures !closed && io == AllOk ==> r == Some(Recorded()[index..]) && Safe(lastIndex)
    {
      if closed || io != AllOk {
        return None;
      }
      hide Scan;
      AllDurable(file, codec);
      durable := |file|;
      var records, _ := ReadRecords(file, codec);
      ScanIndices(file, 0, 1, codec);
      var out := After(records.value, index);
      return Some(out);
    }
  }

  /** The filtering loop of RecordsAfter. */
  method After(ks: seq<Kept>, index: U64) returns (out: seq<Record>)
    requires index <= |ks| && forall i :: 0 <= i < |ks| ==> ks[i].record.index == i + 1
    ensures out == Records(ks)[index..]
  {
    out := [];
    for i := 0 to |ks|
      invariant out == if i <= index as int then [] else Records(ks)[index..i]
    {
      var record := ks[i].record;
      if record.index > index {
        out := out + [record];
      }
    }
  }

  lemma AllDurable(file: seq<Byte>, c: Codec)
    requires Tidy(file, c)
    ensures forall n :: 0 <= n <= |RecordsIn(file, c)| ==> DurableThrough(file, c, n, |file|)
  {
    hide Scan;
    ScanShape(file, 0, 1, c);
  }

  lemma AppendTidy(file: seq<Byte>, c: Codec, r: Record)
    requires Faithful(c) && Tidy(file, c) && |RecordsIn(file, c)| < MAX_U64 && RecordOk(r, |RecordsIn(file, c)| + 1, c)
    ensures Tidy(file + Line(r, c), c) && RecordsIn(file + Line(r, c), c) == RecordsIn(file, c) + [r]
    ensures Scan(file + Line(r, c), 0, 1, c).value ==
            Scan(file, 0, 1, c).value + [Kept(r, |file| + |Line(r, c)|, |Line(r, c)|)]
  {
    hide Scan, Faithful, RecordOk;
    ScanAppend(file, 0, 1, c, r);
    ValidSizeAppend(Scan(file, 0, 1, c).value, Kept(r, |file| + |Line(r, c)|, |Line(r, c)|));
  }

  lemma DurableAppend(file: seq<Byte>, c: Codec, r: Record, n: int, durable: nat)
    requires Faithful(c) && Tidy(file, c) && |RecordsIn(file, c)| < MAX_U64 && RecordOk(r, |RecordsIn(file, c)| + 1, c)
    requires DurableThrough(file, c, n, durable)
    ensures DurableThrough(file + Line(r, c), c, n, durable)
  {
    hide Scan, Faithful, RecordOk;
    AppendTidy(file, c, r);
  }

  /** What a crash can take while syncs succeed: nothing in always mode, and fewer records than a batch in batch
      mode; what it leaves opens again as a prefix with the indices 1, 2, and so on. */
  lemma AcknowledgedLoss(log: Log, cut: nat)
    requires log.Valid() && log.SyncedInTime() && log.durable <= cut <= |log.file|
    ensures var left := RecordsIn(log.file[..cut], log.codec);
            && left <= log.Recorded()
            && (log.mode == SyncAlways ==> left == log.Recorded())
            && (log.mode == SyncBatch ==> |log.Recorded()| - |left| <= log.batchSize - 1)
            && forall i :: 0 <= i < |left| ==> left[i].index == i + 1
  {
    hide Scan;
    CrashLosesAtMostPending(log.file, log.codec, log.durable, log.pendingSync, cut);
    ScanIndices(log.file[..cut], 0, 1, log.codec);
  }
}
