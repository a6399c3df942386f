/** The bounded candidate set of internal/aggregation/topk. */
module TopK {
  import opened Base

  datatype Candidate = Candidate(itemId: string, score: int, eventTs: int, origin: NodeId)

  /** The value of a candidate set: also what Serialize writes and Deserialize reads. */
  datatype TopState = TopState(candidates: seq<Candidate>, version: U64)

  datatype Error = InvalidK | InvalidCandidate

  datatype Result<+T> = Ok(value: T) | Err(error: Error)

  predicate Space(c: char) {
    c == ' ' || '\t' <= c <= '\r'
  }

  predicate Blank(s: string) {
    forall i :: 0 <= i < |s| ==> Space(s[i])
  }

  /** `eventTs` counts from the zero time, so zero is the time that Go's IsZero rejects. */
  predicate ValidCandidate(c: Candidate) {
    !Blank(c.itemId) && ValidNodeId(c.origin) && c.eventTs != 0
  }

  predicate ValidCandidates(cs: seq<Candidate>) {
    forall i :: 0 <= i < |cs| ==> ValidCandidate(cs[i])
  }

  // ---------------------------------------------------------------- ranking

  /** The comparison of sortCandidates. */
  predicate Better(a: Candidate, b: Candidate) {
    if a.score != b.score then a.score > b.score
    else if a.eventTs != b.eventTs then a.eventTs > b.eventTs
    else if a.origin != b.origin then StrLess(a.origin, b.origin)
    else StrLess(a.itemId, b.itemId)
  }

  lemma BetterAsymmetric(a: Candidate, b: Candidate)
    requires Better(a, b)
    ensures a != b && !Better(b, a)
  {
    if StrLess(a.origin, b.origin) { StrLessAsymmetric(a.origin, b.origin); }
    if StrLess(a.itemId, b.itemId) { StrLessAsymmetric(a.itemId, b.itemId); }
  }

  lemma BetterTransitive(a: Candidate, b: Candidate, c: Candidate)
    requires Better(a, b) && Better(b, c)
    ensures Better(a, c)
  {
    if StrLess(a.origin, b.origin) && StrLess(b.origin, c.origin) {
      StrLessTransitive(a.origin, b.origin, c.origin);
      StrLessAsymmetric(a.origin, c.origin);
    }
    if StrLess(a.itemId, b.itemId) && StrLess(b.itemId, c.itemId) {
      StrLessTransitive(a.itemId, b.itemId, c.itemId);
    }
  }

  lemma BetterTotal(a: Candidate, b: Candidate)
    ensures a == b || Better(a, b) || Better(b, a)
  {
    StrLessTotal(a.origin, b.origin);
    StrLessTotal(a.itemId, b.itemId);
  }

  /** The documented order, key by key: score down, then event time down, then origin up, then item up. */
  ghost predicate Sorted(l: seq<Candidate>) {
    && (forall i, j :: 0 <= i < j < |l| ==> l[i].score >= l[j].score)
    && (forall i, j :: 0 <= i < j < |l| && l[i].score == l[j].score ==> l[i].eventTs >= l[j].eventTs)
    && (forall i, j :: 0 <= i < j < |l| && l[i].score == l[j].score && l[i].eventTs == l[j].eventTs ==>
          l[i].origin == l[j].origin || StrLess(l[i].origin, l[j].origin))
    && (forall i, j ::
          (0 <= i < j < |l| && l[i].score == l[j].score && l[i].eventTs == l[j].eventTs && l[i].origin == l[j].origin)
          ==> StrLess(l[i].itemId, l[j].itemId))
  }

  /** `c` could stand nowhere but behind all of `l`. */
  ghost predicate Behind(l: seq<Candidate>, c: Candidate) {
    forall x :: x in l ==> Sorted([x, c])
  }

  lemma BetterMeaning(a: Candidate, b: Candidate)
    ensures Better(a, b) <==> Sorted([a, b])
  {
    var l := [a, b];
    assert l[0] == a && l[1] == b;
    StrLessTotal(a.itemId, b.itemId);
    if StrLess(a.origin, b.origin) { StrLessAsymmetric(a.origin, b.origin); }
  }

  lemma RankedMeaning(l: seq<Candidate>)
    ensures Ranked(l) <==> Sorted(l)
  {
    forall i, j | 0 <= i < j < |l| ensures Better(l[i], l[j]) <==> Sorted([l[i], l[j]]) {
      BetterMeaning(l[i], l[j]);
    }
    if Ranked(l) {
      forall i, j | 0 <= i < j < |l|
        ensures l[i].score >= l[j].score
        ensures l[i].score == l[j].score ==> l[i].eventTs >= l[j].eventTs
        ensures l[i].score == l[j].score && l[i].eventTs == l[j].eventTs ==>
                  l[i].origin == l[j].origin || StrLess(l[i].origin, l[j].origin)
        ensures l[i].score == l[j].score && l[i].eventTs == l[j].eventTs && l[i].origin == l[j].origin ==>
                  StrLess(l[i].itemId, l[j].itemId)
      {
        assert Better(l[i], l[j]);
      }
    }
    if Sorted(l) {
      forall i, j | 0 <= i < j < |l| ensures Better(l[i], l[j]) {
        var p := [l[i], l[j]];
        assert p[0] == l[i] && p[1] == l[j];
        assert Sorted(p);
      }
    }
  }

  ghost predicate Ranked(l: seq<Candidate>) {
    forall i, j :: 0 <= i < j < |l| ==> Better(l[i], l[j])
  }

  ghost function Elems(l: seq<Candidate>): set<Candidate> {
    set c | c in l
  }

  /** `c` would not enter the list `l` of at most `k` candidates: it is there, or outranked. */
  ghost predicate Covers(l: seq<Candidate>, c: Candidate, k: nat) {
    c in l || (|l| == k && forall x :: x in l ==> Better(x, c))
  }

  /** `l` lists the best `k` members of `s` in rank order. */
  ghost predicate IsTop(l: seq<Candidate>, s: set<Candidate>, k: nat) {
    && Ranked(l) && |l| <= k
    && (forall c :: c in l ==> c in s)
    && (forall c :: c in s ==> Covers(l, c, k))
  }

  lemma {:induction false} RankedElems(l: seq<Candidate>)
    requires Ranked(l)
    ensures |Elems(l)| == |l|
  {
    if l == [] {
      assert Elems(l) == {};
    } else {
      var c := l[0];
      if c in l[1..] {
        var j :| 0 <= j < |l[1..]| && l[1..][j] == c;
        BetterAsymmetric(l[0], l[j + 1]);
      }
      assert Elems(l) == {c} + Elems(l[1..]);
      RankedElems(l[1..]);
    }
  }

  lemma {:induction false} RankedUnique(l: seq<Candidate>, m: seq<Candidate>)
    requires Ranked(l) && Ranked(m) && Elems(l) == Elems(m)
    ensures l == m
  {
    RankedElems(l);
    RankedElems(m);
    if l != [] {
      var a, b := l[0], m[0];
      assert a in Elems(l) && b in Elems(l) && a in Elems(m) && b in Elems(m);
      var i :| 0 <= i < |m| && m[i] == a;
      var j :| 0 <= j < |l| && l[j] == b;
      if a != b {
        BetterAsymmetric(m[0], m[i]);
      }
      assert Elems(l[1..]) == Elems(l) - {a} by { RankedHead(l); }
      assert Elems(m[1..]) == Elems(m) - {a} by { RankedHead(m); }
      RankedUnique(l[1..], m[1..]);
    }
  }

  lemma RankedHead(l: seq<Candidate>)
    requires Ranked(l) && l != []
    ensures Elems(l[1..]) == Elems(l) - {l[0]}
  {
    forall c ensures c in Elems(l[1..]) <==> c in Elems(l) - {l[0]} {
      if c in l[1..] {
        var j :| 0 <= j < |l[1..]| && l[1..][j] == c;
        BetterAsymmetric(l[0], l[j + 1]);
      }
    }
  }

  /** The best-`k` list of a set is unique, whatever order it was built in. */
  lemma TopUnique(l: seq<Candidate>, m: seq<Candidate>, s: set<Candidate>, k: nat)
    requires IsTop(l, s, k) && IsTop(m, s, k)
    ensures l == m
  {
    TopSubset(l, m, s, k);
    TopSubset(m, l, s, k);
    assert Elems(l) == Elems(m);
    RankedUnique(l, m);
  }

  lemma TopSubset(l: seq<Candidate>, m: seq<Candidate>, s: set<Candidate>, k: nat)
    requires IsTop(l, s, k) && IsTop(m, s, k)
    ensures Elems(l) <= Elems(m)
  {
    forall c | c in l ensures c in m {
      if c !in m {
        assert Covers(m, c, k);
        RankedElems(l);
        RankedElems(m);
        assert c in Elems(l) && c !in Elems(m);
        if Elems(m) <= Elems(l) {
          SubsetCardinality(Elems(m), Elems(l));
        }
        var x :| x in Elems(m) && x !in Elems(l);
        assert Covers(l, x, k);
        BetterAsymmetric(x, c);
      }
    }
  }

  // ---------------------------------------------------------------- canonical lists

  function RankInsert(l: seq<Candidate>, c: Candidate): seq<Candidate> {
    if l == [] then [c]
    else if l[0] == c then l
    else if Better(c, l[0]) then [c] + l
    else [l[0]] + RankInsert(l[1..], c)
  }

  function RankAll(cs: seq<Candidate>): seq<Candidate> {
    if cs == [] then [] else RankInsert(RankAll(cs[..|cs| - 1]), cs[|cs| - 1])
  }

  function Truncate(l: seq<Candidate>, k: nat): seq<Candidate> {
    if |l| > k then l[..k] else l
  }

  /** What canonicalize returns: duplicates removed, ranked, cut to `kmax`. */
  function Canonical(cs: seq<Candidate>, kmax: nat): seq<Candidate> {
    Truncate(RankAll(cs), kmax)
  }

  lemma {:induction false} RankInsertRanked(l: seq<Candidate>, c: Candidate)
    requires Ranked(l)
    ensures Ranked(RankInsert(l, c))
    ensures forall x :: x in RankInsert(l, c) <==> x in l || x == c
  {
    if l != [] && l[0] != c {
      if Better(c, l[0]) {
        forall j | 0 <= j < |l| ensures Better(c, l[j]) {
          if j > 0 { BetterTransitive(c, l[0], l[j]); }
        }
      } else {
        BetterTotal(c, l[0]);
        RankInsertRanked(l[1..], c);
        var r := RankInsert(l[1..], c);
        forall j | 0 <= j < |r| ensures Better(l[0], r[j]) {
          assert r[j] in r;
        }
        assert l == [l[0]] + l[1..];
      }
    }
  }

  lemma {:induction false} RankAllRanked(cs: seq<Candidate>)
    ensures Ranked(RankAll(cs))
    ensures forall x :: x in RankAll(cs) <==> x in cs
  {
    if cs != [] {
      var init, last := cs[..|cs| - 1], cs[|cs| - 1];
      RankAllRanked(init);
      RankInsertRanked(RankAll(init), last);
      assert cs == init + [last];
    }
  }

  lemma TruncateIsTop(l: seq<Candidate>, k: nat)
    requires Ranked(l)
    ensures IsTop(Truncate(l, k), Elems(l), k)
  {
    var t := Truncate(l, k);
    forall c | c in l ensures Covers(t, c, k) {
      var i :| 0 <= i < |l| && l[i] == c;
      if i < |t| {
        assert t[i] == c;
      } else {
        forall x | x in t ensures Better(x, c) {
          var j :| 0 <= j < |t| && t[j] == x;
          assert l[j] == x;
        }
      }
    }
  }

  /** The meaning of canonicalize: the best `kmax` distinct candidates of its input. */
  lemma CanonicalIsTop(cs: seq<Candidate>, kmax: nat)
    ensures IsTop(Canonical(cs, kmax), Elems(cs), kmax)
  {
    RankAllRanked(cs);
    assert Elems(RankAll(cs)) == Elems(cs);
    TruncateIsTop(RankAll(cs), kmax);
  }

  /** The list that canonicalize makes, without the comparison: candidates of the input in the documented order, as
      many as fit, and whatever is left out stands behind all of a full list. */
  lemma CanonicalOrder(cs: seq<Candidate>, kmax: nat)
    ensures var l := Canonical(cs, kmax);
            && Sorted(l) && |l| <= kmax && (forall c :: c in l ==> c in cs)
            && (forall c :: c in cs && c !in l ==> |l| == kmax && Behind(l, c))
  {
    var l := Canonical(cs, kmax);
    CanonicalIsTop(cs, kmax);
    RankedMeaning(l);
    hide Canonical, Sorted, Better;
    forall c | c in l ensures c in cs { assert c in Elems(cs); }
    forall c | c in cs && c !in l ensures |l| == kmax && Behind(l, c) {
      assert c in Elems(cs) && Covers(l, c, kmax);
      forall x | x in l ensures Sorted([x, c]) { BetterMeaning(x, c); }
    }
  }

  /** Of two reports of the same score the later one is kept. */
  lemma LaterEventWins(a: Candidate, b: Candidate)
    requires a.score == b.score && a.eventTs < b.eventTs
    ensures MergeTop([a], [b], 1) == [b] && MergeTop([b], [a], 1) == [b]
  {
    hide Canonical, Sorted, Behind;
    BestOfTwo([a] + [b], a, b);
    BestOfTwo([b] + [a], a, b);
  }

  lemma BestOfTwo(cs: seq<Candidate>, a: Candidate, b: Candidate)
    requires a.score == b.score && a.eventTs < b.eventTs && forall c :: c in cs <==> c == a || c == b
    ensures Canonical(cs, 1) == [b]
  {
    hide Canonical, Sorted, Behind;
    CanonicalOrder(cs, 1);
    OnlyBest(Canonical(cs, 1), a, b);
  }

  lemma OnlyBest(l: seq<Candidate>, a: Candidate, b: Candidate)
    requires a.score == b.score && a.eventTs < b.eventTs && |l| <= 1 && forall c :: c in l ==> c == a || c == b
    requires (a !in l ==> |l| == 1 && Behind(l, a)) && (b !in l ==> |l| == 1 && Behind(l, b))
    ensures l == [b]
  {
    assert |l| == 1 && l[0] in l;
    var p := [a, b];
    assert p[0] == a && p[1] == b;
    assert [l[0], b][0] == l[0] && [l[0], b][1] == b;
  }

  lemma CanonicalFixpoint(l: seq<Candidate>, kmax: nat)
    requires Ranked(l) && |l| <= kmax
    ensures IsTop(l, Elems(l), kmax)
    ensures Canonical(l, kmax) == l
  {
    CanonicalIsTop(l, kmax);
    TruncateIsTop(l, kmax);
    TopUnique(Canonical(l, kmax), l, Elems(l), kmax);
  }

  function MergeTop(l: seq<Candidate>, m: seq<Candidate>, kmax: nat): seq<Candidate> {
    Canonical(l + m, kmax)
  }

  /** A cut made early loses nothing: topK(A + B) = topK(topK(A) + B). */
  lemma TruncationAbsorbed(l: seq<Candidate>, m: seq<Candidate>, a: set<Candidate>, b: set<Candidate>, k: nat)
    requires IsTop(l, a, k)
    requires IsTop(m, Elems(l) + b, k)
    ensures IsTop(m, a + b, k)
  {
    forall c | c in a + b ensures Covers(m, c, k) {
      if c in Elems(l) + b {
      } else {
        assert Covers(l, c, k);
        CoveredByMerge(l, m, b, c, k);
      }
    }
  }

  /** A candidate outranked by a full list stays outranked once that list is merged away. */
  lemma CoveredByMerge(l: seq<Candidate>, m: seq<Candidate>, b: set<Candidate>, c: Candidate, k: nat)
    requires Ranked(l) && Covers(l, c, k) && c !in l
    requires IsTop(m, Elems(l) + b, k)
    ensures Covers(m, c, k)
  {
    RankedElems(l);
    RankedElems(m);
    if Elems(l) <= Elems(m) {
      SubsetCardinality(Elems(l), Elems(m));
      RankedUnique(l, m);
    } else {
      var x :| x in Elems(l) && x !in Elems(m);
      assert Covers(m, x, k);
      forall y | y in m ensures Better(y, c) {
        BetterTransitive(y, x, c);
      }
    }
  }

  /** Merging two best-`k` lists gives the best `k` of everything either list was cut from. */
  lemma MergeTopMeaning(l: seq<Candidate>, m: seq<Candidate>, a: set<Candidate>, b: set<Candidate>, k: nat)
    requires IsTop(l, a, k) && IsTop(m, b, k)
    ensures IsTop(MergeTop(l, m, k), a + b, k)
  {
    var r := MergeTop(l, m, k);
    CanonicalIsTop(l + m, k);
    assert Elems(l + m) == Elems(l) + Elems(m) == Elems(m) + Elems(l);
    TruncationAbsorbed(l, r, a, Elems(m), k);
    assert a + Elems(m) == Elems(m) + a;
    TruncationAbsorbed(m, r, b, a, k);
    assert b + a == a + b;
  }

  /** Commutative, associative and idempotent on the lists that replicas hold. */
  lemma MergeTopLaws(l: seq<Candidate>, m: seq<Candidate>, n: seq<Candidate>, k: nat)
    requires Ranked(l) && |l| <= k && Ranked(m) && |m| <= k && Ranked(n) && |n| <= k
    ensures MergeTop(l, m, k) == MergeTop(m, l, k)
    ensures MergeTop(MergeTop(l, m, k), n, k) == MergeTop(l, MergeTop(m, n, k), k)
    ensures MergeTop(l, l, k) == l
  {
    var a, b, c := Elems(l), Elems(m), Elems(n);
    CanonicalFixpoint(l, k);
    CanonicalFixpoint(m, k);
    CanonicalFixpoint(n, k);
    MergeTopMeaning(l, m, a, b, k);
    MergeTopMeaning(m, l, b, a, k);
    assert a + b == b + a;
    TopUnique(MergeTop(l, m, k), MergeTop(m, l, k), a + b, k);
    MergeTopMeaning(MergeTop(l, m, k), n, a + b, c, k);
    MergeTopMeaning(m, n, b, c, k);
    MergeTopMeaning(l, MergeTop(m, n, k), a, b + c, k);
    assert a + (b + c) == (a + b) + c;
    TopUnique(MergeTop(MergeTop(l, m, k), n, k), MergeTop(l, MergeTop(m, n, k), k), (a + b) + c, k);
    MergeTopMeaning(l, l, a, a, k);
    assert a + a == a;
    TopUnique(MergeTop(l, l, k), l, a, k);
  }

  /** A candidate cut from the best `k` of a set never returns however much is added later. */
  lemma EvictedNeverReturns(l: seq<Candidate>, s: set<Candidate>, l': seq<Candidate>, s': set<Candidate>,
                            c: Candidate, k: nat)
    requires IsTop(l, s, k) && IsTop(l', s', k) && s <= s'
    requires c in s && c !in l
    ensures c !in l'
  {
    assert Covers(l, c, k);
    var x: Candidate;
    RankedElems(l);
    RankedElems(l');
    if c in l' {
      assert c in Elems(l') && c !in Elems(l);
      if Elems(l) <= Elems(l') {
        SubsetCardinality(Elems(l), Elems(l'));
      }
      x :| x in Elems(l) && x !in Elems(l');
      assert Covers(l', x, k);
      BetterAsymmetric(x, c);
    }
  }

  /** Merging `m` into `l` changes nothing exactly when `l` already covers all of `m`. */
  lemma MergeUnchanged(l: seq<Candidate>, m: seq<Candidate>, k: nat)
    requires Ranked(l) && |l| <= k
    ensures MergeTop(l, m, k) == l <==> forall c :: c in m ==> Covers(l, c, k)
  {
    var r := MergeTop(l, m, k);
    CanonicalIsTop(l + m, k);
    if r == l {
      forall c | c in m ensures Covers(l, c, k) {
        assert c in Elems(l + m);
      }
    }
    if forall c :: c in m ==> Covers(l, c, k) {
      assert IsTop(l, Elems(l + m), k);
      TopUnique(r, l, Elems(l + m), k);
    }
  }

  /** Merging keeps everything that was covered covered. */
  lemma CoversAfterMerge(l: seq<Candidate>, m: seq<Candidate>, c: Candidate, k: nat)
    requires Ranked(l) && |l| <= k
    requires Covers(l, c, k) || c in m
    ensures Covers(MergeTop(l, m, k), c, k)
  {
    CanonicalIsTop(l + m, k);
    assert Elems(l + m) == Elems(l) + Elems(m);
    if c !in l && c !in m {
      CoveredByMerge(l, MergeTop(l, m, k), Elems(m), c, k);
    } else {
      assert c in Elems(l + m);
    }
  }

  lemma ValidMerge(l: seq<Candidate>, m: seq<Candidate>, k: nat)
    requires ValidCandidates(l) && ValidCandidates(m)
    ensures ValidCandidates(MergeTop(l, m, k))
  {
    CanonicalIsTop(l + m, k);
    var r := MergeTop(l, m, k);
    forall i | 0 <= i < |r| ensures ValidCandidate(r[i]) {
      assert r[i] in r;
      assert r[i] in Elems(l + m);
    }
  }

  // ---------------------------------------------------------------- the replica's set

  predicate TopAdvances(s: TopState, cs: seq<Candidate>, kmax: nat) {
    MergeTop(s.candidates, cs, kmax) != s.candidates
  }

  /** Merge of a valid peer state: contents, then the Lamport version. */
  function MergeTopState(s: TopState, peer: TopState, kmax: nat): TopState {
    var cs := MergeTop(s.candidates, peer.candidates, kmax);
    TopState(cs, if cs != s.candidates then Next64(Max64(s.version, peer.version))
                 else Max64(s.version, peer.version))
  }

  function UpdateTopState(s: TopState, c: Candidate, kmax: nat): TopState {
    var cs := MergeTop(s.candidates, [c], kmax);
    TopState(cs, if cs != s.candidates then Next64(s.version) else s.version)
  }

  ghost predicate CanonicalState(s: TopState, kmax: nat) {
    Ranked(s.candidates) && |s.candidates| <= kmax && ValidCandidates(s.candidates)
  }

  /** sort.Slice over the distinct candidates gathered by canonicalize. */
  method SortCandidates(cs: seq<Candidate>) returns (out: seq<Candidate>)
    ensures Ranked(out) && Sorted(out)
    ensures forall c :: c in out <==> c in cs
  {
    out := [];
    for i := 0 to |cs|
      invariant Ranked(out)
      invariant forall c :: c in out <==> c in cs[..i]
    {
      RankInsertRanked(out, cs[i]);
      assert cs[..i + 1] == cs[..i] + [cs[i]];
      out := RankInsert(out, cs[i]);
    }
    assert cs[..|cs|] == cs;
    RankedMeaning(out);
  }

  method Canonicalize(candidates: seq<Candidate>, kmax: nat) returns (out: seq<Candidate>)
    ensures out == Canonical(candidates, kmax)
    ensures IsTop(out, Elems(candidates), kmax)
  {
    var byTuple: set<Candidate> := {};
    for i := 0 to |candidates|
      invariant byTuple == Elems(candidates[..i])
    {
      assert candidates[..i + 1] == candidates[..i] + [candidates[i]];
      byTuple := byTuple + {candidates[i]};
    }
    assert candidates[..|candidates|] == candidates;
    out := [];
    while byTuple != {}
      invariant byTuple + Elems(out) == Elems(candidates)
      decreases byTuple
    {
      var c :| c in byTuple;
      assert Elems(out + [c]) == Elems(out) + {c};
      out := out + [c];
      byTuple := byTuple - {c};
    }
    out := SortCandidates(out);
    assert Elems(out) == Elems(candidates);
    TruncateIsTop(out, kmax);
    if |out| > kmax {
      out := out[..kmax];
    }
    CanonicalIsTop(candidates, kmax);
    TopUnique(out, Canonical(candidates, kmax), Elems(candidates), kmax);
  }

  class Set {
    const kmax: nat
    var version: U64
    var candidates: seq<Candidate>

    ghost predicate Valid()
      reads this
    {
      kmax > 0 && CanonicalState(Value(), kmax)
    }

    function Value(): TopState
      reads this
    {
      TopState(candidates, version)
    }

    constructor (kmax: nat)
      requires kmax > 0
      ensures Valid() && this.kmax == kmax && Value() == TopState([], 0)
    {
      this.kmax := kmax;
      version := 0;
      candidates := [];
    }

    method Update(c: Candidate) returns (r: Result<bool>)
      requires Valid()
      modifies this
      ensures Valid()
      ensures !ValidCandidate(c) ==> r == Err(InvalidCandidate) && Value() == old(Value())
      ensures ValidCandidate(c) ==>
        && Value() == UpdateTopState(old(Value()), c, kmax)
        && r == Ok(TopAdvances(old(Value()), [c], kmax))
    {
      if !ValidCandidate(c) {
        return Err(InvalidCandidate);
      }
      var before := candidates;
      CanonicalIsTop(candidates + [c], kmax);
      ValidMerge(candidates, [c], kmax);
      candidates := Canonicalize(candidates + [c], kmax);
      var advanced := before != candidates;
      if advanced {
        version := Next64(version);
      }
      return Ok(advanced);
    }

    method Merge(peer: TopState) returns (r: Result<bool>)
      requires Valid()
      modifies this
      ensures Valid()
      ensures !ValidCandidates(peer.candidates) ==> r == Err(InvalidCandidate) && Value() == old(Value())
      ensures ValidCandidates(peer.candidates) ==>
        && Value() == MergeTopState(old(Value()), peer, kmax)
        && r == Ok(TopAdvances(old(Value()), peer.candidates, kmax))
    {
      if !ValidCandidates(peer.candidates) {
        return Err(InvalidCandidate);
      }
      var before := candidates;
      CanonicalIsTop(candidates + peer.candidates, kmax);
      ValidMerge(candidates, peer.candidates, kmax);
      candidates := Canonicalize(candidates + peer.candidates, kmax);
      var advanced := before != candidates;
      if advanced {
        version := Next64(Max64(version, peer.version));
      } else if peer.version > version {
        version := peer.version;
      }
      return Ok(advanced);
    }

    /** Estimate(k) reads the true top min(k, kmax) of everything the set was built from. */
    method Estimate(k: int) returns (r: Result<seq<Candidate>>)
      requires Valid()
      ensures k <= 0 ==> r == Err(InvalidK)
      ensures k > 0 ==> r.Ok? && r.value <= candidates
      ensures k > 0 ==> forall seen :: IsTop(candidates, seen, kmax) ==> IsTop(r.value, seen, if k > kmax then kmax else k)
      ensures k > 0 ==> Sorted(r.value) && |r.value| <= k
      ensures k > 0 ==> forall c :: c in candidates && c !in r.value ==> |r.value| == k && Behind(r.value, c)
    {
      if k <= 0 {
        return Err(InvalidK);
      }
      var n := if k > kmax then kmax else k;
      forall seen | IsTop(candidates, seen, kmax)
        ensures IsTop(if n > |candidates| then candidates else candidates[..n], seen, n)
      {
        PrefixIsTop(candidates, seen, n, kmax);
      }
      if n > |candidates| {
        n := |candidates|;
      }
      PrefixSorted(candidates, n);
      return Ok(candidates[..n]);
    }

    method Serialize() returns (raw: TopState)
      ensures raw == Value()
    {
      raw := TopState(candidates, version);
    }

    /** Reading back a serialised state restores it exactly, because states are canonical. */
    method Deserialize(raw: TopState) returns (r: Result<()>)
      requires Valid()
      modifies this
      ensures Valid()
      ensures !ValidCandidates(raw.candidates) ==> r == Err(InvalidCandidate) && Value() == old(Value())
      ensures ValidCandidates(raw.candidates) ==>
        r == Ok(()) && Value() == TopState(Canonical(raw.candidates, kmax), raw.version)
      ensures CanonicalState(raw, kmax) ==> r == Ok(()) && Value() == raw
    {
      if !ValidCandidates(raw.candidates) {
        return Err(InvalidCandidate);
      }
      ValidMerge(raw.candidates, [], kmax);
      assert raw.candidates + [] == raw.candidates;
      CanonicalIsTop(raw.candidates, kmax);
      if CanonicalState(raw, kmax) {
        CanonicalFixpoint(raw.candidates, kmax);
      }
      candidates := Canonicalize(raw.candidates, kmax);
      version := raw.version;
      return Ok(());
    }
  }

  lemma TakenIsIn(l: seq<Candidate>, n: nat, j: nat)
    requires n <= |l| && j < |l|
    ensures j < n ==> l[j] in l[..n]
  {
    if j < n {
      assert l[..n][j] == l[j];
    }
  }

  lemma PrefixSorted(l: seq<Candidate>, n: nat)
    requires Ranked(l) && n <= |l|
    ensures Sorted(l[..n])
    ensures forall c :: c in l && c !in l[..n] ==> Behind(l[..n], c)
  {
    RankedMeaning(l[..n]);
    forall c, x | c in l && c !in l[..n] && x in l[..n] ensures Sorted([x, c]) {
      var i :| 0 <= i < |l[..n]| && l[..n][i] == x;
      var j :| 0 <= j < |l| && l[j] == c;
      TakenIsIn(l, n, j);
      BetterMeaning(x, c);
    }
  }

  /** The first `n` of the best `k` are the best `n`. */
  lemma PrefixIsTop(l: seq<Candidate>, s: set<Candidate>, n: nat, k: nat)
    requires IsTop(l, s, k) && n <= k
    ensures IsTop(if n > |l| then l else l[..n], s, n)
  {
    var p := if n > |l| then l else l[..n];
    forall c | c in p ensures c in s {
      assert c in l;
    }
    forall c | c in s ensures Covers(p, c, n) {
      assert Covers(l, c, k);
      if c in l {
        var i :| 0 <= i < |l| && l[i] == c;
        if i < |p| {
          assert p[i] == c;
        } else {
          forall x | x in p ensures Better(x, c) {
            var j :| 0 <= j < |p| && p[j] == x;
            assert l[j] == x;
          }
        }
      } else {
        forall x | x in p ensures x in l {}
      }
    }
  }
}
