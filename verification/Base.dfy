/** Names, bounded integers and small map facts shared by every component. */
module Base {

  const MAX_U64: int := 0xFFFF_FFFF_FFFF_FFFF

  type U64 = x: int | 0 <= x <= MAX_U64

  /** Go's `x + 1` on uint64, which wraps to zero. */
  function Next64(x: U64): U64 {
    if x == MAX_U64 then 0 else x + 1
  }

  function Max64(a: U64, b: U64): U64 {
    if a > b then a else b
  }

  datatype Option<+T> = None | Some(value: T)

  type NodeId = string

  predicate IdChar(c: char) {
    'a' <= c <= 'z' || '0' <= c <= '9'
  }

  /** The pattern ^[a-z0-9][a-z0-9-]{0,30}$. */
  predicate ValidNodeId(s: NodeId) {
    && 1 <= |s| <= 31
    && IdChar(s[0])
    && forall i :: 0 <= i < |s| ==> IdChar(s[i]) || s[i] == '-'
  }

  /** Reading a Go map: a missing key is zero. */
  function Get(m: map<NodeId, U64>, k: NodeId): U64 {
    if k in m then m[k] else 0
  }

  /** Go's string comparison `a < b`. */
  predicate StrLess(a: string, b: string) {
    if b == [] then false
    else if a == [] then true
    else a[0] < b[0] || (a[0] == b[0] && StrLess(a[1..], b[1..]))
  }

  /** The strings agree up to some place, where the first one ends or has the smaller character. */
  ghost predicate FirstDiffers(a: string, b: string, i: nat) {
    i <= |a| && i < |b| && a[..i] == b[..i] && (i == |a| || a[i] < b[i])
  }

  lemma HeadsAgree(a: string, b: string, i: nat)
    requires FirstDiffers(a, b, i)
    ensures i > 0 ==> a != [] && a[0] == b[0]
  {
    if i > 0 {
      assert a[..i][0] == b[..i][0];
    }
  }

  /** Lexicographic order. */
  lemma {:induction false} StrLessMeaning(a: string, b: string)
    ensures StrLess(a, b) <==> exists i: nat :: FirstDiffers(a, b, i)
  {
    if a != [] && b != [] && a[0] == b[0] {
      StrLessMeaning(a[1..], b[1..]);
      assert forall i: nat :: FirstDiffers(a[1..], b[1..], i) ==> FirstDiffers(a, b, i + 1) by {
        forall i: nat | FirstDiffers(a[1..], b[1..], i) ensures FirstDiffers(a, b, i + 1) {
          assert a[..i + 1] == [a[0]] + a[1..][..i] && b[..i + 1] == [b[0]] + b[1..][..i];
        }
      }
      forall i: nat | FirstDiffers(a, b, i) ensures i > 0 && FirstDiffers(a[1..], b[1..], i - 1) {
        assert i > 0;
        assert a[1..][..i - 1] == a[..i][1..] && b[1..][..i - 1] == b[..i][1..];
      }
    } else if b != [] {
      assert FirstDiffers(a, b, 0) <==> a == [] || a[0] < b[0];
      forall i: nat | FirstDiffers(a, b, i) ensures i == 0 {
        HeadsAgree(a, b, i);
      }
    }
  }

  lemma {:induction false} StrLessAsymmetric(a: string, b: string)
    requires StrLess(a, b)
    ensures a != b && !StrLess(b, a)
  {
    if a != [] && a[0] == b[0] {
      StrLessAsymmetric(a[1..], b[1..]);
    }
  }

  lemma {:induction false} StrLessTransitive(a: string, b: string, c: string)
    requires StrLess(a, b) && StrLess(b, c)
    ensures StrLess(a, c)
  {
    if a != [] && a[0] == b[0] == c[0] {
      StrLessTransitive(a[1..], b[1..], c[1..]);
    }
  }

  lemma {:induction false} StrLessTotal(a: string, b: string)
    ensures a == b || StrLess(a, b) || StrLess(b, a)
  {
    if a != [] && b != [] && a[0] == b[0] {
      StrLessTotal(a[1..], b[1..]);
      assert a == [a[0]] + a[1..] && b == [b[0]] + b[1..];
    }
  }

  lemma SubsetCardinality<T>(a: set<T>, b: set<T>)
    requires a <= b
    ensures |a| <= |b|
    ensures |a| == |b| ==> a == b
  {
    assert b == a + (b - a);
    assert |b| == |a| + |b - a|;
  }
}
