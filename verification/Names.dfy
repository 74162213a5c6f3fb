/** Strings compared character by character, as the source compares blob names. */
module Names {

  /** Strictly smaller in lexicographic order. */
  predicate Less(a: string, b: string) {
    b != [] && (a == [] || a[0] < b[0] || (a[0] == b[0] && Less(a[1..], b[1..])))
  }

  predicate AtMost(a: string, b: string) {
    !Less(b, a)
  }

  lemma {:induction false} LessTrichotomy(a: string, b: string)
    ensures !(Less(a, b) && Less(b, a))
    ensures (!Less(a, b) && !Less(b, a)) <==> a == b
    decreases |a|
  {
    if a != [] && b != [] && a[0] == b[0] {
      LessTrichotomy(a[1..], b[1..]);
      assert a == [a[0]] + a[1..] && b == [b[0]] + b[1..];
    }
  }

  lemma {:induction false} LessTransitive(a: string, b: string, c: string)
    requires Less(a, b) && Less(b, c)
    ensures Less(a, c)
    decreases |a|
  {
    if a != [] && a[0] == b[0] == c[0] {
      LessTransitive(a[1..], b[1..], c[1..]);
    }
  }

  lemma AtMostTransitive(a: string, b: string, c: string)
    requires AtMost(a, b) && AtMost(b, c)
    ensures AtMost(a, c)
    ensures Less(a, b) || Less(b, c) ==> Less(a, c)
  {
    LessTrichotomy(a, b);
    LessTrichotomy(b, c);
    if Less(a, b) && Less(b, c) {
      LessTransitive(a, b, c);
    }
    LessTrichotomy(a, c);
  }

  /** Names that share a beginning are contiguous: whatever sorts between two of them shares it. */
  lemma {:induction false} SharedPrefixIsContiguous(a: string, b: string, c: string, n: nat)
    requires AtMost(a, b) && AtMost(b, c)
    requires n <= |a| && n <= |c| && a[..n] == c[..n]
    ensures n <= |b| && b[..n] == a[..n]
    decreases n
  {
    if n > 0 {
      assert a[0] == a[..n][0] == c[0];
      assert b != [] && b[0] == a[0];
      assert a[1..][..n - 1] == a[..n][1..] && c[1..][..n - 1] == c[..n][1..];
      SharedPrefixIsContiguous(a[1..], b[1..], c[1..], n - 1);
      assert b[..n] == [b[0]] + b[1..][..n - 1] && a[..n] == [a[0]] + a[1..][..n - 1];
    }
  }

  /** Up to place n the strings are alike, and there a ends or has the smaller character. */
  predicate SmallerAt(a: string, b: string, n: nat) {
    n <= |a| && n < |b| && a[..n] == b[..n] && (n == |a| || a[n] < b[n])
  }

  lemma AlikeFromTheStart(a: string, b: string, n: nat)
    requires SmallerAt(a, b, n) && n > 0
    ensures a != [] && b != [] && a[0] == b[0]
  {
    assert a[0] == a[..n][0] && b[0] == b[..n][0];
  }

  /** The order is decided by the first character that differs, or by the end of the shorter one. */
  lemma {:induction false} LessExactly(a: string, b: string)
    ensures Less(a, b) <==> exists n :: SmallerAt(a, b, n)
    decreases |a|
  {
    if a != [] && b != [] && a[0] == b[0] {
      LessExactly(a[1..], b[1..]);
      assert a == [a[0]] + a[1..] && b == [b[0]] + b[1..];
      if n: nat :| SmallerAt(a[1..], b[1..], n) {
        assert a[..n + 1] == [a[0]] + a[1..][..n] && b[..n + 1] == [b[0]] + b[1..][..n];
        assert SmallerAt(a, b, n + 1);
      }
      if n: nat :| SmallerAt(a, b, n) {
        assert n > 0;
        assert a[1..][..n - 1] == a[..n][1..] && b[1..][..n - 1] == b[..n][1..];
        assert SmallerAt(a[1..], b[1..], n - 1);
      }
    } else {
      if Less(a, b) {
        assert a[..0] == b[..0] && SmallerAt(a, b, 0);
      }
      if n: nat :| SmallerAt(a, b, n) {
        if n > 0 {
          AlikeFromTheStart(a, b, n);
        }
      }
    }
  }
}
