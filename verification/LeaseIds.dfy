/** When a write carries the id of a lease: in any case. */
module LeaseIds {
  import opened Leases

  predicate SameLetter(a: char, b: char) {
    || a == b
    || ('A' <= a <= 'Z' && b as int == a as int + 32)
    || ('A' <= b <= 'Z' && a as int == b as int + 32)
  }

  predicate SameButCase(a: string, b: string) {
    |a| == |b| && forall k :: 0 <= k < |a| ==> SameLetter(a[k], b[k])
  }

  /** Ids are compared up to the case of their ASCII letters, and of nothing else. */
  lemma LowerCaseExactly(a: string, b: string)
    ensures LowerCase(a) == LowerCase(b) <==> SameButCase(a, b)
  {
    if LowerCase(a) == LowerCase(b) {
      assert |a| == |LowerCase(a)| == |b|;
      forall k | 0 <= k < |a| ensures SameLetter(a[k], b[k]) {
        assert LowerCase(a)[k] == LowerCase(b)[k];
      }
    }
  }
}
