/** What an index means, position by position, and what its operations do to that meaning. */
module PageRangeLaws {
  import opened PageRanges

  lemma {:induction false} LookupAppend(a: seq<PageRange>, b: seq<PageRange>, p: int)
    ensures Lookup(a + b, p) == if Lookup(a, p) != Nowhere then Lookup(a, p) else Lookup(b, p)
  {
    if a == [] {
      assert a + b == b;
    } else {
      assert (a + b)[1..] == a[1..] + b;
      LookupAppend(a[1..], b, p);
    }
  }

  /** Restriction is the restriction of the partial function, for any list whatsoever. */
  lemma {:induction false} LookupRestrict(rs: seq<PageRange>, lo: int, hi: Bound, p: int)
    ensures Lookup(Restrict(rs, lo, hi), p) == if lo <= p && UpTo(p, hi) then Lookup(rs, p) else Nowhere
  {
    if rs != [] {
      LookupRestrict(rs[1..], lo, hi, p);
      LookupAppend(RestrictOne(rs[0], lo, hi), Restrict(rs[1..], lo, hi), p);
      if RestrictOne(rs[0], lo, hi) != [] {
        assert Lookup(RestrictOne(rs[0], lo, hi), p) == PointerIn(RestrictOne(rs[0], lo, hi)[0], p);
      }
    }
  }

  ghost predicate Within(rs: seq<PageRange>, lo: int, hi: Bound) {
    forall i :: 0 <= i < |rs| ==> lo <= rs[i].start && UpTo(rs[i].end, hi)
  }

  lemma {:induction false} RestrictAbove(rs: seq<PageRange>, lo: int, hi: Bound, q: int)
    requires forall k :: 0 <= k < |rs| ==> q < rs[k].start
    ensures forall k :: 0 <= k < |Restrict(rs, lo, hi)| ==> q < Restrict(rs, lo, hi)[k].start
  {
    if rs != [] {
      RestrictAbove(rs[1..], lo, hi, q);
    }
  }

  lemma {:induction false} RestrictWellFormed(rs: seq<PageRange>, lo: int, hi: Bound)
    requires WellFormed(rs) && 0 <= lo
    ensures WellFormed(Restrict(rs, lo, hi)) && Within(Restrict(rs, lo, hi), lo, hi)
  {
    if rs != [] {
      RestrictWellFormed(rs[1..], lo, hi);
      RestrictAbove(rs[1..], lo, hi, rs[0].end);
    }
  }

  lemma JoinWellFormed(a: seq<PageRange>, b: seq<PageRange>, border: int)
    requires WellFormed(a) && WellFormed(b)
    requires Within(a, 0, At(border)) && Within(b, border + 1, Infinity)
    ensures WellFormed(a + b)
  {
    forall i, j | 0 <= i < j < |a + b| ensures (a + b)[i].end < (a + b)[j].start {
      if i < |a| <= j { assert a[i].end <= border; }
    }
  }

  lemma MergedWellFormed(rs: seq<PageRange>, range: PageRange)
    requires WellFormed(rs) && ValidRange(range)
    ensures WellFormed(Merged(rs, range))
  {
    RestrictWellFormed(rs, 0, At(range.start - 1));
    RestrictWellFormed(rs, range.end + 1, Infinity);
    hide Restrict;
    JoinWellFormed(Before(rs, range.start), [range], range.start - 1);
    JoinWellFormed(Before(rs, range.start) + [range], After(rs, At(range.end)), range.end);
  }

  lemma ClearedWellFormed(rs: seq<PageRange>, start: int, end: Bound)
    requires WellFormed(rs) && 0 <= start && UpTo(start, end)
    ensures WellFormed(Cleared(rs, start, end))
  {
    RestrictWellFormed(rs, 0, At(start - 1));
    match end
    case Infinity =>
      assert Before(rs, start) + [] == Before(rs, start);
    case At(e) =>
      RestrictWellFormed(rs, e + 1, Infinity);
      JoinWellFormed(Before(rs, start), After(rs, end), e);
  }

  /** An upload is a point update: inside the interval every byte is the new one, outside
      nothing moves. */
  lemma MergeIsPointUpdate(rs: seq<PageRange>, range: PageRange, p: int)
    requires WellFormed(rs) && ValidRange(range)
    ensures WellFormed(Merged(rs, range))
    ensures Lookup(Merged(rs, range), p) == if Covers(range, p) then PointerIn(range, p) else Lookup(rs, p)
  {
    MergedWellFormed(rs, range);
    LookupRestrict(rs, 0, At(range.start - 1), p);
    LookupRestrict(rs, range.end + 1, Infinity, p);
    LookupAppend(Before(rs, range.start), [range], p);
    LookupAppend(Before(rs, range.start) + [range], After(rs, At(range.end)), p);
    assert Lookup([range], p) == PointerIn(range, p);
    if p < 0 {
      NothingBelow(rs, 0, p);
    }
  }

  /** A clear is a point update to nothing. */
  lemma ClearIsPointUpdate(rs: seq<PageRange>, start: int, end: Bound, p: int)
    requires WellFormed(rs) && 0 <= start && UpTo(start, end)
    ensures WellFormed(Cleared(rs, start, end))
    ensures Lookup(Cleared(rs, start, end), p) == if start <= p && UpTo(p, end) then Nowhere else Lookup(rs, p)
  {
    ClearedWellFormed(rs, start, end);
    LookupRestrict(rs, 0, At(start - 1), p);
    if end.At? {
      LookupRestrict(rs, end.position + 1, Infinity, p);
    }
    LookupAppend(Before(rs, start), After(rs, end), p);
    if p < 0 {
      NothingBelow(rs, 0, p);
    }
  }

  lemma {:induction false} NothingBelow(rs: seq<PageRange>, lo: int, p: int)
    requires Within(rs, lo, Infinity) && p < lo
    ensures Lookup(rs, p) == Nowhere
  {
    if rs != [] {
      NothingBelow(rs[1..], lo, p);
    }
  }

  // ----- How the list grows, and alignment -----

  lemma {:induction false} OutsideIsEmpty(rs: seq<PageRange>, s: int, hi: int)
    requires forall i :: 0 <= i < |rs| ==> hi < rs[i].start
    ensures Restrict(rs, s, At(hi)) == []
  {
    RestrictOutside(rs, s, At(hi));
  }

  lemma {:induction false} RestrictNoLonger(rs: seq<PageRange>, lo: int, hi: Bound)
    ensures |Restrict(rs, lo, hi)| <= |rs|
  {
    if rs != [] {
      RestrictNoLonger(rs[1..], lo, hi);
    }
  }

  /** At most one range of a sorted list sticks out of an interval on both sides. */
  lemma {:induction false} ClearAddsAtMostOne(rs: seq<PageRange>, start: int, end: Bound)
    requires WellFormed(rs) && 0 <= start && UpTo(start, end)
    ensures |Cleared(rs, start, end)| <= |rs| + 1
  {
    if end.Infinity? {
      RestrictNoLonger(rs, 0, At(start - 1));
    } else if rs != [] {
      if rs[0].start < start && end.position < rs[0].end {
        OutsideIsEmpty(rs[1..], 0, start - 1);
        RestrictNoLonger(rs[1..], end.position + 1, Infinity);
      } else {
        ClearAddsAtMostOne(rs[1..], start, end);
      }
    }
  }

  lemma MergeAddsAtMostTwo(rs: seq<PageRange>, range: PageRange)
    requires WellFormed(rs) && ValidRange(range)
    ensures |Merged(rs, range)| <= |rs| + 2
  {
    ClearAddsAtMostOne(rs, range.start, At(range.end));
    assert |Merged(rs, range)| == |Cleared(rs, range.start, At(range.end))| + 1;
  }

  const PAGE := 512

  predicate AlignedRange(r: PageRange) {
    r.start % PAGE == 0 && (r.end + 1) % PAGE == 0
  }

  ghost predicate Aligned(rs: seq<PageRange>) {
    forall i :: 0 <= i < |rs| ==> AlignedRange(rs[i])
  }

  lemma {:induction false} RestrictAligned(rs: seq<PageRange>, lo: int, hi: Bound)
    requires Aligned(rs) && lo % PAGE == 0 && (hi.At? ==> (hi.position + 1) % PAGE == 0)
    ensures Aligned(Restrict(rs, lo, hi))
  {
    if rs != [] {
      RestrictAligned(rs[1..], lo, hi);
    }
  }

  lemma MergeAligned(rs: seq<PageRange>, range: PageRange)
    requires Aligned(rs) && AlignedRange(range)
    ensures Aligned(Merged(rs, range))
  {
    RestrictAligned(rs, 0, At(range.start - 1));
    RestrictAligned(rs, range.end + 1, Infinity);
  }

  lemma ClearAligned(rs: seq<PageRange>, start: int, end: Bound)
    requires Aligned(rs) && start % PAGE == 0 && (end.At? ==> (end.position + 1) % PAGE == 0)
    ensures Aligned(Cleared(rs, start, end))
  {
    RestrictAligned(rs, 0, At(start - 1));
    if end.At? {
      RestrictAligned(rs, end.position + 1, Infinity);
    }
  }
}
