/** Queries of a page index: the stored ranges inside an interval, and the same with the
    holes filled by zero ranges so that a download can stream them. */
module PageReads {
  import opened Extents
  import opened PageRanges
  import opened PageRangeLaws

  datatype Cut = Ranges(ranges: seq<PageRange>) | RangeThrown

  /** The source copies the window and overwrites its first and its last slot. */
  method CutRanges(ranges: seq<PageRange>, start: int, end: Bound) returns (result: Cut)
    requires WellFormed(ranges)
    ensures result.RangeThrown? <==> ranges != [] && (!UpTo(start, end) || start < 0)
    ensures result.Ranges? ==> result.ranges == Restrict(ranges, start, end)
  {
    var scope := SelectImpactedRanges(ranges, start, end);
    if scope.RangeError? {
      return RangeThrown;
    }
    if ranges != [] {
      CutWindow(ranges, start, end, scope);
    }
    if scope.first > scope.last {
      return Ranges([]);
    }
    var impacted := CutImpacted(ranges[scope.first..scope.last + 1], start, end);
    return Ranges(impacted);
  }

  method CutImpacted(window: seq<PageRange>, start: int, end: Bound) returns (impacted: seq<PageRange>)
    requires WellFormed(window) && window != [] && AllOverlap(window, start, end) && 0 <= start && UpTo(start, end)
    requires forall i :: 0 < i < |window| ==> start <= window[i].start
    ensures impacted == Restrict(window, start, end)
  {
    hide Restrict, RestrictOne;
    impacted := window;
    var first := CutFirst(impacted[0], start, end);
    impacted := impacted[0 := first];
    var last := CutLast(impacted[|impacted| - 1], start, end);
    impacted := impacted[|impacted| - 1 := last];
    CutEnds(window, start, end, impacted);
  }

  method CutFirst(first: PageRange, start: int, ghost end: Bound) returns (cut: PageRange)
    requires ValidRange(first) && Overlaps(first, start, end) && 0 <= start && UpTo(start, end)
    ensures [cut] == RestrictOne(first, start, Infinity)
    ensures ValidRange(cut) && Overlaps(cut, start, end) && start <= cut.start
    ensures RestrictOne(cut, start, end) == RestrictOne(first, start, end)
  {
    cut := first;
    if first.end >= start && first.start < start {
      cut := PageRange(start, first.end,
                       Chunk(first.chunk.id, start - first.start + first.chunk.offset,
                             first.chunk.count - (start - first.start)));
    }
  }

  method CutLast(last: PageRange, ghost start: int, end: Bound) returns (cut: PageRange)
    requires ValidRange(last) && Overlaps(last, start, end) && start <= last.start
    ensures [cut] == RestrictOne(last, start, end)
  {
    cut := last;
    if end.At? && end.position >= last.start && end.position < last.end {
      cut := PageRange(last.start, end.position,
                       Chunk(last.chunk.id, last.chunk.offset, last.chunk.count - (last.end - end.position)));
    }
  }

  ghost predicate AllOverlap(window: seq<PageRange>, start: int, end: Bound) {
    forall i :: 0 <= i < |window| ==> Overlaps(window[i], start, end)
  }

  ghost predicate IsWindow(rs: seq<PageRange>, start: int, end: Bound, f: int, l: int) {
    && 0 <= f <= l < |rs|
    && WellFormed(rs[f..l + 1]) && AllOverlap(rs[f..l + 1], start, end)
    && forall i :: f < i <= l ==> start <= rs[i].start
  }

  lemma {:induction false} CutWindow(rs: seq<PageRange>, start: int, end: Bound, scope: Scope)
    requires WellFormed(rs) && rs != [] && 0 <= start && UpTo(start, end)
    requires scope == SelectImpactedRanges(rs, start, end)
    ensures scope.Impacted?
    ensures scope.first > scope.last ==> Restrict(rs, start, end) == []
    ensures scope.first <= scope.last ==> IsWindow(rs, start, end, scope.first, scope.last)
    ensures scope.first <= scope.last ==>
      Restrict(rs, start, end) == Restrict(rs[scope.first..scope.last + 1], start, end)
  {
    ScopeIsTheOverlap(rs, start, end);
    if scope.first > scope.last {
      RestrictOutside(rs, start, end);
    } else {
      WindowShape(rs, start, end, scope.first, scope.last);
      KeepMiddle(rs, scope.first, scope.last + 1, start, end);
    }
  }

  lemma {:induction false} WindowShape(rs: seq<PageRange>, start: int, end: Bound, f: nat, l: nat)
    requires WellFormed(rs) && f <= l < |rs|
    requires forall i :: 0 <= i < |rs| ==> (f <= i <= l <==> Overlaps(rs[i], start, end))
    ensures IsWindow(rs, start, end, f, l)
  {
    var window := rs[f..l + 1];
    forall i | f < i <= l ensures start <= rs[i].start {
      assert Overlaps(rs[f], start, end) && rs[f].end < rs[i].start;
    }
    forall i | 0 <= i < |window| ensures Overlaps(window[i], start, end) {
      assert window[i] == rs[f + i];
    }
  }

  lemma {:induction false} KeepMiddle(rs: seq<PageRange>, f: nat, l: nat, start: int, end: Bound)
    requires f <= l <= |rs|
    requires forall i :: 0 <= i < |rs| && !(f <= i < l) ==> rs[i].end < start || !UpTo(rs[i].start, end)
    ensures Restrict(rs, start, end) == Restrict(rs[f..l], start, end)
  {
    assert rs == rs[..f] + (rs[f..l] + rs[l..]);
    RestrictAppend(rs[..f], rs[f..l] + rs[l..], start, end);
    RestrictAppend(rs[f..l], rs[l..], start, end);
    RestrictOutside(rs[..f], start, end);
    RestrictOutside(rs[l..], start, end);
  }

  /** In a window of overlapping ranges only the ends can stick out. */
  lemma {:induction false} CutEnds(window: seq<PageRange>, start: int, end: Bound, cut: seq<PageRange>)
    requires WellFormed(window) && window != [] && AllOverlap(window, start, end)
    requires |cut| == |window|
    requires forall i :: 0 < i < |window| - 1 ==> cut[i] == window[i]
    requires |window| == 1 ==> [cut[0]] == RestrictOne(window[0], start, end)
    requires |window| > 1 ==> [cut[0]] == RestrictOne(window[0], start, Infinity)
    requires |window| > 1 ==> [cut[|cut| - 1]] == RestrictOne(window[|cut| - 1], start, end)
    ensures cut == Restrict(window, start, end)
  {
    var n := |window|;
    if n == 1 {
      assert Restrict(window[1..], start, end) == [];
    } else {
      assert window[0].end < window[n - 1].start;
      assert RestrictOne(window[0], start, end) == [cut[0]];
      MiddleUncut(window, start, end);
    }
  }

  lemma {:induction false} MiddleUncut(window: seq<PageRange>, start: int, end: Bound)
    requires WellFormed(window) && |window| > 1 && AllOverlap(window, start, end)
    ensures Restrict(window[1..], start, end)
         == window[1..|window| - 1] + RestrictOne(window[|window| - 1], start, end)
  {
    var n, rest := |window|, window[1..];
    forall i | 0 <= i < n - 2 ensures start <= rest[i].start && UpTo(rest[i].end, end) {
      assert window[0].end < window[i + 1].start && window[i + 1].end < window[n - 1].start;
    }
    RestrictAt(rest, n - 2, start, end);
    assert rest[..n - 2] == window[1..n - 1];
  }

  // ----- Filling the holes -----

  function ZeroRange(start: int, end: int): PageRange
    requires start <= end
  {
    PageRange(start, end, Chunk(ZeroExtent, 0, end - start + 1))
  }

  function Gap(start: int, next: int): seq<PageRange> {
    if start < next then [ZeroRange(start, next - 1)] else []
  }

  /** Zero ranges exactly in the gaps. */
  function Filled(cuts: seq<PageRange>, start: int, end: int): seq<PageRange> {
    if cuts == [] then Gap(start, end + 1)
    else Gap(start, cuts[0].start) + [cuts[0]] + Filled(cuts[1..], cuts[0].end + 1, end)
  }

  method FillZeroRanges(stored: seq<PageRange>, start: int, end: int) returns (filled: seq<PageRange>)
    requires WellFormed(stored) && 0 <= start <= end
    ensures filled == Filled(Restrict(stored, start, At(end)), start, end)
  {
    var cut := CutRanges(stored, start, At(end));
    var ranges := cut.ranges;
    if |ranges| == 0 {
      return [PageRange(start, end, Chunk(ZeroExtent, 0, end + 1 - start))];
    }
    filled := FillGaps(ranges, start, end);
  }

  method FillGaps(ranges: seq<PageRange>, start: int, end: int) returns (filled: seq<PageRange>)
    requires ranges != []
    ensures filled == Filled(ranges, start, end)
  {
    filled := ZerosBetween(start, ranges[0].start);
    FillStart(ranges, start, end);
    var i := 0;
    while i < |ranges| - 1
      invariant 0 <= i < |ranges|
      invariant FilledUpTo(filled, ranges, i, start, end)
    {
      FillStep(filled, ranges, i, start, end);
      filled := filled + [ranges[i]];
      var zeros := ZerosBetween(ranges[i].end + 1, ranges[i + 1].start);
      filled := filled + zeros;
      i := i + 1;
    }
    FillEnd(filled, ranges, start, end);
    filled := filled + [ranges[|ranges| - 1]];
    var zeros := ZerosBetween(ranges[|ranges| - 1].end + 1, end + 1);
    filled := filled + zeros;
  }

  method ZerosBetween(from: int, next: int) returns (zeros: seq<PageRange>)
    ensures zeros == Gap(from, next)
  {
    zeros := [];
    var gap := next - from;
    if gap > 0 {
      zeros := [PageRange(from, next - 1, Chunk(ZeroExtent, 0, gap))];
    }
  }

  /** The list built so far, with range i and everything behind it still to come. */
  ghost predicate FilledUpTo(filled: seq<PageRange>, ranges: seq<PageRange>, i: nat, start: int, end: int)
    requires i < |ranges|
  {
    Filled(ranges, start, end) == filled + ([ranges[i]] + Filled(ranges[i + 1..], ranges[i].end + 1, end))
  }

  lemma FillStart(ranges: seq<PageRange>, start: int, end: int)
    requires ranges != []
    ensures FilledUpTo(Gap(start, ranges[0].start), ranges, 0, start, end)
  {
  }

  lemma FillStep(filled: seq<PageRange>, ranges: seq<PageRange>, i: nat, start: int, end: int)
    requires i + 1 < |ranges| && FilledUpTo(filled, ranges, i, start, end)
    ensures FilledUpTo(filled + [ranges[i]] + Gap(ranges[i].end + 1, ranges[i + 1].start), ranges, i + 1, start, end)
  {
    var rest, tail := ranges[i + 1..], ranges[i + 2..];
    assert rest[0] == ranges[i + 1] && rest[1..] == tail;
    var gap, later := Gap(ranges[i].end + 1, rest[0].start), Filled(tail, rest[0].end + 1, end);
    assert Filled(rest, ranges[i].end + 1, end) == gap + [rest[0]] + later;
    Regroup(filled, ranges[i], gap, rest[0], later);
  }

  lemma Regroup(a: seq<PageRange>, x: PageRange, b: seq<PageRange>, y: PageRange, c: seq<PageRange>)
    ensures a + ([x] + (b + [y] + c)) == (a + [x] + b) + ([y] + c)
  {
  }

  lemma FillEnd(filled: seq<PageRange>, ranges: seq<PageRange>, start: int, end: int)
    requires ranges != [] && FilledUpTo(filled, ranges, |ranges| - 1, start, end)
    ensures filled + [ranges[|ranges| - 1]] + Gap(ranges[|ranges| - 1].end + 1, end + 1) == Filled(ranges, start, end)
  {
    assert ranges[|ranges|..] == [];
  }

  // ----- What the filled list says -----

  function Chunks(rs: seq<PageRange>): (chunks: seq<Chunk>)
    ensures |chunks| == |rs| && forall i :: 0 <= i < |rs| ==> chunks[i] == rs[i].chunk
  {
    seq(|rs|, i requires 0 <= i < |rs| => rs[i].chunk)
  }

  /** Consecutive ranges from start to end, without gap or overlap. */
  predicate Tiles(rs: seq<PageRange>, start: int, end: int) {
    if rs == [] then start == end + 1
    else rs[0].start == start && ValidRange(rs[0]) && rs[0].end <= end && Tiles(rs[1..], rs[0].end + 1, end)
  }

  lemma TilesCons(r: PageRange, rest: seq<PageRange>, end: int)
    requires ValidRange(r) && r.end <= end && Tiles(rest, r.end + 1, end)
    ensures Tiles([r] + rest, r.start, end)
  {
    assert ([r] + rest)[1..] == rest;
  }

  /** Filled lists tile the interval. */
  lemma {:induction false} FilledTiles(cuts: seq<PageRange>, start: int, end: int)
    requires WellFormed(cuts) && Within(cuts, start, At(end)) && 0 <= start <= end + 1
    ensures Tiles(Filled(cuts, start, end), start, end)
  {
    if cuts == [] {
      if start <= end {
        TilesCons(ZeroRange(start, end), [], end);
        assert [ZeroRange(start, end)] + [] == [ZeroRange(start, end)];
      }
    } else {
      var rest := Filled(cuts[1..], cuts[0].end + 1, end);
      FilledTiles(cuts[1..], cuts[0].end + 1, end);
      hide Tiles, WellFormed;
      TilesCons(cuts[0], rest, end);
      if start < cuts[0].start {
        var gap := ZeroRange(start, cuts[0].start - 1);
        TilesCons(gap, [cuts[0]] + rest, end);
        assert [gap] + ([cuts[0]] + rest) == [gap] + [cuts[0]] + rest;
      } else {
        assert [] + [cuts[0]] + rest == [cuts[0]] + rest;
      }
    }
  }

  /** Stored positions keep their pointer, all others point into the zero extent. */
  lemma {:induction false} FilledLookup(cuts: seq<PageRange>, start: int, end: int, p: int)
    requires WellFormed(cuts) && Within(cuts, start, At(end)) && start <= p <= end
    ensures Lookup(cuts, p) != Nowhere ==> Lookup(Filled(cuts, start, end), p) == Lookup(cuts, p)
    ensures Lookup(cuts, p) == Nowhere ==>
      exists q :: Lookup(Filled(cuts, start, end), p) == In(ZeroExtent, q)
  {
    if cuts == [] {
      assert Lookup([ZeroRange(start, end)], p) == In(ZeroExtent, p - start);
    } else {
      var rest := Filled(cuts[1..], cuts[0].end + 1, end);
      LookupAppend(Gap(start, cuts[0].start) + [cuts[0]], rest, p);
      LookupAppend(Gap(start, cuts[0].start), [cuts[0]], p);
      if p < cuts[0].start {
        NothingBelow(cuts, cuts[0].start, p);
        assert Lookup(Filled(cuts, start, end), p) == In(ZeroExtent, p - start);
      } else if p > cuts[0].end {
        FilledLookup(cuts[1..], cuts[0].end + 1, end, p);
      }
    }
  }

  lemma {:induction false} TilesCount(rs: seq<PageRange>, start: int, end: int)
    requires Tiles(rs, start, end)
    ensures TotalCount(Chunks(rs)) == end - start + 1
  {
    if rs != [] {
      TilesCount(rs[1..], rs[0].end + 1, end);
      assert Chunks(rs)[1..] == Chunks(rs[1..]);
    }
  }
}
