/** The page index of a page blob: a list of byte ranges, each pointing into an extent. */
module PageRanges {
  import opened Extents

  /** An inclusive end position; `bytes=n-` has none. */
  datatype Bound = At(position: int) | Infinity

  /** Both ends inclusive. */
  datatype PageRange = PageRange(start: int, end: int, chunk: Chunk)

  predicate UpTo(p: int, b: Bound) {
    b.At? ==> p <= b.position
  }

  function Earlier(p: int, b: Bound): int {
    if UpTo(p, b) then p else b.position
  }

  function Later(p: int, q: int): int {
    if p < q then q else p
  }

  predicate ValidRange(r: PageRange) {
    0 <= r.start <= r.end && r.chunk.count == r.end - r.start + 1
  }

  /** The invariant of a stored index: valid ranges, sorted and disjoint. */
  ghost predicate WellFormed(rs: seq<PageRange>) {
    && (forall i :: 0 <= i < |rs| ==> ValidRange(rs[i]))
    && (forall i, j :: 0 <= i < j < |rs| ==> rs[i].end < rs[j].start)
  }

  /** Where one byte is stored. */
  datatype Pointer = Nowhere | In(id: ExtentId, offset: int)

  predicate Covers(r: PageRange, p: int) {
    r.start <= p <= r.end
  }

  function PointerIn(r: PageRange, p: int): Pointer {
    if Covers(r, p) then In(r.chunk.id, r.chunk.offset + (p - r.start)) else Nowhere
  }

  /** The index as a partial function from positions to stored bytes. */
  function Lookup(rs: seq<PageRange>, p: int): Pointer {
    if rs == [] then Nowhere
    else if Covers(rs[0], p) then PointerIn(rs[0], p)
    else Lookup(rs[1..], p)
  }

  // ----- The reference operation: restriction of an index to an interval -----

  function RestrictOne(r: PageRange, lo: int, hi: Bound): seq<PageRange> {
    var s := Later(lo, r.start);
    var e := Earlier(r.end, hi);
    if s > e then []
    else [PageRange(s, e, Chunk(r.chunk.id, r.chunk.offset + (s - r.start), e - s + 1))]
  }

  function Restrict(rs: seq<PageRange>, lo: int, hi: Bound): seq<PageRange> {
    if rs == [] then [] else RestrictOne(rs[0], lo, hi) + Restrict(rs[1..], lo, hi)
  }

  /** Everything strictly after the bound. */
  function After(rs: seq<PageRange>, b: Bound): seq<PageRange> {
    match b
    case At(e) => Restrict(rs, e + 1, Infinity)
    case Infinity => []
  }

  function Before(rs: seq<PageRange>, start: int): seq<PageRange> {
    Restrict(rs, 0, At(start - 1))
  }

  /** An upload overwrites its interval and leaves the rest. */
  function Merged(rs: seq<PageRange>, range: PageRange): seq<PageRange> {
    Before(rs, range.start) + [range] + After(rs, At(range.end))
  }

  /** A clear empties its interval and leaves the rest. */
  function Cleared(rs: seq<PageRange>, start: int, end: Bound): seq<PageRange> {
    Before(rs, start) + After(rs, end)
  }

  lemma {:induction false} RestrictAppend(a: seq<PageRange>, b: seq<PageRange>, lo: int, hi: Bound)
    ensures Restrict(a + b, lo, hi) == Restrict(a, lo, hi) + Restrict(b, lo, hi)
  {
    if a == [] {
      assert a + b == b;
    } else {
      assert (a + b)[1..] == a[1..] + b;
      RestrictAppend(a[1..], b, lo, hi);
    }
  }

  lemma {:induction false} RestrictInside(rs: seq<PageRange>, lo: int, hi: Bound)
    requires forall i :: 0 <= i < |rs| ==> ValidRange(rs[i]) && lo <= rs[i].start && UpTo(rs[i].end, hi)
    ensures Restrict(rs, lo, hi) == rs
  {
    if rs != [] {
      RestrictInside(rs[1..], lo, hi);
      assert RestrictOne(rs[0], lo, hi) == [rs[0]];
    }
  }

  lemma {:induction false} RestrictOutside(rs: seq<PageRange>, lo: int, hi: Bound)
    requires forall i :: 0 <= i < |rs| ==> rs[i].end < lo || !UpTo(rs[i].start, hi)
    ensures Restrict(rs, lo, hi) == []
  {
    if rs != [] {
      RestrictOutside(rs[1..], lo, hi);
    }
  }

  lemma RestrictSplit(rs: seq<PageRange>, k: nat, lo: int, hi: Bound)
    requires k <= |rs|
    ensures Restrict(rs, lo, hi) == Restrict(rs[..k], lo, hi) + Restrict(rs[k..], lo, hi)
  {
    hide Restrict;
    assert rs == rs[..k] + rs[k..];
    RestrictAppend(rs[..k], rs[k..], lo, hi);
  }

  lemma RestrictAround(rs: seq<PageRange>, k: nat, lo: int, hi: Bound)
    requires k < |rs|
    ensures Restrict(rs, lo, hi) == Restrict(rs[..k], lo, hi) + RestrictOne(rs[k], lo, hi) + Restrict(rs[k + 1..], lo, hi)
  {
    assert Restrict([rs[k]], lo, hi) == RestrictOne(rs[k], lo, hi) + Restrict([], lo, hi);
    hide RestrictOne;
    assert rs == (rs[..k] + [rs[k]]) + rs[k + 1..];
    RestrictAppend(rs[..k] + [rs[k]], rs[k + 1..], lo, hi);
    RestrictAppend(rs[..k], [rs[k]], lo, hi);
  }

  /** Cutting a list in which only range k meets the border: what lies outside goes,
      what lies inside stays. */
  lemma {:induction false} RestrictAt(rs: seq<PageRange>, k: nat, lo: int, hi: Bound)
    requires k < |rs| && forall i :: 0 <= i < |rs| ==> ValidRange(rs[i])
    requires forall i :: k < i < |rs| ==> !UpTo(rs[i].start, hi)
    requires forall i :: 0 <= i < k ==> lo <= rs[i].start && UpTo(rs[i].end, hi)
    ensures Restrict(rs, lo, hi) == rs[..k] + RestrictOne(rs[k], lo, hi)
  {
    RestrictInside(rs[..k], lo, hi);
    RestrictOutside(rs[k + 1..], lo, hi);
    hide Restrict, RestrictOne;
    RestrictAround(rs, k, lo, hi);
  }

  // ----- The search -----

  predicate PositionInRange(r: PageRange, position: int) {
    position >= r.start && position <= r.end
  }

  /** The test a range passes to be the first impacted one. */
  predicate ReachesFrom(r: PageRange, position: int) {
    PositionInRange(r, position) || position < r.start
  }

  /** The test a range passes to be the last impacted one; the position may be Infinity. */
  predicate ReachedBy(r: PageRange, position: Bound) {
    match position
    case At(p) => PositionInRange(r, p) || p > r.end
    case Infinity => true
  }

  /** Math.floor of the middle, for at least two ranges left to search. */
  function Middle(from: nat, end: int): (mid: nat)
    requires from + 1 < end
    ensures from < mid < end
  {
    (from + end) / 2
  }

  /** `|rs|` stands for the Infinity the source returns when no range qualifies. The contract
      holds for any list, sorted or not: both halves are searched. */
  function LocateFirstImpactedRange(rs: seq<PageRange>, searchStart: int, searchEnd: int, position: int): (index: nat)
    requires searchEnd <= |rs|
    ensures index == |rs| || (Later(searchStart, 0) <= index < searchEnd && ReachesFrom(rs[index], position))
    ensures forall i :: Later(searchStart, 0) <= i < searchEnd && i < index ==> !ReachesFrom(rs[i], position)
    decreases searchEnd - Later(searchStart, 0)
  {
    var from := if searchStart < 0 then 0 else searchStart;
    if |rs| == 0 || from >= searchEnd then |rs|
    else if from == searchEnd - 1 then
      if ReachesFrom(rs[from], position) then from else |rs|
    else
      var mid := Middle(from, searchEnd);
      var inLeft := LocateFirstImpactedRange(rs, from, mid, position);
      if inLeft != |rs| then inLeft
      else if ReachesFrom(rs[mid], position) then mid
      else LocateFirstImpactedRange(rs, mid + 1, searchEnd, position)
  }

  function LocateLastImpactedRange(rs: seq<PageRange>, searchStart: int, searchEnd: int, position: Bound): (index: int)
    requires searchEnd <= |rs|
    ensures index == -1 || (Later(searchStart, 0) <= index < searchEnd && ReachedBy(rs[index], position))
    ensures forall i :: Later(searchStart, 0) <= i < searchEnd && index < i ==> !ReachedBy(rs[i], position)
    decreases searchEnd - Later(searchStart, 0)
  {
    var from := if searchStart < 0 then 0 else searchStart;
    if |rs| == 0 || from >= searchEnd then -1
    else if from == searchEnd - 1 then
      if ReachedBy(rs[from], position) then from else -1
    else
      var mid := Middle(from, searchEnd);
      var inRight := LocateLastImpactedRange(rs, mid + 1, searchEnd, position);
      if inRight > -1 then inRight
      else if ReachedBy(rs[mid], position) then mid
      else LocateLastImpactedRange(rs, from, mid, position)
  }

  datatype Scope = Impacted(first: nat, last: int) | RangeError

  function SelectImpactedRanges(rs: seq<PageRange>, start: int, end: Bound): (scope: Scope)
    ensures scope.RangeError? <==> rs != [] && (!UpTo(start, end) || start < 0)
  {
    if |rs| == 0 then Impacted(|rs|, -1)
    else if !UpTo(start, end) || start < 0 then RangeError
    else Impacted(LocateFirstImpactedRange(rs, 0, |rs|, start), LocateLastImpactedRange(rs, 0, |rs|, end))
  }

  ghost predicate Overlaps(r: PageRange, start: int, end: Bound) {
    start <= r.end && UpTo(r.start, end)
  }

  /** The scope is exactly the window of overlapping ranges; when nothing overlaps, `first`
      is the place where a range over [start, end] would be inserted. */
  lemma {:induction false} ScopeIsTheOverlap(rs: seq<PageRange>, start: int, end: Bound)
    requires WellFormed(rs) && 0 <= start && UpTo(start, end)
    ensures SelectImpactedRanges(rs, start, end).Impacted?
    ensures var scope := SelectImpactedRanges(rs, start, end);
      && (forall i :: 0 <= i < |rs| ==> (scope.first <= i <= scope.last <==> Overlaps(rs[i], start, end)))
      && -1 <= scope.last < |rs| && scope.first <= scope.last + 1
      && (forall i :: 0 <= i < |rs| ==> (i < scope.first <==> rs[i].end < start))
      && (forall i :: 0 <= i < |rs| ==> (i > scope.last <==> !UpTo(rs[i].start, end)))
  {
    var scope := SelectImpactedRanges(rs, start, end);
    if |rs| > 0 {
      forall i | 0 <= i < |rs|
        ensures ReachesFrom(rs[i], start) <==> start <= rs[i].end
        ensures ReachedBy(rs[i], end) <==> UpTo(rs[i].start, end)
      {
        assert ValidRange(rs[i]);
      }
      forall i | 0 <= i < |rs| ensures rs[i].end < start ==> UpTo(rs[i].start, end) {
        assert ValidRange(rs[i]);
      }
      forall i | 0 <= i < |rs| ensures i < scope.first <==> rs[i].end < start {
        if scope.first < i { assert rs[scope.first].end < rs[i].start; }
      }
      forall i | 0 <= i < |rs| ensures i > scope.last <==> !UpTo(rs[i].start, end) {
        if i < scope.last { assert rs[i].end < rs[scope.last].start; }
      }
      if scope.last + 1 < |rs| {
        assert !UpTo(rs[scope.last + 1].start, end);
      }
    }
  }

  // ----- The manager, which splices the stored array in place -----

  /** A JavaScript array of page ranges. */
  class RangeList {
    var items: seq<PageRange>

    constructor (items: seq<PageRange>)
      ensures this.items == items
    {
      this.items := items;
    }

    /** Array.prototype.splice at a place inside the array. */
    method Splice(start: nat, deleteCount: nat, inserted: seq<PageRange>)
      requires start + deleteCount <= |items|
      modifies this
      ensures items == old(items)[..start] + inserted + old(items)[start + deleteCount..]
    {
      items := items[..start] + inserted + items[start + deleteCount..];
    }
  }

  datatype Outcome = Done | Thrown

  method MergeRange(ranges: RangeList, range: PageRange) returns (outcome: Outcome)
    requires WellFormed(ranges.items)
    modifies ranges
    ensures outcome.Thrown? <==> old(ranges.items) != [] && (range.start > range.end || range.start < 0)
    ensures outcome.Thrown? ==> ranges.items == old(ranges.items)
    ensures outcome.Done? ==> ranges.items == Merged(old(ranges.items), range)
  {
    var rs := ranges.items;
    var start, end := range.start, range.end;
    var scope := SelectImpactedRanges(rs, start, At(end));
    if scope.RangeError? {
      return Thrown;
    }
    MergeWindow(rs, range, scope);
    hide Merged, SelectImpactedRanges, RestrictOne;
    outcome := Done;
    var count := if scope.first > scope.last then 0 else scope.last - scope.first + 1;
    if count == 0 {
      NothingImpacted(rs, scope, start, At(end), [range]);
      ranges.Splice(scope.first, 0, [range]);
    } else {
      var newRanges := SplitFirst(rs[scope.first], start);
      newRanges := newRanges + [range];
      var right := SplitLast(rs[scope.last], At(end));
      newRanges := newRanges + right;
      ranges.Splice(scope.first, count, newRanges);
    }
  }

  method ClearRange(ranges: RangeList, start: int, end: Bound) returns (outcome: Outcome)
    requires WellFormed(ranges.items)
    modifies ranges
    ensures outcome.Thrown? <==> old(ranges.items) != [] && (!UpTo(start, end) || start < 0)
    ensures outcome.Thrown? ==> ranges.items == old(ranges.items)
    ensures outcome.Done? ==> ranges.items == Cleared(old(ranges.items), start, end)
  {
    var rs := ranges.items;
    var scope := SelectImpactedRanges(rs, start, end);
    if scope.RangeError? {
      return Thrown;
    }
    ClearWindow(rs, start, end, scope);
    hide Cleared, SelectImpactedRanges, RestrictOne;
    outcome := Done;
    var count := if scope.first > scope.last then 0 else scope.last - scope.first + 1;
    if count > 0 {
      var newRanges := SplitFirst(rs[scope.first], start);
      var right := SplitLast(rs[scope.last], end);
      newRanges := newRanges + right;
      ranges.Splice(scope.first, count, newRanges);
    } else {
      NothingImpacted(rs, scope, start, end, []);
    }
  }

  /** The piece kept of the first impacted range, if it starts before the interval. */
  method SplitFirst(first: PageRange, start: int) returns (kept: seq<PageRange>)
    requires ValidRange(first) && start <= first.end
    ensures kept == RestrictOne(first, 0, At(start - 1))
  {
    kept := [];
    if first.end >= start && first.start < start {
      kept := [PageRange(first.start, start - 1,
                         Chunk(first.chunk.id, first.chunk.offset, start - first.start))];
    }
  }

  /** The piece kept of the last impacted range, if it ends after the interval. */
  method SplitLast(last: PageRange, end: Bound) returns (kept: seq<PageRange>)
    requires ValidRange(last) && UpTo(last.start, end)
    ensures kept == match end case At(e) => RestrictOne(last, e + 1, Infinity) case Infinity => []
  {
    kept := [];
    if end.At? && end.position >= last.start && end.position < last.end {
      var e := end.position;
      kept := [PageRange(e + 1, last.end,
                         Chunk(last.chunk.id, last.chunk.offset + (e + 1 - last.start), last.end - e))];
    }
  }

  function Spliced(rs: seq<PageRange>, scope: Scope, inserted: seq<PageRange>): seq<PageRange>
    requires scope.Impacted? && scope.first <= scope.last + 1 <= |rs|
  {
    rs[..scope.first] + inserted + rs[scope.last + 1..]
  }

  /** What is left of the first impacted range. */
  function LeftPart(rs: seq<PageRange>, scope: Scope, start: int): seq<PageRange>
    requires scope.Impacted? && scope.last < |rs|
  {
    if scope.first <= scope.last then RestrictOne(rs[scope.first], 0, At(start - 1)) else []
  }

  /** What is left of the last impacted range. */
  function RightPart(rs: seq<PageRange>, scope: Scope, end: Bound): seq<PageRange>
    requires scope.Impacted? && scope.last < |rs|
  {
    if scope.first <= scope.last && end.At? then RestrictOne(rs[scope.last], end.position + 1, Infinity)
    else []
  }

  lemma {:induction false} KeptBefore(rs: seq<PageRange>, start: int, end: Bound)
    requires WellFormed(rs) && rs != [] && 0 <= start && UpTo(start, end)
    ensures var scope := SelectImpactedRanges(rs, start, end);
      && scope.Impacted? && scope.first <= |rs| && scope.last < |rs|
      && Before(rs, start) == rs[..scope.first] + LeftPart(rs, scope, start)
  {
    ScopeIsTheOverlap(rs, start, end);
    var scope := SelectImpactedRanges(rs, start, end);
    if scope.first == |rs| {
      RestrictInside(rs, 0, At(start - 1));
    } else {
      forall i | scope.first < i < |rs| ensures start - 1 < rs[i].start {
        assert rs[scope.first].end < rs[i].start;
      }
      RestrictAt(rs, scope.first, 0, At(start - 1));
    }
  }

  lemma {:induction false} KeptAfter(rs: seq<PageRange>, l: nat, e: int)
    requires WellFormed(rs) && l < |rs| && rs[l].start <= e
    requires forall i :: l < i < |rs| ==> e < rs[i].start
    ensures After(rs, At(e)) == RestrictOne(rs[l], e + 1, Infinity) + rs[l + 1..]
  {
    var lo := e + 1;
    forall i | 0 <= i < l ensures rs[i].end < lo {
      assert rs[i].end < rs[l].start;
    }
    RestrictOutside(rs[..l], lo, Infinity);
    RestrictInside(rs[l + 1..], lo, Infinity);
    hide Restrict, RestrictOne;
    RestrictAround(rs, l, lo, Infinity);
    assert [] + RestrictOne(rs[l], lo, Infinity) == RestrictOne(rs[l], lo, Infinity);
  }

  ghost predicate InWindow(rs: seq<PageRange>, start: int, end: Bound, scope: Scope) {
    && scope.Impacted? && scope.first <= scope.last + 1 <= |rs|
    && (scope.first <= scope.last ==> Overlaps(rs[scope.first], start, end) && Overlaps(rs[scope.last], start, end))
  }

  /** The searched window against the reference: both sides of the interval. */
  lemma {:induction false} Window(rs: seq<PageRange>, start: int, end: Bound, scope: Scope)
    requires WellFormed(rs) && (rs != [] ==> 0 <= start && UpTo(start, end))
    requires scope == SelectImpactedRanges(rs, start, end)
    ensures InWindow(rs, start, end, scope)
    ensures Before(rs, start) == rs[..scope.first] + LeftPart(rs, scope, start)
    ensures After(rs, end) == RightPart(rs, scope, end) + rs[scope.last + 1..]
  {
    if rs != [] {
      ScopeIsTheOverlap(rs, start, end);
      KeptBefore(rs, start, end);
      WindowAfter(rs, start, end, scope);
    }
  }

  lemma {:induction false} WindowAfter(rs: seq<PageRange>, start: int, end: Bound, scope: Scope)
    requires WellFormed(rs) && rs != [] && 0 <= start && UpTo(start, end)
    requires scope == SelectImpactedRanges(rs, start, end) && InWindow(rs, start, end, scope)
    ensures After(rs, end) == RightPart(rs, scope, end) + rs[scope.last + 1..]
  {
    ScopeIsTheOverlap(rs, start, end);
    hide Restrict, RestrictOne, SelectImpactedRanges;
    if end.Infinity? {
      assert UpTo(rs[|rs| - 1].start, end);
    } else if scope.first <= scope.last {
      KeptAfter(rs, scope.last, end.position);
    } else {
      DroppedBefore(rs, scope.first, end.position);
    }
  }

  lemma {:induction false} DroppedBefore(rs: seq<PageRange>, f: nat, e: int)
    requires WellFormed(rs) && f <= |rs|
    requires forall i :: 0 <= i < f ==> rs[i].end < e + 1
    requires forall i :: f <= i < |rs| ==> e < rs[i].start
    ensures After(rs, At(e)) == rs[f..]
  {
    RestrictOutside(rs[..f], e + 1, Infinity);
    RestrictInside(rs[f..], e + 1, Infinity);
    hide Restrict, WellFormed, ValidRange;
    RestrictSplit(rs, f, e + 1, Infinity);
  }

  lemma SpliceSides(rs: seq<PageRange>, scope: Scope,
                    left: seq<PageRange>, middle: seq<PageRange>, right: seq<PageRange>)
    requires scope.Impacted? && scope.first <= scope.last + 1 <= |rs|
    ensures (rs[..scope.first] + left) + middle + (right + rs[scope.last + 1..])
         == Spliced(rs, scope, left + middle + right)
  {
  }

  lemma ClearSides(rs: seq<PageRange>, scope: Scope, left: seq<PageRange>, right: seq<PageRange>)
    requires scope.Impacted? && scope.first <= scope.last + 1 <= |rs|
    ensures (rs[..scope.first] + left) + (right + rs[scope.last + 1..]) == Spliced(rs, scope, left + right)
  {
  }

  lemma {:induction false} MergeWindow(rs: seq<PageRange>, range: PageRange, scope: Scope)
    requires WellFormed(rs) && (rs != [] ==> 0 <= range.start <= range.end)
    requires scope == SelectImpactedRanges(rs, range.start, At(range.end))
    ensures InWindow(rs, range.start, At(range.end), scope)
    ensures Merged(rs, range)
         == Spliced(rs, scope, LeftPart(rs, scope, range.start) + [range] + RightPart(rs, scope, At(range.end)))
  {
    Window(rs, range.start, At(range.end), scope);
    SpliceSides(rs, scope, LeftPart(rs, scope, range.start), [range], RightPart(rs, scope, At(range.end)));
  }

  lemma {:induction false} ClearWindow(rs: seq<PageRange>, start: int, end: Bound, scope: Scope)
    requires WellFormed(rs) && (rs != [] ==> 0 <= start && UpTo(start, end))
    requires scope == SelectImpactedRanges(rs, start, end)
    ensures InWindow(rs, start, end, scope)
    ensures Cleared(rs, start, end) == Spliced(rs, scope, LeftPart(rs, scope, start) + RightPart(rs, scope, end))
  {
    Window(rs, start, end, scope);
    ClearSides(rs, scope, LeftPart(rs, scope, start), RightPart(rs, scope, end));
  }

  lemma NothingImpacted(rs: seq<PageRange>, scope: Scope, start: int, end: Bound, middle: seq<PageRange>)
    requires InWindow(rs, start, end, scope) && scope.first > scope.last
    ensures Spliced(rs, scope, LeftPart(rs, scope, start) + middle + RightPart(rs, scope, end)) == Spliced(rs, scope, middle)
    ensures Spliced(rs, scope, LeftPart(rs, scope, start) + RightPart(rs, scope, end)) == rs
  {
    assert [] + middle + [] == middle;
  }
}
