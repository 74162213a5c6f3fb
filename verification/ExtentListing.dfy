/** The collection of extent documents and its paged enumeration. */
module ExtentListing {
  import opened Options
  import opened Extents

  /** One extent document. `loki` is the key the database hands out in insertion order; an insert
      leaves the modification time the query looks at undefined, an update sets it. */
  datatype Row = Row(loki: nat, id: ExtentId, size: nat, modified: Option<int>)

  ghost predicate Ordered(rows: seq<Row>) {
    forall i, j :: 0 <= i < j < |rows| ==> rows[i].loki < rows[j].loki
  }

  ghost predicate Below(rows: seq<Row>, bound: nat) {
    forall i :: 0 <= i < |rows| ==> rows[i].loki < bound
  }

  function Find(rows: seq<Row>, id: ExtentId): (at: Option<nat>)
    ensures at.Some? ==> at.value < |rows| && rows[at.value].id == id
    ensures at.Some? ==> forall i :: 0 <= i < at.value ==> rows[i].id != id
    ensures at.None? ==> forall i :: 0 <= i < |rows| ==> rows[i].id != id
  {
    if rows == [] then None
    else if rows[0].id == id then Some(0)
    else
      match Find(rows[1..], id)
      case None => None
      case Some(i) => Some(i + 1)
  }

  /** The size on record: the one of the first document found by the id. */
  function SizeOf(rows: seq<Row>, id: ExtentId): Option<nat> {
    if rows == [] then None
    else if rows[0].id == id then Some(rows[0].size)
    else SizeOf(rows[1..], id)
  }

  lemma {:induction false} SizesInserted(rows: seq<Row>, row: Row, other: ExtentId)
    requires Find(rows, row.id).None?
    ensures SizeOf(rows + [row], other) == if other == row.id then Some(row.size) else SizeOf(rows, other)
    decreases |rows|
  {
    if rows != [] {
      SizesInserted(rows[1..], row, other);
      assert (rows + [row])[1..] == rows[1..] + [row];
    }
  }

  lemma {:induction false} SizesUpdated(rows: seq<Row>, i: nat, row: Row, other: ExtentId)
    requires Find(rows, row.id) == Some(i)
    ensures SizeOf(rows[i := row], other) == if other == row.id then Some(row.size) else SizeOf(rows, other)
    decreases |rows|
  {
    if i > 0 {
      SizesUpdated(rows[1..], i - 1, row, other);
      assert rows[i := row][1..] == rows[1..][i - 1 := row];
    } else {
      assert rows[i := row][1..] == rows[1..];
    }
  }

  lemma {:induction false} SizeOfPresent(rows: seq<Row>, row: Row)
    requires row in rows
    ensures SizeOf(rows, row.id).Some?
    decreases |rows|
  {
    if rows[0].id != row.id {
      SizeOfPresent(rows[1..], row);
    }
  }

  /** A new document behind the others, or size and time of the first one with the id. */
  function Upsert(rows: seq<Row>, key: nat, id: ExtentId, size: nat, modified: int): seq<Row> {
    match Find(rows, id)
    case None => rows + [Row(key, id, size, None)]
    case Some(i) => rows[i := rows[i].(size := size, modified := Some(modified))]
  }

  ghost predicate FirstOf(rows: seq<Row>, id: ExtentId, k: nat) {
    k < |rows| && rows[k].id == id && forall j :: 0 <= j < k ==> rows[j].id != id
  }

  /** Where the id is new, one document more at the end, with a new key and no time. Otherwise the
      first document of the id has a new size and time and keeps its key, and the others are as
      they were. */
  ghost predicate RecordsExtent(before: seq<Row>, after: seq<Row>, key: nat, id: ExtentId, size: nat, modified: int) {
    && (forall k: nat :: FirstOf(before, id, k) ==>
          |after| == |before| && after[k] == Row(before[k].loki, id, size, Some(modified)))
    && (forall k :: 0 <= k < |before| && !FirstOf(before, id, k) ==> k < |after| && after[k] == before[k])
    && ((forall row :: row in before ==> row.id != id) ==>
          |after| == |before| + 1 && after[|before|] == Row(key, id, size, None))
  }

  lemma UpsertRecords(rows: seq<Row>, key: nat, id: ExtentId, size: nat, modified: int)
    ensures RecordsExtent(rows, Upsert(rows, key, id, size, modified), key, id, size, modified)
  {
    var found := Find(rows, id);
    if found.Some? {
      assert rows[found.value] in rows && FirstOf(rows, id, found.value);
    }
  }

  lemma UpsertSizes(rows: seq<Row>, key: nat, id: ExtentId, size: nat, modified: int, other: ExtentId)
    ensures SizeOf(Upsert(rows, key, id, size, modified), other) == if other == id then Some(size) else SizeOf(rows, other)
  {
    match Find(rows, id)
    case None => SizesInserted(rows, Row(key, id, size, None), other);
    case Some(i) => SizesUpdated(rows, i, rows[i].(size := size, modified := Some(modified)), other);
  }

  function Removed(rows: seq<Row>, id: ExtentId): (kept: seq<Row>)
    ensures forall row :: row in kept <==> row in rows && row.id != id
  {
    if rows == [] then []
    else (if rows[0].id == id then [] else [rows[0]]) + Removed(rows[1..], id)
  }

  lemma {:induction false} RemovedOrdered(rows: seq<Row>, id: ExtentId)
    requires Ordered(rows)
    ensures Ordered(Removed(rows, id))
    decreases |rows|
  {
    if rows != [] {
      RemovedOrdered(rows[1..], id);
      forall row | row in rows[1..] ensures rows[0].loki < row.loki {
        var i :| 0 <= i < |rows| - 1 && rows[1..][i] == row;
        assert rows[i + 1] == row;
      }
      forall j | 0 <= j < |Removed(rows[1..], id)| ensures rows[0].loki < Removed(rows[1..], id)[j].loki {
        assert Removed(rows[1..], id)[j] in Removed(rows[1..], id);
      }
    }
  }

  lemma {:induction false} RemovedSizes(rows: seq<Row>, id: ExtentId, other: ExtentId)
    ensures SizeOf(Removed(rows, id), other) == if other == id then None else SizeOf(rows, other)
    decreases |rows|
  {
    if rows != [] {
      RemovedSizes(rows[1..], id, other);
      var rest := Removed(rows[1..], id);
      assert ([rows[0]] + rest)[1..] == rest && [] + rest == rest;
    }
  }

  // ----- Listing -----

  predicate Eligible(row: Row, before: int) {
    row.modified.None? || row.modified.value < before
  }

  predicate Beyond(row: Row, marker: Option<nat>) {
    marker.None? || row.loki > marker.value
  }

  /** The rows a query finds, in key order. */
  function Query(rows: seq<Row>, marker: Option<nat>, before: int): seq<Row> {
    if rows == [] then []
    else (if Beyond(rows[0], marker) && Eligible(rows[0], before) then [rows[0]] else []) + Query(rows[1..], marker, before)
  }

  lemma {:induction false} QueryHas(rows: seq<Row>, marker: Option<nat>, before: int, row: Row)
    ensures row in Query(rows, marker, before) <==> row in rows && Beyond(row, marker) && Eligible(row, before)
    decreases |rows|
  {
    if rows != [] {
      QueryHas(rows[1..], marker, before, row);
    }
  }

  datatype Listed = Listed(page: seq<Row>, next: Option<nat>)

  function ListExtents(rows: seq<Row>, max: nat, marker: Option<nat>, before: int): (r: Listed)
    requires max >= 1
  {
    var found := Query(rows, marker, before);
    if |found| < max then Listed(found, None) else Listed(found[..max], Some(found[max - 1].loki))
  }

  class LokiExtentMetadataStore {
    var docs: seq<Row>
    var nextLoki: nat

    ghost predicate Valid()
      reads this
    {
      Ordered(docs) && Below(docs, nextLoki) && nextLoki >= 1
    }

    constructor ()
      ensures Valid() && docs == []
    {
      docs, nextLoki := [], 1;
    }

    /** Inserts a document without the modification time queries look at, or updates the first
        document with the id, size and time. */
    method UpdateExtent(id: ExtentId, size: nat, lastModifiedInMS: int)
      requires Valid()
      modifies this
      ensures Valid()
      ensures docs == Upsert(old(docs), old(nextLoki), id, size, lastModifiedInMS)
      ensures nextLoki == old(nextLoki) + if Find(old(docs), id).None? then 1 else 0
      ensures RecordsExtent(old(docs), docs, old(nextLoki), id, size, lastModifiedInMS)
      ensures forall x :: SizeOf(docs, x) == if x == id then Some(size) else SizeOf(old(docs), x)
    {
      UpsertRecords(docs, nextLoki, id, size, lastModifiedInMS);
      hide RecordsExtent;
      forall x ensures SizeOf(Upsert(docs, nextLoki, id, size, lastModifiedInMS), x)
                       == if x == id then Some(size) else SizeOf(docs, x) {
        UpsertSizes(docs, nextLoki, id, size, lastModifiedInMS, x);
      }
      var found := Find(docs, id);
      match found {
        case None =>
          docs := docs + [Row(nextLoki, id, size, None)];
          nextLoki := nextLoki + 1;
        case Some(i) =>
          docs := docs[i := docs[i].(size := size, modified := Some(lastModifiedInMS))];
      }
    }

    method DeleteExtent(id: ExtentId)
      requires Valid()
      modifies this`docs
      ensures Valid() && docs == Removed(old(docs), id)
      ensures forall x :: SizeOf(docs, x) == if x == id then None else SizeOf(old(docs), x)
      ensures forall x :: x in docs <==> x in old(docs) && x.id != id
    {
      RemovedOrdered(docs, id);
      forall x {
        RemovedSizes(docs, id, x);
      }
      docs := Removed(docs, id);
    }
  }

  // ----- The iterator over changing collections -----

  const UNIT := 1000

  class AllExtentsAsyncIterator {
    var done: bool
    var marker: Option<nat>
    const before: int

    constructor (before: int)
      ensures !done && marker.None? && this.before == before
    {
      done, marker, this.before := false, None, before;
    }

    /** One page of the collection as it is at the time of the call. */
    method Next(rows: seq<Row>) returns (finished: bool, value: seq<ExtentId>)
      modifies this
      ensures finished == old(done)
      ensures finished ==> value == [] && done && marker == old(marker)
      ensures !finished ==>
        && value == Ids(ListExtents(rows, UNIT, old(marker), before).page)
        && marker == ListExtents(rows, UNIT, old(marker), before).next
        && done == marker.None?
    {
      if done {
        return true, [];
      }
      var listed := ListExtents(rows, UNIT, marker, before);
      marker := listed.next;
      if listed.next.None? {
        done := true;
      }
      return false, Ids(listed.page);
    }
  }

  function Ids(rows: seq<Row>): (ids: seq<ExtentId>)
    ensures |ids| == |rows| && forall i :: 0 <= i < |ids| ==> ids[i] == rows[i].id
  {
    if rows == [] then [] else [rows[0].id] + Ids(rows[1..])
  }

  /** What the calls of an iterator return when the collection changes between them: one
      collection per call, until a page comes without a marker. */
  function Enumerated(collections: seq<seq<Row>>, unit: nat, marker: Option<nat>, before: int): seq<Row>
    requires unit >= 1
    decreases |collections|
  {
    if collections == [] then []
    else
      var listed := ListExtents(collections[0], unit, marker, before);
      listed.page + if listed.next.None? then [] else Enumerated(collections[1..], unit, listed.next, before)
  }

  predicate Finishes(collections: seq<seq<Row>>, unit: nat, marker: Option<nat>, before: int)
    requires unit >= 1
    decreases |collections|
  {
    collections != [] &&
    var listed := ListExtents(collections[0], unit, marker, before);
    listed.next.None? || Finishes(collections[1..], unit, listed.next, before)
  }

  ghost predicate AllOrdered(collections: seq<seq<Row>>) {
    forall i :: 0 <= i < |collections| ==> Ordered(collections[i])
  }

  /** The document with this key is there, and old enough, at every call. */
  ghost predicate Stays(collections: seq<seq<Row>>, loki: nat, id: ExtentId, before: int) {
    forall i :: 0 <= i < |collections| ==>
      exists row :: row in collections[i] && row.loki == loki && row.id == id && Eligible(row, before)
  }

  lemma {:induction false} QueryOrdered(rows: seq<Row>, marker: Option<nat>, before: int)
    requires Ordered(rows)
    ensures Ordered(Query(rows, marker, before))
    decreases |rows|
  {
    if rows != [] {
      var rest := Query(rows[1..], marker, before);
      QueryOrdered(rows[1..], marker, before);
      forall j | 0 <= j < |rest| ensures rows[0].loki < rest[j].loki {
        QueryHas(rows[1..], marker, before, rest[j]);
        var i :| 0 <= i < |rows| - 1 && rows[1..][i] == rest[j];
        assert rows[i + 1] == rest[j];
      }
    }
  }

  ghost predicate AllBeyond(rows: seq<Row>, marker: Option<nat>) {
    forall i :: 0 <= i < |rows| ==> Beyond(rows[i], marker)
  }

  /** A page: sorted, past the marker, up to the next marker, and complete in between. */
  lemma PageIs(rows: seq<Row>, max: nat, marker: Option<nat>, before: int)
    requires max >= 1 && Ordered(rows)
    ensures var listed := ListExtents(rows, max, marker, before);
      && Ordered(listed.page) && AllBeyond(listed.page, marker)
      && (forall row :: row in listed.page ==> row in rows && Eligible(row, before))
      && |listed.page| <= max && (listed.next.None? <==> |listed.page| < max)
      && (listed.next.Some? ==>
            && |listed.page| == max && listed.page[max - 1].loki == listed.next.value
            && (marker.Some? ==> marker.value < listed.next.value))
      && forall row | row in rows && Beyond(row, marker) && Eligible(row, before) ::
           (listed.next.Some? ==> row.loki <= listed.next.value) ==> row in listed.page
  {
    QueryOrdered(rows, marker, before);
    var found := Query(rows, marker, before);
    forall row ensures row in found <==> row in rows && Beyond(row, marker) && Eligible(row, before) {
      QueryHas(rows, marker, before, row);
    }
    assert forall i :: 0 <= i < |found| ==> found[i] in found;
    if |found| >= max {
      forall row | row in found && row.loki <= found[max - 1].loki ensures row in found[..max] {
        var i :| 0 <= i < |found| && found[i] == row;
        assert found[..max][i] == row;
      }
    }
  }

  /** No key is visited twice, whatever is inserted or deleted between the calls. */
  lemma {:induction false} EnumeratesAtMostOnce(collections: seq<seq<Row>>, unit: nat, marker: Option<nat>, before: int)
    requires unit >= 1 && AllOrdered(collections)
    ensures Ordered(Enumerated(collections, unit, marker, before))
    ensures AllBeyond(Enumerated(collections, unit, marker, before), marker)
    decreases |collections|
  {
    if collections != [] {
      PageIs(collections[0], unit, marker, before);
      var listed := ListExtents(collections[0], unit, marker, before);
      if listed.next.Some? {
        var rest := Enumerated(collections[1..], unit, listed.next, before);
        EnumeratesAtMostOnce(collections[1..], unit, listed.next, before);
        hide ListExtents, Query;
        PagesInOrder(listed.page, rest, listed.next.value, marker);
      } else {
        assert listed.page + [] == listed.page;
      }
    }
  }

  lemma PagesInOrder(page: seq<Row>, rest: seq<Row>, key: nat, marker: Option<nat>)
    requires Ordered(page) && Ordered(rest) && AllBeyond(page, marker) && AllBeyond(rest, Some(key))
    requires page != [] && page[|page| - 1].loki == key
    ensures Ordered(page + rest) && AllBeyond(page + rest, marker)
  {
    forall i | 0 <= i < |page| ensures page[i].loki <= key {
    }
    forall j | 0 <= j < |rest| ensures rest[j].loki > key && Beyond(rest[j], marker) {
      assert Beyond(rest[j], Some(key)) && Beyond(page[0], marker);
    }
  }

  /** Only documents that some call found present and eligible are visited. */
  lemma {:induction false} EnumeratesOnlyWhatIsThere(collections: seq<seq<Row>>, unit: nat, marker: Option<nat>, before: int, row: Row)
    requires unit >= 1 && AllOrdered(collections) && row in Enumerated(collections, unit, marker, before)
    ensures Eligible(row, before) && exists i :: 0 <= i < |collections| && row in collections[i]
    decreases |collections|
  {
    PageIs(collections[0], unit, marker, before);
    var listed := ListExtents(collections[0], unit, marker, before);
    if row !in listed.page {
      EnumeratesOnlyWhatIsThere(collections[1..], unit, listed.next, before, row);
      var i :| 0 <= i < |collections[1..]| && row in collections[1..][i];
      assert row in collections[i + 1];
    }
  }

  /** A document that stays present and eligible is visited. */
  lemma {:induction false} EnumeratesWhatStays(collections: seq<seq<Row>>, unit: nat, marker: Option<nat>, before: int,
      loki: nat, id: ExtentId)
    requires unit >= 1 && AllOrdered(collections) && Finishes(collections, unit, marker, before)
    requires Stays(collections, loki, id, before) && (marker.Some? ==> marker.value < loki)
    ensures exists row :: row in Enumerated(collections, unit, marker, before) && row.loki == loki && row.id == id
    decreases |collections|
  {
    PageIs(collections[0], unit, marker, before);
    var listed := ListExtents(collections[0], unit, marker, before);
    var row :| row in collections[0] && row.loki == loki && row.id == id && Eligible(row, before);
    if listed.next.None? || loki <= listed.next.value {
      assert row in listed.page;
      assert row in Enumerated(collections, unit, marker, before);
    } else {
      EnumeratesWhatStays(collections[1..], unit, listed.next, before, loki, id);
      var later :| later in Enumerated(collections[1..], unit, listed.next, before) && later.loki == loki && later.id == id;
      assert later in Enumerated(collections, unit, marker, before);
    }
  }

  /** Every extent that stays is visited by exactly one call, exactly once. */
  lemma EnumeratesExactlyOnce(collections: seq<seq<Row>>, before: int, loki: nat, id: ExtentId) returns (at: nat)
    requires AllOrdered(collections) && Finishes(collections, UNIT, None, before) && Stays(collections, loki, id, before)
    ensures var visits := Enumerated(collections, UNIT, None, before);
      && at < |visits| && visits[at].loki == loki && visits[at].id == id
      && forall i :: 0 <= i < |visits| && i != at ==> visits[i].loki != loki
  {
    var visits := Enumerated(collections, UNIT, None, before);
    EnumeratesAtMostOnce(collections, UNIT, None, before);
    EnumeratesWhatStays(collections, UNIT, None, before, loki, id);
    var row :| row in visits && row.loki == loki && row.id == id;
    at :| 0 <= at < |visits| && visits[at] == row;
  }

  lemma {:induction false} OrderedSpreads(rows: seq<Row>, i: nat)
    requires Ordered(rows) && i < |rows|
    ensures rows[0].loki + i <= rows[i].loki
  {
    if i > 0 {
      OrderedSpreads(rows, i - 1);
    }
  }

  lemma OneMore(n: nat, unit: nat)
    ensures (n + 1) * unit == n * unit + unit
  {
  }

  function Reached(marker: Option<nat>): nat {
    match marker
    case None => 0
    case Some(loki) => loki + 1
  }

  /** Once no key from `bound` on is handed out any more, the enumeration ends: each call that
      does not end it moves on by a whole page of keys. */
  lemma {:induction false} EnumerationEnds(collections: seq<seq<Row>>, unit: nat, marker: Option<nat>, before: int, bound: nat)
    requires unit >= 1 && AllOrdered(collections)
    requires forall i :: 0 <= i < |collections| ==> Below(collections[i], bound)
    requires |collections| * unit + Reached(marker) > bound
    ensures collections != [] ==> Finishes(collections, unit, marker, before)
    decreases |collections|
  {
    if collections != [] {
      var listed := ListExtents(collections[0], unit, marker, before);
      PageIs(collections[0], unit, marker, before);
      if listed.next.Some? {
        OrderedSpreads(listed.page, unit - 1);
        assert Beyond(listed.page[0], marker);
        QueryHas(collections[0], marker, before, listed.page[unit - 1]);
        OneMore(|collections[1..]|, unit);
        EnumerationEnds(collections[1..], unit, listed.next, before, bound);
      }
    }
  }

  // ----- The same enumeration while nothing changes -----

  /** A later marker selects from what an earlier one found. */
  lemma {:induction false} QueryNarrows(rows: seq<Row>, marker: Option<nat>, key: nat, before: int)
    requires marker.Some? ==> marker.value <= key
    ensures Query(rows, Some(key), before) == Query(Query(rows, marker, before), Some(key), before)
    decreases |rows|
  {
    if rows != [] {
      QueryNarrows(rows[1..], marker, key, before);
      var rest := Query(rows[1..], marker, before);
      assert ([rows[0]] + rest)[1..] == rest && [] + rest == rest;
    }
  }

  ghost predicate AllEligible(rows: seq<Row>, before: int) {
    forall i :: 0 <= i < |rows| ==> Eligible(rows[i], before)
  }

  lemma {:induction false} QueryTail(found: seq<Row>, k: nat, key: nat, before: int)
    requires Ordered(found) && AllEligible(found, before) && k <= |found|
    requires forall i :: 0 <= i < |found| ==> (found[i].loki > key <==> i >= k)
    ensures Query(found, Some(key), before) == found[k..]
    decreases |found|
  {
    if found != [] {
      QueryTail(found[1..], if k == 0 then 0 else k - 1, key, before);
    }
  }

  lemma QueryResumes(rows: seq<Row>, marker: Option<nat>, before: int, k: nat)
    requires Ordered(rows) && 1 <= k <= |Query(rows, marker, before)|
    ensures Query(rows, Some(Query(rows, marker, before)[k - 1].loki), before) == Query(rows, marker, before)[k..]
  {
    var found := Query(rows, marker, before);
    QueryOrdered(rows, marker, before);
    forall i | 0 <= i < |found| ensures Eligible(found[i], before) && Beyond(found[i], marker) {
      QueryHas(rows, marker, before, found[i]);
    }
    hide Query, Eligible, Beyond, Ordered;
    QueryNarrows(rows, marker, found[k - 1].loki, before);
    QueryTail(found, k, found[k - 1].loki, before);
  }

  /** The values the iterator returns from a marker on. */
  ghost function ExtentPages(rows: seq<Row>, unit: nat, marker: Option<nat>, before: int): (pages: seq<seq<ExtentId>>)
    requires unit >= 1 && Ordered(rows)
    ensures pages != []
    decreases |Query(rows, marker, before)|
  {
    var listed := ListExtents(rows, unit, marker, before);
    if listed.next.None? then [Ids(listed.page)]
    else
      QueryResumes(rows, marker, before, unit);
      [Ids(listed.page)] + ExtentPages(rows, unit, listed.next, before)
  }

  ghost function Concat(pages: seq<seq<ExtentId>>): seq<ExtentId> {
    if pages == [] then [] else pages[0] + Concat(pages[1..])
  }

  lemma IdsAppend(a: seq<Row>, b: seq<Row>)
    ensures Ids(a + b) == Ids(a) + Ids(b)
  {
  }

  ghost predicate DistinctIds(rows: seq<Row>) {
    forall i, j :: 0 <= i < j < |rows| ==> rows[i].id != rows[j].id
  }

  /** The document just written is eligible at once if it was inserted, since an insert leaves the
      queried time undefined; an updated one only when its time is old enough. */
  lemma WrittenIsEligibleExactly(rows: seq<Row>, key: nat, id: ExtentId, size: nat, modified: int, before: int)
    requires DistinctIds(rows)
    ensures (exists row :: row in Upsert(rows, key, id, size, modified) && row.id == id && Eligible(row, before))
      <==> Find(rows, id).None? || modified < before
  {
    var written := Upsert(rows, key, id, size, modified);
    match Find(rows, id)
    case None =>
      assert written[|rows|] in written;
    case Some(i) =>
      assert written[i] in written;
      assert forall j :: 0 <= j < |rows| && rows[j].id == id ==> j == i;
      assert forall j :: 0 <= j < |rows| ==> written[j].id == rows[j].id;
  }

  /** A call returns the first of the pages and leaves the others. */
  lemma FirstExtentPage(rows: seq<Row>, unit: nat, marker: Option<nat>, before: int)
    requires unit >= 1 && Ordered(rows)
    ensures var listed := ListExtents(rows, unit, marker, before);
      var pages := ExtentPages(rows, unit, marker, before);
      pages[0] == Ids(listed.page)
      && pages[1..] == if listed.next.None? then [] else ExtentPages(rows, unit, listed.next, before)
  {
    if ListExtents(rows, unit, marker, before).next.Some? {
      QueryResumes(rows, marker, before, unit);
    }
  }

  lemma {:induction false} ExtentPagesList(rows: seq<Row>, unit: nat, marker: Option<nat>, before: int)
    requires unit >= 1 && Ordered(rows)
    ensures Concat(ExtentPages(rows, unit, marker, before)) == Ids(Query(rows, marker, before))
    decreases |Query(rows, marker, before)|
  {
    var listed := ListExtents(rows, unit, marker, before);
    var pages := ExtentPages(rows, unit, marker, before);
    FirstExtentPage(rows, unit, marker, before);
    if listed.next.Some? {
      QueryResumes(rows, marker, before, unit);
      hide ExtentPages, Query, Ids;
      ExtentPagesList(rows, unit, listed.next, before);
      IdsSplit(Query(rows, marker, before), unit);
    }
  }

  lemma IdsSplit(rows: seq<Row>, k: nat)
    requires k <= |rows|
    ensures Ids(rows) == Ids(rows[..k]) + Ids(rows[k..])
  {
    IdsAppend(rows[..k], rows[k..]);
    assert rows == rows[..k] + rows[k..];
  }
}
