/** The mark-and-sweep collector. The metadata does not change while it runs; `close` may arrive
    during any of its awaits. */
module BlobGC {
  import opened Options
  import opened Extents
  import opened ExtentDeletion
  import FSExtentStores
  import EL = ExtentListing
  import opened Listing
  import opened BlobReferences
  import RL = ReferenceLaws

  datatype Status = Initializing | Running | Closing | Closed

  /** Whether `n` awaits complete before close is called, when it is called after `closes` of them. */
  predicate RunningAfter(closes: Option<nat>, n: nat) {
    closes.None? || n <= closes.value
  }

  function Left(closes: Option<nat>, n: nat): Option<nat> {
    match closes
    case None => None
    case Some(c) => Some(if n <= c then c - n else 0)
  }

  function Add(ids: seq<ExtentId>, id: ExtentId): seq<ExtentId> {
    if id in ids then ids else ids + [id]
  }

  function Drop(ids: seq<ExtentId>, id: ExtentId): (kept: seq<ExtentId>)
    ensures forall x :: x in kept <==> x in ids && x != id
  {
    if ids == [] then []
    else (if ids[0] == id then [] else [ids[0]]) + Drop(ids[1..], id)
  }

  lemma {:induction false} DropDistinct(ids: seq<ExtentId>, id: ExtentId)
    requires Distinct(ids)
    ensures Distinct(Drop(ids, id))
    decreases |ids|
  {
    if ids != [] {
      DropDistinct(ids[1..], id);
      var rest := Drop(ids[1..], id);
      forall j | 0 <= j < |rest| ensures rest[j] != ids[0] {
        assert rest[j] in ids[1..];
        var i :| 0 <= i < |ids| - 1 && ids[1..][i] == rest[j];
        assert ids[i + 1] == rest[j];
      }
    }
  }

  /** Adds a page to the set of ids. */
  method AddAll(ids: seq<ExtentId>, chunks: seq<ExtentId>) returns (more: seq<ExtentId>)
    requires Distinct(ids)
    ensures Distinct(more) && forall x :: x in more <==> x in ids || x in chunks
  {
    more := ids;
    var j := 0;
    while j < |chunks|
      invariant 0 <= j <= |chunks| && Distinct(more)
      invariant forall x :: x in more <==> x in ids || x in chunks[..j]
    {
      more := Add(more, chunks[j]);
      j := j + 1;
    }
  }

  /** Deletes a page from the set of ids. */
  method DropAll(ids: seq<ExtentId>, chunks: seq<ExtentId>) returns (fewer: seq<ExtentId>)
    requires Distinct(ids)
    ensures Distinct(fewer) && forall x :: x in fewer <==> x in ids && x !in chunks
  {
    fewer := ids;
    var j := 0;
    while j < |chunks|
      invariant 0 <= j <= |chunks| && Distinct(fewer)
      invariant forall x :: x in fewer <==> x in ids && x !in chunks[..j]
    {
      DropDistinct(fewer, chunks[j]);
      fewer := Drop(fewer, chunks[j]);
      j := j + 1;
    }
  }

  /** The metadata one collection reads. */
  datatype Metadata = Metadata(rows: seq<EL.Row>, before: int, blobs: seq<Doc>, blocks: seq<Block>)

  ghost predicate Sorted(m: Metadata) {
    EL.Ordered(m.rows) && Ascending(m.blobs) && OrderedBlocks(m.blocks)
  }

  ghost function ExtentPages(m: Metadata): seq<seq<ExtentId>>
    requires Sorted(m)
  {
    EL.ExtentPages(m.rows, EL.UNIT, None, m.before)
  }

  ghost function ReferencePages(m: Metadata): seq<seq<ExtentId>>
    requires Sorted(m)
  {
    RL.Remaining(m.blobs, m.blocks, InBlobs(None))
  }

  /** How many pages of references are read when close arrives after that many awaits. */
  ghost function PagesRead(m: Metadata, closes: Option<nat>): nat
    requires Sorted(m)
  {
    var listing, marking := |ExtentPages(m)| + 1, |ReferencePages(m)|;
    if RunningAfter(closes, listing + marking) then marking
    else if closes.value <= listing then 0
    else closes.value - listing
  }

  /** What a collection hands to the store: listed, and not on a page of references it has read. */
  ghost predicate Swept(m: Metadata, pages: nat, ids: seq<ExtentId>)
    requires Sorted(m) && pages <= |ReferencePages(m)|
  {
    && Distinct(ids)
    && forall x :: x in ids <==> x in EL.Concat(ExtentPages(m)) && x !in EL.Concat(ReferencePages(m)[..pages])
  }

  lemma {:induction false} ConcatSnoc(pages: seq<seq<ExtentId>>, i: nat)
    requires i < |pages|
    ensures EL.Concat(pages[..i + 1]) == EL.Concat(pages[..i]) + pages[i]
    decreases i
  {
    if i == 0 {
      assert pages[..1][1..] == [];
    } else {
      ConcatSnoc(pages[1..], i - 1);
      assert pages[..i + 1][1..] == pages[1..][..i] && pages[..i][1..] == pages[1..][..i - 1];
    }
  }

  /** The pages of references an iterator has still to return. */
  ghost predicate Yields(m: Metadata, iter: BlobReferredExtentsAsyncIterator, pages: seq<seq<ExtentId>>)
    reads iter
  {
    Sorted(m) && iter.Valid() && pages == RL.Remaining(m.blobs, m.blocks, iter.View())
  }

  method IterateReferences(m: Metadata) returns (iter: BlobReferredExtentsAsyncIterator)
    requires Sorted(m)
    ensures fresh(iter) && Yields(m, iter, ReferencePages(m))
  {
    iter := new BlobReferredExtentsAsyncIterator();
  }

  method NextReferences(m: Metadata, iter: BlobReferredExtentsAsyncIterator, ghost pages: seq<seq<ExtentId>>)
      returns (done: bool, value: seq<ExtentId>)
    requires Yields(m, iter, pages)
    modifies iter
    ensures done <==> pages == []
    ensures done ==> value == []
    ensures !done ==> value == pages[0] && Yields(m, iter, pages[1..])
  {
    RL.TakeIsNext(m.blobs, m.blocks, iter.View());
    done, value := iter.Next(m.blobs, m.blocks);
  }

  class BlobGCManager {
    var status: Status
    /** The awaits that will still complete before close is called. */
    var closes: Option<nat>

    constructor (closes: Option<nat>)
      ensures status == Running && this.closes == closes
    {
      status, this.closes := Running, closes;
    }

    ghost predicate At(start: Option<nat>, awaits: nat)
      reads this
    {
      closes == Left(start, awaits) && (status == if RunningAfter(start, awaits) then Running else Closing)
    }

    method Await(ghost start: Option<nat>, ghost awaits: nat)
      requires At(start, awaits)
      modifies this
      ensures At(start, awaits + 1)
    {
      if closes.Some? {
        if closes.value == 0 {
          status := Closing;
        } else {
          closes := Some(closes.value - 1);
        }
      }
    }

    method GetAllExtents(m: Metadata) returns (ids: seq<ExtentId>)
      requires Sorted(m) && status == Running
      modifies this
      ensures Distinct(ids)
      ensures status.Running? <==> RunningAfter(old(closes), |ExtentPages(m)| + 1)
      ensures status.Running? ==>
        && At(old(closes), |ExtentPages(m)| + 1)
        && forall x :: x in ids <==> x in EL.Concat(ExtentPages(m))
    {
      ghost var start, pages, i := closes, ExtentPages(m), 0;
      ids := [];
      var iter := new EL.AllExtentsAsyncIterator(m.before);
      EL.FirstExtentPage(m.rows, EL.UNIT, None, m.before);
      var done, value := iter.Next(m.rows);
      Await(start, 0);
      while (!done || |value| > 0) && status == Running
        invariant 0 <= i <= |pages| && At(start, i + 1) && iter.before == m.before && fresh(iter)
        invariant done ==> i == |pages| && value == []
        invariant !done ==> i < |pages| && value == pages[i]
        invariant !done ==> pages[i + 1..] == if iter.done then [] else EL.ExtentPages(m.rows, EL.UNIT, iter.marker, m.before)
        invariant Distinct(ids) && forall x :: x in ids <==> x in EL.Concat(pages[..i])
        decreases |pages| - i
      {
        ids := AddAll(ids, value);
        ConcatSnoc(pages, i);
        i := i + 1;
        if !iter.done {
          EL.FirstExtentPage(m.rows, EL.UNIT, iter.marker, m.before);
        }
        done, value := iter.Next(m.rows);
        Await(start, i);
      }
      assert pages[..|pages|] == pages;
    }

    method Mark(m: Metadata, all: seq<ExtentId>, ghost start: Option<nat>, ghost awaits: nat) returns (ids: seq<ExtentId>)
      requires Sorted(m) && Distinct(all) && status == Running && At(start, awaits)
      modifies this
      ensures Distinct(ids)
      ensures var read := if RunningAfter(start, awaits + |ReferencePages(m)|) then |ReferencePages(m)| else start.value - awaits;
        forall x :: x in ids <==> x in all && x !in EL.Concat(ReferencePages(m)[..read])
    {
      hide Yields, Sorted, ReferencePages;
      ghost var pages, i := ReferencePages(m), 0;
      ids := all;
      var iter := IterateReferences(m);
      var done, value := NextReferences(m, iter, pages);
      Await(start, awaits);
      while (!done || |value| > 0) && status == Running
        invariant 0 <= i <= |pages| && At(start, awaits + i + 1) && fresh(iter)
        invariant RunningAfter(start, awaits + i)
        invariant done ==> i == |pages| && value == []
        invariant !done ==> i < |pages| && value == pages[i] && Yields(m, iter, pages[i + 1..])
        invariant Distinct(ids) && forall x :: x in ids <==> x in all && x !in EL.Concat(pages[..i])
        decreases |pages| - i
      {
        ids := DropAll(ids, value);
        ConcatSnoc(pages, i);
        i := i + 1;
        done, value := NextReferences(m, iter, pages[i..]);
        Await(start, awaits + i);
      }
    }

    /** One collection. The sweep follows the marking whether or not it was cut short. */
    method MarkSweep(m: Metadata, store: FSExtentStores.FSExtentStore, unlink: ExtentId -> UnlinkResult)
        returns (ghost swept: seq<ExtentId>, outcome: Outcome)
      requires Sorted(m) && status == Running
      modifies this, store
      ensures !RunningAfter(old(closes), |ExtentPages(m)| + 1) ==> store.View() == old(store.View())
      ensures RunningAfter(old(closes), |ExtentPages(m)| + 1) ==>
        && Swept(m, PagesRead(m, old(closes)), swept)
        && Deletion(store.View(), outcome) == DeleteAll(old(store.View()), swept, unlink)
    {
      ghost var start := closes;
      var allExtents := GetAllExtents(m);
      if status != Running {
        return [], Counted(0);
      }
      ghost var listed := allExtents;
      allExtents := Mark(m, allExtents, start, |ExtentPages(m)| + 1);
      swept, outcome := allExtents, Counted(0);
      if |allExtents| > 0 {
        outcome := store.DeleteExtents(allExtents, unlink);
      }
    }
  }
}
