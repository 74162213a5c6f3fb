/** The paged enumeration of every extent that a blob, a snapshot or an uncommitted block uses. */
module BlobReferences {
  import opened Options
  import opened Extents
  import PageRanges
  import opened Listing
  import opened ListingLaws

  /** An uncommitted block; `loki` is the key the database hands out. */
  datatype Block = Block(loki: nat, persistency: Chunk)

  // ----- The two queries -----

  datatype BlobPage = BlobPage(docs: seq<Doc>, next: Option<string>)

  /** Reads one document more than the page to see whether there is a next page. */
  function ListAllBlobs(all: seq<Doc>, max: nat, marker: string): (r: BlobPage)
    requires max >= 1
  {
    var found := After(all, marker);
    if |found| <= max then BlobPage(found, None) else BlobPage(found[..max], Some(found[max - 1].name))
  }

  ghost predicate OrderedBlocks(blocks: seq<Block>) {
    forall i, j :: 0 <= i < j < |blocks| ==> blocks[i].loki < blocks[j].loki
  }

  function BlocksAfter(blocks: seq<Block>, marker: int): (found: seq<Block>)
    ensures |found| <= |blocks|
    ensures forall b :: b in found <==> b in blocks && b.loki > marker
  {
    if blocks == [] then []
    else (if blocks[0].loki > marker then [blocks[0]] else []) + BlocksAfter(blocks[1..], marker)
  }

  datatype BlockPage = BlockPage(blocks: seq<Block>, next: Option<int>)

  function ListUncommittedBlocks(blocks: seq<Block>, max: nat, marker: int): (r: BlockPage)
    requires max >= 1
  {
    var found := BlocksAfter(blocks, marker);
    if |found| <= max then BlockPage(found, None) else BlockPage(found[..max], Some(found[max - 1].loki))
  }

  // ----- What a document refers to -----

  function ChunkIds(chunks: seq<Chunk>): seq<ExtentId> {
    if chunks == [] then [] else ChunkIds(chunks[..|chunks| - 1]) + [chunks[|chunks| - 1].id]
  }

  function RangeIds(ranges: seq<PageRanges.PageRange>): seq<ExtentId> {
    if ranges == [] then [] else RangeIds(ranges[..|ranges| - 1]) + [ranges[|ranges| - 1].chunk.id]
  }

  function DocIds(doc: Doc): seq<ExtentId> {
    ChunkIds(doc.committedBlocksInOrder) + RangeIds(doc.pageRangesInOrder)
    + if doc.persistency.Some? then [doc.persistency.value.id] else []
  }

  function BlobIds(docs: seq<Doc>): seq<ExtentId> {
    if docs == [] then [] else BlobIds(docs[..|docs| - 1]) + DocIds(docs[|docs| - 1])
  }

  function BlockIds(blocks: seq<Block>): (ids: seq<ExtentId>)
    ensures |ids| == |blocks| && forall i :: 0 <= i < |ids| ==> ids[i] == blocks[i].persistency.id
  {
    if blocks == [] then [] else [blocks[0].persistency.id] + BlockIds(blocks[1..])
  }

  method CollectDoc(blob: Doc) returns (extents: seq<ExtentId>)
    ensures extents == DocIds(blob)
  {
    extents := [];
    var i := 0;
    while i < |blob.committedBlocksInOrder|
      invariant 0 <= i <= |blob.committedBlocksInOrder|
      invariant extents == ChunkIds(blob.committedBlocksInOrder[..i])
    {
      assert blob.committedBlocksInOrder[..i + 1][..i] == blob.committedBlocksInOrder[..i];
      extents := extents + [blob.committedBlocksInOrder[i].id];
      i := i + 1;
    }
    assert blob.committedBlocksInOrder[..i] == blob.committedBlocksInOrder;
    ghost var blocks := extents;
    i := 0;
    while i < |blob.pageRangesInOrder|
      invariant 0 <= i <= |blob.pageRangesInOrder|
      invariant extents == blocks + RangeIds(blob.pageRangesInOrder[..i])
    {
      assert blob.pageRangesInOrder[..i + 1][..i] == blob.pageRangesInOrder[..i];
      extents := extents + [blob.pageRangesInOrder[i].chunk.id];
      i := i + 1;
    }
    assert blob.pageRangesInOrder[..i] == blob.pageRangesInOrder;
    if blob.persistency.Some? {
      extents := extents + [blob.persistency.value.id];
    }
  }

  method Collect(blobs: seq<Doc>) returns (extents: seq<ExtentId>)
    ensures extents == BlobIds(blobs)
  {
    extents := [];
    var i := 0;
    while i < |blobs|
      invariant 0 <= i <= |blobs| && extents == BlobIds(blobs[..i])
    {
      var more := CollectDoc(blobs[i]);
      assert blobs[..i + 1][..i] == blobs[..i];
      extents := extents + more;
      i := i + 1;
    }
    assert blobs[..i] == blobs;
  }

  /** A chunk the blob needs for any of its content. */
  predicate Uses(doc: Doc, c: Chunk) {
    || c in doc.committedBlocksInOrder
    || (exists r :: r in doc.pageRangesInOrder && r.chunk == c)
    || doc.persistency == Some(c)
  }

  lemma {:induction false} ChunkIdsExactly(chunks: seq<Chunk>, id: ExtentId)
    ensures id in ChunkIds(chunks) <==> exists c :: c in chunks && c.id == id
    decreases |chunks|
  {
    if chunks != [] {
      var most, last := chunks[..|chunks| - 1], chunks[|chunks| - 1];
      ChunkIdsExactly(most, id);
      assert chunks == most + [last];
    }
  }

  lemma {:induction false} RangeIdsExactly(ranges: seq<PageRanges.PageRange>, id: ExtentId)
    ensures id in RangeIds(ranges) <==> exists r :: r in ranges && r.chunk.id == id
    decreases |ranges|
  {
    if ranges != [] {
      var most, last := ranges[..|ranges| - 1], ranges[|ranges| - 1];
      RangeIdsExactly(most, id);
      assert ranges == most + [last];
    }
  }

  predicate UsesExtent(doc: Doc, id: ExtentId) {
    || (exists c :: c in doc.committedBlocksInOrder && c.id == id)
    || (exists r :: r in doc.pageRangesInOrder && r.chunk.id == id)
    || (doc.persistency.Some? && doc.persistency.value.id == id)
  }

  lemma UsesExtentExactly(doc: Doc, id: ExtentId)
    ensures UsesExtent(doc, id) <==> exists c :: Uses(doc, c) && c.id == id
  {
    if c :| c in doc.committedBlocksInOrder && c.id == id {
      assert Uses(doc, c);
    }
    if r :| r in doc.pageRangesInOrder && r.chunk.id == id {
      assert Uses(doc, r.chunk);
    }
    if doc.persistency.Some? {
      assert Uses(doc, doc.persistency.value);
    }
  }

  /** The ids collected from a document are exactly those of the chunks it uses. */
  lemma DocIdsExactly(doc: Doc, id: ExtentId)
    ensures id in DocIds(doc) <==> UsesExtent(doc, id)
    ensures id in DocIds(doc) <==> exists c :: Uses(doc, c) && c.id == id
  {
    ChunkIdsExactly(doc.committedBlocksInOrder, id);
    RangeIdsExactly(doc.pageRangesInOrder, id);
    UsesExtentExactly(doc, id);
  }

  lemma {:induction false} BlobIdsAppend(a: seq<Doc>, b: seq<Doc>)
    ensures BlobIds(a + b) == BlobIds(a) + BlobIds(b)
    decreases |b|
  {
    if b == [] {
      assert a + b == a;
    } else {
      assert (a + b)[..|a + b| - 1] == a + b[..|b| - 1];
      BlobIdsAppend(a, b[..|b| - 1]);
    }
  }

  lemma {:induction false} BlobIdsExactly(docs: seq<Doc>, id: ExtentId)
    ensures id in BlobIds(docs) <==> exists doc :: doc in docs && UsesExtent(doc, id)
    decreases |docs|
  {
    hide UsesExtent, DocIds;
    if docs != [] {
      var most, last := docs[..|docs| - 1], docs[|docs| - 1];
      BlobIdsExactly(most, id);
      DocIdsExactly(last, id);
      assert docs == most + [last];
    }
  }

  lemma BlobIdsHold(docs: seq<Doc>, doc: Doc, c: Chunk)
    requires doc in docs && Uses(doc, c)
    ensures c.id in BlobIds(docs)
  {
    UsesExtentExactly(doc, c.id);
    BlobIdsExactly(docs, c.id);
  }

  // ----- The iterator -----

  const BLOB_UNIT := 5000
  const BLOCK_UNIT := 2000

  /** Where the three-state iterator stands. */
  datatype Cursor = InBlobs(marker: Option<string>) | InBlocks(after: Option<int>) | Finished

  function BlobMarker(m: Option<string>): string {
    if m.Some? then m.value else ""
  }

  function BlockMarker(m: Option<int>): int {
    if m.Some? then m.value else -1
  }

  datatype Turn = Turn(value: seq<ExtentId>, next: Cursor)

  function Take(all: seq<Doc>, blocks: seq<Block>, c: Cursor): Turn {
    match c
    case InBlobs(marker) =>
      var r := ListAllBlobs(all, BLOB_UNIT, BlobMarker(marker));
      Turn(BlobIds(r.docs), if r.next.None? then InBlocks(None) else InBlobs(r.next))
    case InBlocks(marker) =>
      var r := ListUncommittedBlocks(blocks, BLOCK_UNIT, BlockMarker(marker));
      Turn(BlockIds(r.blocks), if r.next.None? then Finished else InBlocks(r.next))
    case Finished => Turn([], Finished)
  }

  datatype IteratorState = ListingExtentsInBlobs | ListingExtentsInBlocks | Done

  class BlobReferredExtentsAsyncIterator {
    var state: IteratorState
    var blobListingMarker: Option<string>
    var blockListingMarker: Option<int>

    ghost function View(): Cursor
      reads this
    {
      match state
      case ListingExtentsInBlobs => InBlobs(blobListingMarker)
      case ListingExtentsInBlocks => InBlocks(blockListingMarker)
      case Done => Finished
    }

    ghost predicate Valid()
      reads this
    {
      state.ListingExtentsInBlobs? ==> blockListingMarker.None?
    }

    constructor ()
      ensures Valid() && View() == InBlobs(None)
    {
      state, blobListingMarker, blockListingMarker := ListingExtentsInBlobs, None, None;
    }

    method Next(all: seq<Doc>, blocks: seq<Block>) returns (done: bool, value: seq<ExtentId>)
      requires Valid()
      modifies this
      ensures Valid()
      ensures done == old(View()).Finished?
      ensures Turn(value, View()) == Take(all, blocks, old(View()))
    {
      match state
      case ListingExtentsInBlobs =>
        var r := ListAllBlobs(all, BLOB_UNIT, if blobListingMarker.Some? then blobListingMarker.value else "");
        blobListingMarker := r.next;
        if r.next.None? {
          state := ListingExtentsInBlocks;
        }
        value := Collect(r.docs);
        done := false;
      case ListingExtentsInBlocks =>
        var r := ListUncommittedBlocks(blocks, BLOCK_UNIT, if blockListingMarker.Some? then blockListingMarker.value else -1);
        blockListingMarker := r.next;
        if r.next.None? {
          state := Done;
        }
        value := BlockIds(r.blocks);
        done := false;
      case Done =>
        value := [];
        done := true;
    }
  }
}
