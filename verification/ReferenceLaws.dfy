/** Which references the paged enumeration visits. */
module ReferenceLaws {
  import opened Options
  import opened Extents
  import opened Names
  import opened Listing
  import opened ListingLaws
  import opened BlobReferences

  /** Listing all blobs squashes nothing. */
  const PLAIN := Shape(None, 0)

  lemma {:induction false} PlainSize(docs: seq<Doc>)
    ensures Blobs(PLAIN, docs) == docs && Prefixes(PLAIN, docs) == []
  {
    PlainNames(PLAIN, docs);
  }

  lemma PlainPage(max: nat, docs: seq<Doc>)
    requires max >= 1
    ensures PageLength(PLAIN, max, docs) == if |docs| <= max then |docs| else max
  {
    var k := if |docs| <= max then |docs| else max;
    PlainSize(docs[..k]);
    PageLengthIs(PLAIN, max, docs, k);
    if k < |docs| {
      PlainSize(docs[..k + 1]);
    }
  }

  /** The documents the calls return, page after page. */
  ghost function BlobPages(all: seq<Doc>, max: nat, marker: string): seq<seq<Doc>>
    requires max >= 1 && Ascending(all)
    decreases |After(all, marker)|
  {
    var r := ListAllBlobs(all, max, marker);
    PlainPage(max, After(all, marker));
    Shrinks(PLAIN, max, all, marker);
    if r.next.None? then [r.docs] else [r.docs] + BlobPages(all, max, r.next.value)
  }

  ghost function Joined<T>(pages: seq<seq<T>>): seq<T> {
    if pages == [] then [] else pages[0] + Joined(pages[1..])
  }

  lemma FirstPlainPage(all: seq<Doc>, max: nat, marker: string)
    requires max >= 1 && Ascending(all)
    ensures var r := ListAllBlobs(all, max, marker);
      var pages, follow := BlobPages(all, max, marker), Follow(PLAIN, max, all, marker);
      && pages != [] && follow != [] && pages[0] == r.docs == follow[0].blobs
      && pages[1..] == (if r.next.None? then [] else BlobPages(all, max, r.next.value))
      && follow[1..] == (if r.next.None? then [] else Follow(PLAIN, max, all, r.next.value))
      && (r.next.Some? ==> |After(all, r.next.value)| < |After(all, marker)|)
  {
    hide PageLength, Blobs, Prefixes, After, Marker, Follow;
    var docs := After(all, marker);
    PlainPage(max, docs);
    Shrinks(PLAIN, max, all, marker);
    FollowUnfolds(PLAIN, max, all, marker);
    var r := ListAllBlobs(all, max, marker);
    PlainSize(r.docs);
    assert r.docs == docs[..PageLength(PLAIN, max, docs)];
  }

  lemma {:induction false} BlobPagesAreThePlainListing(all: seq<Doc>, max: nat, marker: string)
    requires max >= 1 && Ascending(all)
    ensures Joined(BlobPages(all, max, marker)) == ListedBlobs(Follow(PLAIN, max, all, marker))
    decreases |After(all, marker)|
  {
    hide BlobPages, Follow, After, ListAllBlobs;
    FirstPlainPage(all, max, marker);
    var r := ListAllBlobs(all, max, marker);
    if r.next.Some? {
      BlobPagesAreThePlainListing(all, max, r.next.value);
    }
  }

  /** The enumeration of blobs is complete if and only if no page ends between two documents of
      one name (a blob and its snapshots, or blobs of one name in several containers). */
  lemma BlobsEnumeratedExactly(all: seq<Doc>, max: nat, marker: string)
    requires max >= 1 && Ascending(all)
    ensures Joined(BlobPages(all, max, marker)) == After(all, marker) <==> SplitFree(PLAIN, max, all, marker)
  {
    BlobPagesAreThePlainListing(all, max, marker);
    FollowingListsEverything(PLAIN, max, all, marker);
    PlainSize(After(all, marker));
  }

  /** A blob and its snapshots: `n` documents of one name, each with an extent of its own. */
  function Copies(n: nat): (all: seq<Doc>)
    ensures |all| == n && forall i :: 0 <= i < n ==> all[i] == Copy(i)
  {
    seq(n, i requires 0 <= i < n => Copy(i))
  }

  function Copy(i: nat): Doc {
    Doc("a", seq(i, _ => 's'), [], [], Some(Chunk(Uuid(i), 0, 1)))
  }

  /** One name with one document more than a page: the reference of the last one is never visited. */
  lemma LastSnapshotIsMissed(max: nat)
    requires max >= 1
    ensures Ascending(Copies(max + 1))
    ensures Uuid(max) in DocIds(Copies(max + 1)[max])
    ensures Uuid(max) !in BlobIds(Joined(BlobPages(Copies(max + 1), max, "")))
  {
    var all := Copies(max + 1);
    LessTrichotomy("a", "a");
    StartsWithEverything(all);
    NothingAfter(all, "a");
    OnePageThenNone(all, max);
    IdsBelow(all, max);
    DocIdsExactly(Copy(max), Uuid(max));
  }

  lemma OnePageThenNone(all: seq<Doc>, max: nat)
    requires max >= 1 && Ascending(all) && |all| == max + 1 && After(all, "") == all
    requires After(all, all[max - 1].name) == []
    ensures Joined(BlobPages(all, max, "")) == all[..max]
  {
    hide PageLength, Blobs, Prefixes, After;
    PlainPage(max, all);
    Shrinks(PLAIN, max, all, "");
    var rest: seq<seq<Doc>> := [[]];
    assert BlobPages(all, max, all[max - 1].name) == rest;
    assert rest[1..] == [] && Joined(rest) == [];
    assert BlobPages(all, max, "") == [all[..max]] + rest;
    assert BlobPages(all, max, "")[1..] == rest;
  }

  lemma {:induction false} NothingAfter(all: seq<Doc>, name: string)
    requires forall i :: 0 <= i < |all| ==> all[i].name == name
    ensures After(all, name) == []
    decreases |all|
  {
    if all != [] {
      LessTrichotomy(name, name);
      NothingAfter(all[1..], name);
    }
  }

  lemma {:induction false} IdsBelow(all: seq<Doc>, k: nat)
    requires k <= |all| && all == Copies(|all|)
    ensures forall i: nat :: k <= i ==> Uuid(i) !in BlobIds(all[..k])
  {
    if k > 0 {
      IdsBelow(all, k - 1);
      assert all[..k][..k - 1] == all[..k - 1];
      assert DocIds(Copy(k - 1)) == [Uuid(k - 1)];
    }
  }

  // ----- Blocks -----

  lemma {:induction false} BlocksNarrow(blocks: seq<Block>, marker: int, key: int)
    requires marker <= key
    ensures BlocksAfter(blocks, key) == BlocksAfter(BlocksAfter(blocks, marker), key)
    decreases |blocks|
  {
    if blocks != [] {
      BlocksNarrow(blocks[1..], marker, key);
      var rest := BlocksAfter(blocks[1..], marker);
      assert ([blocks[0]] + rest)[1..] == rest && [] + rest == rest;
    }
  }

  lemma {:induction false} BlocksTail(found: seq<Block>, k: nat, key: int)
    requires k <= |found| && forall i :: 0 <= i < |found| ==> (found[i].loki > key <==> i >= k)
    ensures BlocksAfter(found, key) == found[k..]
    decreases |found|
  {
    if found != [] {
      BlocksTail(found[1..], if k == 0 then 0 else k - 1, key);
    }
  }

  lemma {:induction false} BlocksAfterOrdered(blocks: seq<Block>, marker: int)
    requires OrderedBlocks(blocks)
    ensures OrderedBlocks(BlocksAfter(blocks, marker))
    decreases |blocks|
  {
    if blocks != [] {
      var rest := BlocksAfter(blocks[1..], marker);
      BlocksAfterOrdered(blocks[1..], marker);
      forall j | 0 <= j < |rest| ensures blocks[0].loki < rest[j].loki {
        assert rest[j] in blocks[1..];
        var i :| 0 <= i < |blocks| - 1 && blocks[1..][i] == rest[j];
        assert blocks[i + 1] == rest[j];
      }
    }
  }

  lemma BlocksResume(blocks: seq<Block>, marker: int, k: nat)
    requires OrderedBlocks(blocks) && 1 <= k <= |BlocksAfter(blocks, marker)|
    ensures BlocksAfter(blocks, BlocksAfter(blocks, marker)[k - 1].loki) == BlocksAfter(blocks, marker)[k..]
  {
    var found := BlocksAfter(blocks, marker);
    BlocksAfterOrdered(blocks, marker);
    assert found[k - 1] in found;
    BlocksNarrow(blocks, marker, found[k - 1].loki);
    BlocksTail(found, k, found[k - 1].loki);
  }

  lemma AllLater(blocks: seq<Block>, marker: int)
    requires forall i :: 0 <= i < |blocks| ==> blocks[i].loki > marker
    ensures BlocksAfter(blocks, marker) == blocks
  {
    BlocksTail(blocks, 0, marker);
  }

  /** A page of blocks carries a marker, that of its last block, exactly when it leaves a later
      block out, and is then full. */
  lemma BlockPageIs(blocks: seq<Block>, max: nat, marker: int)
    requires max >= 1 && OrderedBlocks(blocks)
    ensures var r := ListUncommittedBlocks(blocks, max, marker);
      && |r.blocks| <= max
      && (r.next.None? <==> forall b :: b in blocks && b.loki > marker ==> b in r.blocks)
      && (r.next.Some? ==> |r.blocks| == max && r.next.value == r.blocks[max - 1].loki)
  {
    var found := BlocksAfter(blocks, marker);
    BlocksAfterOrdered(blocks, marker);
    if |found| > max {
      assert found[max] in found;
      forall i | 0 <= i < max ensures found[..max][i] != found[max] {
        assert found[i].loki < found[max].loki;
      }
    }
  }

  ghost function BlockPages(blocks: seq<Block>, max: nat, marker: int): seq<seq<Block>>
    requires max >= 1 && OrderedBlocks(blocks)
    decreases |BlocksAfter(blocks, marker)|
  {
    var r := ListUncommittedBlocks(blocks, max, marker);
    if r.next.None? then [r.blocks]
    else
      BlocksResume(blocks, marker, max);
      [r.blocks] + BlockPages(blocks, max, r.next.value)
  }

  /** The blocks are visited completely, whatever the page size. */
  lemma {:induction false} BlocksEnumerated(blocks: seq<Block>, max: nat, marker: int)
    requires max >= 1 && OrderedBlocks(blocks)
    ensures Joined(BlockPages(blocks, max, marker)) == BlocksAfter(blocks, marker)
    decreases |BlocksAfter(blocks, marker)|
  {
    var r := ListUncommittedBlocks(blocks, max, marker);
    if r.next.Some? {
      BlocksResume(blocks, marker, max);
      BlocksEnumerated(blocks, max, r.next.value);
      assert BlockPages(blocks, max, marker)[1..] == BlockPages(blocks, max, r.next.value);
    } else {
      assert BlockPages(blocks, max, marker)[1..] == [];
    }
  }

  // ----- The whole iterator -----

  ghost function MapBlobIds(pages: seq<seq<Doc>>): seq<seq<ExtentId>> {
    if pages == [] then [] else [BlobIds(pages[0])] + MapBlobIds(pages[1..])
  }

  ghost function MapBlockIds(pages: seq<seq<Block>>): seq<seq<ExtentId>> {
    if pages == [] then [] else [BlockIds(pages[0])] + MapBlockIds(pages[1..])
  }

  /** The values still to come from a cursor, while the metadata does not change. */
  ghost function Remaining(all: seq<Doc>, blocks: seq<Block>, c: Cursor): seq<seq<ExtentId>>
    requires Ascending(all) && OrderedBlocks(blocks)
  {
    match c
    case InBlobs(m) => MapBlobIds(BlobPages(all, BLOB_UNIT, BlobMarker(m))) + MapBlockIds(BlockPages(blocks, BLOCK_UNIT, -1))
    case InBlocks(m) => MapBlockIds(BlockPages(blocks, BLOCK_UNIT, BlockMarker(m)))
    case Finished => []
  }

  lemma FirstBlobPage(all: seq<Doc>, max: nat, marker: string)
    requires max >= 1 && Ascending(all)
    ensures var r := ListAllBlobs(all, max, marker);
      MapBlobIds(BlobPages(all, max, marker))
        == [BlobIds(r.docs)] + if r.next.None? then [] else MapBlobIds(BlobPages(all, max, r.next.value))
  {
    var r := ListAllBlobs(all, max, marker);
    PlainPage(max, After(all, marker));
    Shrinks(PLAIN, max, all, marker);
    assert BlobPages(all, max, marker)[1..] == if r.next.None? then [] else BlobPages(all, max, r.next.value);
  }

  lemma FirstBlockPage(blocks: seq<Block>, max: nat, marker: int)
    requires max >= 1 && OrderedBlocks(blocks)
    ensures var r := ListUncommittedBlocks(blocks, max, marker);
      MapBlockIds(BlockPages(blocks, max, marker))
        == [BlockIds(r.blocks)] + if r.next.None? then [] else MapBlockIds(BlockPages(blocks, max, r.next.value))
  {
    var r := ListUncommittedBlocks(blocks, max, marker);
    assert BlockPages(blocks, max, marker)[1..] == if r.next.None? then [] else BlockPages(blocks, max, r.next.value);
  }

  lemma TakeBlobs(all: seq<Doc>, blocks: seq<Block>, m: Option<string>)
    requires Ascending(all) && OrderedBlocks(blocks)
    ensures var t := Take(all, blocks, InBlobs(m));
      Remaining(all, blocks, InBlobs(m)) == [t.value] + Remaining(all, blocks, t.next)
  {
    hide MapBlobIds, MapBlockIds, BlobPages, BlockPages, BlobIds, ListAllBlobs;
    FirstBlobPage(all, BLOB_UNIT, BlobMarker(m));
    var r := ListAllBlobs(all, BLOB_UNIT, BlobMarker(m));
    var later := MapBlockIds(BlockPages(blocks, BLOCK_UNIT, -1));
    if r.next.None? {
      assert [BlobIds(r.docs)] + [] == [BlobIds(r.docs)];
    } else {
      var blobs := MapBlobIds(BlobPages(all, BLOB_UNIT, r.next.value));
      assert ([BlobIds(r.docs)] + blobs) + later == [BlobIds(r.docs)] + (blobs + later);
    }
  }

  lemma TakeBlocks(all: seq<Doc>, blocks: seq<Block>, m: Option<int>)
    requires Ascending(all) && OrderedBlocks(blocks)
    ensures var t := Take(all, blocks, InBlocks(m));
      Remaining(all, blocks, InBlocks(m)) == [t.value] + Remaining(all, blocks, t.next)
  {
    hide MapBlobIds, MapBlockIds, BlobPages, BlockPages, BlockIds, ListUncommittedBlocks;
    FirstBlockPage(blocks, BLOCK_UNIT, BlockMarker(m));
    var r := ListUncommittedBlocks(blocks, BLOCK_UNIT, BlockMarker(m));
    assert r.next.None? ==> [BlockIds(r.blocks)] + [] == [BlockIds(r.blocks)];
  }

  /** A call returns the first of the remaining values and leaves the others. */
  lemma TakeIsNext(all: seq<Doc>, blocks: seq<Block>, c: Cursor)
    requires Ascending(all) && OrderedBlocks(blocks)
    ensures c.Finished? <==> Remaining(all, blocks, c) == []
    ensures !c.Finished? ==>
      Remaining(all, blocks, c) == [Take(all, blocks, c).value] + Remaining(all, blocks, Take(all, blocks, c).next)
  {
    hide Take;
    match c
    case InBlobs(m) =>
      TakeBlobs(all, blocks, m);
      hide Remaining;
    case InBlocks(m) =>
      TakeBlocks(all, blocks, m);
      hide Remaining;
    case Finished =>
  }

  lemma {:induction false} JoinedAppend<T>(a: seq<seq<T>>, b: seq<seq<T>>)
    ensures Joined(a + b) == Joined(a) + Joined(b)
    decreases |a|
  {
    if a == [] {
      assert a + b == b;
    } else {
      assert (a + b)[1..] == a[1..] + b;
      JoinedAppend(a[1..], b);
    }
  }

  lemma {:induction false} JoinedBlobIds(pages: seq<seq<Doc>>)
    ensures Joined(MapBlobIds(pages)) == BlobIds(Joined(pages))
    decreases |pages|
  {
    if pages != [] {
      JoinedBlobIds(pages[1..]);
      BlobIdsAppend(pages[0], Joined(pages[1..]));
      assert MapBlobIds(pages)[1..] == MapBlobIds(pages[1..]);
    }
  }

  lemma {:induction false} BlockIdsAppend(a: seq<Block>, b: seq<Block>)
    ensures BlockIds(a + b) == BlockIds(a) + BlockIds(b)
  {
  }

  lemma {:induction false} JoinedBlockIds(pages: seq<seq<Block>>)
    ensures Joined(MapBlockIds(pages)) == BlockIds(Joined(pages))
    decreases |pages|
  {
    if pages != [] {
      JoinedBlockIds(pages[1..]);
      BlockIdsAppend(pages[0], Joined(pages[1..]));
      assert MapBlockIds(pages)[1..] == MapBlockIds(pages[1..]);
    }
  }

  /** Blob names are never empty and no page of blobs splits a name. */
  ghost predicate Enumerable(all: seq<Doc>) {
    && Ascending(all)
    && (forall i :: 0 <= i < |all| ==> all[i].name != "")
    && SplitFree(PLAIN, BLOB_UNIT, all, "")
  }

  /** All values of the iterator: the ids of the blobs its pages hold, then those of the blocks. */
  lemma VisitedIs(all: seq<Doc>, blocks: seq<Block>)
    requires Ascending(all) && OrderedBlocks(blocks)
    ensures Joined(Remaining(all, blocks, InBlobs(None)))
         == BlobIds(Joined(BlobPages(all, BLOB_UNIT, ""))) + BlockIds(blocks)
  {
    var blobPages, blockPages := BlobPages(all, BLOB_UNIT, ""), BlockPages(blocks, BLOCK_UNIT, -1);
    BlocksEnumerated(blocks, BLOCK_UNIT, -1);
    AllLater(blocks, -1);
    JoinedAppend(MapBlobIds(blobPages), MapBlockIds(blockPages));
    JoinedBlobIds(blobPages);
    JoinedBlockIds(blockPages);
  }

  /** The iterator visits exactly the references of all blobs, snapshots and uncommitted blocks. */
  lemma EveryReferenceIsVisited(all: seq<Doc>, blocks: seq<Block>)
    requires Enumerable(all) && OrderedBlocks(blocks)
    ensures Joined(Remaining(all, blocks, InBlobs(None))) == BlobIds(all) + BlockIds(blocks)
  {
    BlobsEnumeratedExactly(all, BLOB_UNIT, "");
    StartsWithEverything(all);
    VisitedIs(all, blocks);
  }

  // ----- Nothing else is visited -----

  lemma {:induction false} AfterIsPart(all: seq<Doc>, marker: string, doc: Doc)
    requires doc in After(all, marker)
    ensures doc in all
    decreases |all|
  {
    if all[0] != doc {
      AfterIsPart(all[1..], marker, doc);
    }
  }

  lemma {:induction false} PagesArePart(all: seq<Doc>, max: nat, marker: string, doc: Doc)
    requires max >= 1 && Ascending(all) && doc in Joined(BlobPages(all, max, marker))
    ensures doc in all
    decreases |After(all, marker)|
  {
    hide BlobPages, Follow, After;
    FirstPlainPage(all, max, marker);
    var r := ListAllBlobs(all, max, marker);
    if doc in r.docs {
      AfterIsPart(all, marker, doc);
    } else {
      PagesArePart(all, max, r.next.value, doc);
    }
  }

  lemma {:induction false} BlobIdsFrom(docs: seq<Doc>, id: ExtentId) returns (doc: Doc)
    requires id in BlobIds(docs)
    ensures doc in docs && id in DocIds(doc)
    decreases |docs|
  {
    doc := docs[|docs| - 1];
    if id !in DocIds(doc) {
      doc := BlobIdsFrom(docs[..|docs| - 1], id);
    }
  }

  lemma {:induction false} BlobIdsContain(docs: seq<Doc>, doc: Doc, id: ExtentId)
    requires doc in docs && id in DocIds(doc)
    ensures id in BlobIds(docs)
    decreases |docs|
  {
    if docs[|docs| - 1] != doc {
      BlobIdsContain(docs[..|docs| - 1], doc, id);
    }
  }

  /** Even with pages that split names, only references are visited. */
  lemma VisitedIsReferenced(all: seq<Doc>, blocks: seq<Block>, id: ExtentId)
    requires Ascending(all) && OrderedBlocks(blocks)
    requires id in Joined(Remaining(all, blocks, InBlobs(None)))
    ensures id in BlobIds(all) || id in BlockIds(blocks)
  {
    VisitedIs(all, blocks);
    var docs := Joined(BlobPages(all, BLOB_UNIT, ""));
    if id in BlobIds(docs) {
      var doc := BlobIdsFrom(docs, id);
      PagesArePart(all, BLOB_UNIT, "", doc);
      BlobIdsContain(all, doc, id);
    }
  }
}
