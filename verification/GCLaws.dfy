/** What a collection deletes, and that no content changes when its marking is completed. */
module GCLaws {
  import opened Options
  import opened Extents
  import opened AppendProtocol
  import opened AppendRuns
  import opened ExtentDeletion
  import EL = ExtentListing
  import EM = ExtentMirror
  import opened Listing
  import opened BlobReferences
  import RL = ReferenceLaws
  import opened BlobGC
  import BD = BlockDownload

  ghost predicate IsListed(m: Metadata, id: ExtentId) {
    exists row :: row in m.rows && EL.Eligible(row, m.before) && row.id == id
  }

  /** The chunks that make up the content of the account. */
  ghost predicate InUse(m: Metadata, c: Chunk) {
    || (exists doc :: doc in m.blobs && Uses(doc, c))
    || (exists b :: b in m.blocks && b.persistency == c)
  }

  /** Some blob, snapshot or uncommitted block refers to the extent. */
  ghost predicate IsReferenced(m: Metadata, id: ExtentId) {
    exists c :: InUse(m, c) && c.id == id
  }

  lemma ReferencedExactly(m: Metadata, id: ExtentId)
    ensures IsReferenced(m, id) <==> id in BlobIds(m.blobs) || id in BlockIds(m.blocks)
  {
    BlobIdsExactly(m.blobs, id);
    if id in BlobIds(m.blobs) {
      var doc :| doc in m.blobs && UsesExtent(doc, id);
      UsesExtentExactly(doc, id);
      var c :| Uses(doc, c) && c.id == id;
      assert InUse(m, c);
    }
    if id in BlockIds(m.blocks) {
      var i :| 0 <= i < |m.blocks| && BlockIds(m.blocks)[i] == id;
      assert InUse(m, m.blocks[i].persistency);
    }
    if c :| InUse(m, c) && c.id == id {
      if doc :| doc in m.blobs && Uses(doc, c) {
        BlobIdsHold(m.blobs, doc, c);
      } else {
        var i :| 0 <= i < |m.blocks| && m.blocks[i].persistency == c;
        assert BlockIds(m.blocks)[i] == c.id;
      }
    }
  }

  /** The store has metadata for every listed document. */
  ghost predicate Recorded(m: Metadata, s: State) {
    forall row :: row in m.rows ==> row.id in s.sizes
  }

  lemma ListingIsComplete(m: Metadata, id: ExtentId)
    requires Sorted(m)
    ensures id in EL.Concat(ExtentPages(m)) <==> IsListed(m, id)
  {
    EL.ExtentPagesList(m.rows, EL.UNIT, None, m.before);
    var found := EL.Query(m.rows, None, m.before);
    assert EL.Concat(ExtentPages(m)) == EL.Ids(found);
    if id in EL.Ids(found) {
      var i :| 0 <= i < |found| && EL.Ids(found)[i] == id;
      EL.QueryHas(m.rows, None, m.before, found[i]);
    }
    if IsListed(m, id) {
      var row :| row in m.rows && EL.Eligible(row, m.before) && row.id == id;
      EL.QueryHas(m.rows, None, m.before, row);
      var i :| 0 <= i < |found| && found[i] == row;
      assert EL.Ids(found)[i] == id;
    }
  }

  lemma {:induction false} ConcatIsJoined(pages: seq<seq<ExtentId>>)
    ensures EL.Concat(pages) == RL.Joined(pages)
    decreases |pages|
  {
    if pages != [] {
      ConcatIsJoined(pages[1..]);
    }
  }

  lemma MarkingIsComplete(m: Metadata, id: ExtentId)
    requires Sorted(m) && RL.Enumerable(m.blobs)
    ensures id in EL.Concat(ReferencePages(m)) <==> IsReferenced(m, id)
  {
    ReferencedExactly(m, id);
    RL.EveryReferenceIsVisited(m.blobs, m.blocks);
    ConcatIsJoined(ReferencePages(m));
  }

  lemma SweptIsRecorded(m: Metadata, s: State, pages: nat, ids: seq<ExtentId>)
    requires Sorted(m) && pages <= |ReferencePages(m)| && Swept(m, pages, ids) && Recorded(m, s)
    ensures AllRecorded(s, ids)
  {
    forall i | 0 <= i < |ids| ensures ids[i] in s.sizes {
      assert ids[i] in ids;
      ListingIsComplete(m, ids[i]);
      var row :| row in m.rows && EL.Eligible(row, m.before) && row.id == ids[i];
    }
  }

  /** The ids on the pages of references the collection has read. */
  ghost function Marked(m: Metadata, pages: nat): seq<ExtentId>
    requires Sorted(m) && pages <= |ReferencePages(m)|
  {
    EL.Concat(ReferencePages(m)[..pages])
  }

  lemma {:induction false} ConcatPrefix(all: seq<seq<ExtentId>>, k: nat, id: ExtentId)
    requires k <= |all| && id in EL.Concat(all[..k])
    ensures id in EL.Concat(all)
    decreases k
  {
    if k > 0 && id !in all[0] {
      assert all[..k][1..] == all[1..][..k - 1];
      ConcatPrefix(all[1..], k - 1, id);
    }
  }

  lemma MarkedIsReferenced(m: Metadata, pages: nat, id: ExtentId)
    requires Sorted(m) && pages <= |ReferencePages(m)| && id in Marked(m, pages)
    ensures IsReferenced(m, id)
  {
    ConcatPrefix(ReferencePages(m), pages, id);
    ConcatIsJoined(ReferencePages(m));
    RL.VisitedIsReferenced(m.blobs, m.blocks, id);
    ReferencedExactly(m, id);
  }

  /** The sweep after any number of pages of references: a file goes if and only if it is listed,
      not marked, inactive and can be unlinked; the others keep their bytes. */
  lemma SweepDeletesExactly(m: Metadata, s: State, pages: nat, ids: seq<ExtentId>, unlink: ExtentId -> UnlinkResult, id: ExtentId)
    requires Sorted(m) && Recorded(m, s) && pages <= |ReferencePages(m)| && Swept(m, pages, ids)
    ensures id in DeleteAll(s, ids, unlink).state.files
      <==> id in s.files && !(IsListed(m, id) && Dies(s, id, unlink) && id !in Marked(m, pages))
    ensures id in DeleteAll(s, ids, unlink).state.files ==> DeleteAll(s, ids, unlink).state.files[id] == s.files[id]
  {
    SweptIsRecorded(m, s, pages, ids);
    DeletesExactly(s, ids, unlink);
    ListingIsComplete(m, id);
  }

  /** Every referenced extent that a sweep could delete has been marked. */
  ghost predicate AllMarked(m: Metadata, s: State, pages: nat, unlink: ExtentId -> UnlinkResult)
    requires Sorted(m) && pages <= |ReferencePages(m)|
  {
    forall id :: IsReferenced(m, id) && id in s.files && IsListed(m, id) && Dies(s, id, unlink) ==> id in Marked(m, pages)
  }

  /** Completed marking of blobs whose pages split no name marks everything. */
  lemma CompleteMarkingMarksAll(m: Metadata, s: State, unlink: ExtentId -> UnlinkResult)
    requires Sorted(m) && RL.Enumerable(m.blobs)
    ensures AllMarked(m, s, |ReferencePages(m)|, unlink)
  {
    assert ReferencePages(m)[..|ReferencePages(m)|] == ReferencePages(m);
    forall id | IsReferenced(m, id) ensures id in Marked(m, |ReferencePages(m)|) {
      MarkingIsComplete(m, id);
    }
  }

  /** The collector's promise, exactly: however many pages of references were read, and whatever
      those pages miss, no referenced file is lost if and only if every referenced extent that
      the sweep could delete is on a page read. */
  lemma SweepIsSafeExactly(m: Metadata, s: State, pages: nat, ids: seq<ExtentId>, unlink: ExtentId -> UnlinkResult)
    requires Sorted(m) && Recorded(m, s) && pages <= |ReferencePages(m)| && Swept(m, pages, ids)
    ensures (forall id :: IsReferenced(m, id) && id in s.files ==> id in DeleteAll(s, ids, unlink).state.files)
      <==> AllMarked(m, s, pages, unlink)
  {
    forall id
      ensures id in DeleteAll(s, ids, unlink).state.files
        <==> id in s.files && !(IsListed(m, id) && Dies(s, id, unlink) && id !in Marked(m, pages))
    {
      SweepDeletesExactly(m, s, pages, ids, unlink, id);
    }
  }

  /** The part of the condition that is known before the sweep: every referenced extent that is
      listed and inactive has been marked. */
  ghost predicate InactiveMarked(m: Metadata, s: State, pages: nat)
    requires Sorted(m) && pages <= |ReferencePages(m)|
  {
    forall id :: IsReferenced(m, id) && id in s.files && IsListed(m, id) && !IsActiveExtent(s.slots, id) ==> id in Marked(m, pages)
  }

  /** However the unlinking goes, no referenced file is lost, if and only if that holds. */
  lemma SafeWhateverUnlinks(m: Metadata, s: State, pages: nat, ids: seq<ExtentId>)
    requires Sorted(m) && Recorded(m, s) && pages <= |ReferencePages(m)| && Swept(m, pages, ids)
    ensures (forall unlink, id :: IsReferenced(m, id) && id in s.files ==> id in DeleteAll(s, ids, unlink).state.files)
      <==> InactiveMarked(m, s, pages)
  {
    var always: ExtentId -> UnlinkResult := _ => Unlinked;
    SweepIsSafeExactly(m, s, pages, ids, always);
    assert AllMarked(m, s, pages, always) <==> InactiveMarked(m, s, pages);
    if InactiveMarked(m, s, pages) {
      forall unlink, id | IsReferenced(m, id) && id in s.files ensures id in DeleteAll(s, ids, unlink).state.files {
        SweepDeletesExactly(m, s, pages, ids, unlink, id);
      }
    }
  }

  /** What goes is exactly the garbage - listed, unreferenced, inactive, and unlinked without
      error - under the same condition. */
  lemma CollectsExactlyTheGarbage(m: Metadata, s: State, pages: nat, ids: seq<ExtentId>, unlink: ExtentId -> UnlinkResult)
    requires Sorted(m) && Recorded(m, s) && pages <= |ReferencePages(m)| && Swept(m, pages, ids)
    ensures (forall id :: id in DeleteAll(s, ids, unlink).state.files
                     <==> id in s.files && !(IsListed(m, id) && Dies(s, id, unlink) && !IsReferenced(m, id)))
      <==> AllMarked(m, s, pages, unlink)
  {
    forall id
      ensures id in DeleteAll(s, ids, unlink).state.files
        <==> id in s.files && !(IsListed(m, id) && Dies(s, id, unlink) && id !in Marked(m, pages))
      ensures id in Marked(m, pages) ==> IsReferenced(m, id)
    {
      SweepDeletesExactly(m, s, pages, ids, unlink, id);
      if id in Marked(m, pages) {
        MarkedIsReferenced(m, pages, id);
      }
    }
  }

  /** The chunk has bytes of its own, in a file the sweep deletes. */
  ghost predicate Loses(m: Metadata, s: State, pages: nat, unlink: ExtentId -> UnlinkResult, c: Chunk)
    requires Sorted(m) && pages <= |ReferencePages(m)|
  {
    c.count > 0 && c.id.Uuid? && IsListed(m, c.id) && Dies(s, c.id, unlink) && c.id !in Marked(m, pages)
  }

  /** A readable chunk reads the same bytes before and after if and only if the sweep does not
      delete them. */
  lemma ChunkReadsTheSame(m: Metadata, s: State, pages: nat, ids: seq<ExtentId>, unlink: ExtentId -> UnlinkResult, c: Chunk)
    requires Sorted(m) && Recorded(m, s) && pages <= |ReferencePages(m)| && Swept(m, pages, ids)
    requires Readable(s.files, c)
    ensures var left := DeleteAll(s, ids, unlink).state.files;
      Readable(left, c) && ReadExtent(left, c) == ReadExtent(s.files, c) <==> !Loses(m, s, pages, unlink, c)
  {
    SweepDeletesExactly(m, s, pages, ids, unlink, c.id);
  }

  lemma MarkedLosesNothing(m: Metadata, s: State, pages: nat, unlink: ExtentId -> UnlinkResult, c: Chunk)
    requires Sorted(m) && pages <= |ReferencePages(m)| && AllMarked(m, s, pages, unlink)
    requires InUse(m, c) && Readable(s.files, c)
    ensures !Loses(m, s, pages, unlink, c)
  {
    assert IsReferenced(m, c.id);
  }

  /** Every blob reads the same when all is marked: any list of chunks in use joins to the same
      payload before and after. */
  lemma {:induction false} ContentStays(m: Metadata, s: State, pages: nat, ids: seq<ExtentId>, unlink: ExtentId -> UnlinkResult,
      chunks: seq<Chunk>)
    requires Sorted(m) && Recorded(m, s) && pages <= |ReferencePages(m)| && Swept(m, pages, ids)
    requires AllMarked(m, s, pages, unlink)
    requires AllReadable(s.files, chunks) && forall c :: c in chunks ==> InUse(m, c)
    ensures AllReadable(DeleteAll(s, ids, unlink).state.files, chunks)
    ensures Joined(DeleteAll(s, ids, unlink).state.files, chunks) == Joined(s.files, chunks)
    decreases |chunks|
  {
    hide AllMarked, Recorded, Swept, InUse, DeleteAll, Loses, ReadExtent;
    forall c | c in chunks ensures Readable(DeleteAll(s, ids, unlink).state.files, c) {
      MarkedLosesNothing(m, s, pages, unlink, c);
      ChunkReadsTheSame(m, s, pages, ids, unlink, c);
    }
    if chunks != [] {
      MarkedLosesNothing(m, s, pages, unlink, chunks[0]);
      ChunkReadsTheSame(m, s, pages, ids, unlink, chunks[0]);
      ContentStays(m, s, pages, ids, unlink, chunks[1..]);
    }
  }

  /** So a block or append blob that could be downloaded still can, with the same content. */
  lemma BlockBlobStays(m: Metadata, s: State, pages: nat, ids: seq<ExtentId>, unlink: ExtentId -> UnlinkResult, doc: Doc, length: nat)
    requires Sorted(m) && Recorded(m, s) && pages <= |ReferencePages(m)| && Swept(m, pages, ids)
    requires AllMarked(m, s, pages, unlink) && doc in m.blobs
    requires BD.Stored(s.files, BD.Blob(true, length, doc.committedBlocksInOrder, doc.persistency))
    ensures var blob := BD.Blob(true, length, doc.committedBlocksInOrder, doc.persistency);
      var left := DeleteAll(s, ids, unlink).state.files;
      BD.Stored(left, blob) && Joined(left, BD.Payload(blob)) == Joined(s.files, BD.Payload(blob))
  {
    var chunks := BD.Payload(BD.Blob(true, length, doc.committedBlocksInOrder, doc.persistency));
    forall c | c in chunks ensures InUse(m, c) {
      assert Uses(doc, c);
    }
    ContentStays(m, s, pages, ids, unlink, chunks);
  }

  // ----- Two ways to lose content -----

  /** The store after a restart: the write slot has a fresh extent, and `id` is an extent of one
      byte that was written before. */
  function Restarted(serial: nat): State {
    State([Slot(Uuid(serial + 1), 0, Idle)], map[Uuid(serial) := [65]], map[], serial + 2, map[Uuid(serial) := 1], [])
  }

  function OneByte(serial: nat): Chunk {
    Chunk(Uuid(serial), 0, 1)
  }

  lemma RestartedInv(serial: nat)
    ensures Inv(Restarted(serial)) && Readable(Restarted(serial).files, OneByte(serial))
  {
  }

  /** Only the extent itself is listed in the metadata that goes with it. */
  lemma OnlyOneListed(m: Metadata, serial: nat, pages: nat)
    requires Sorted(m) && m.rows == [EL.Row(1, Uuid(serial), 1, None)] && pages <= |ReferencePages(m)|
    requires Uuid(serial) !in Marked(m, pages)
    ensures Recorded(m, Restarted(serial)) && Swept(m, pages, [Uuid(serial)])
  {
    var row := m.rows[0];
    forall id ensures id in EL.Concat(ExtentPages(m)) <==> id in [Uuid(serial)] {
      ListingIsComplete(m, id);
      assert row in m.rows;
    }
  }

  lemma SweptAway(m: Metadata, serial: nat, unlink: ExtentId -> UnlinkResult)
    requires unlink(Uuid(serial)).Unlinked?
    ensures !Readable(DeleteAll(Restarted(serial), [Uuid(serial)], unlink).state.files, OneByte(serial))
  {
    var s := Restarted(serial);
    DeletesExactly(s, [Uuid(serial)], unlink);
    assert Uuid(serial) in Dead(s, [Uuid(serial)], unlink);
  }

  const LONE_BLOB := Metadata([EL.Row(1, Uuid(7), 1, None)], 0, [Doc("a", "", [], [], Some(OneByte(7)))], [])

  lemma LoneBlob()
    ensures Sorted(LONE_BLOB) && InUse(LONE_BLOB, OneByte(7))
    ensures PagesRead(LONE_BLOB, Some(|ExtentPages(LONE_BLOB)| + 1)) == 0 && Marked(LONE_BLOB, 0) == []
  {
    var doc := LONE_BLOB.blobs[0];
    assert doc in LONE_BLOB.blobs && Uses(doc, OneByte(7));
    RL.TakeIsNext(LONE_BLOB.blobs, LONE_BLOB.blocks, InBlobs(None));
    hide RL.Remaining;
  }

  /** Closing right after the extents are listed: no page of references is read, and the one
      extent of the one blob is deleted. */
  lemma ClosingLosesABlob(unlink: ExtentId -> UnlinkResult)
    requires unlink(Uuid(7)).Unlinked?
    ensures Sorted(LONE_BLOB) && Recorded(LONE_BLOB, Restarted(7)) && Inv(Restarted(7))
    ensures InUse(LONE_BLOB, OneByte(7)) && Readable(Restarted(7).files, OneByte(7))
    ensures PagesRead(LONE_BLOB, Some(|ExtentPages(LONE_BLOB)| + 1)) == 0 && Swept(LONE_BLOB, 0, [Uuid(7)])
    ensures !Readable(DeleteAll(Restarted(7), [Uuid(7)], unlink).state.files, OneByte(7))
  {
    LoneBlob();
    hide InUse, PagesRead, Swept, Sorted, DeleteAll, Inv, Marked, ReferencePages, ExtentPages;
    RestartedInv(7);
    OnlyOneListed(LONE_BLOB, 7, 0);
    SweptAway(LONE_BLOB, 7, unlink);
  }

  /** One name with a snapshot more than a page holds; only the last one's extent is listed. */
  const MANY_SNAPSHOTS := Metadata([EL.Row(1, Uuid(BLOB_UNIT), 1, None)], 0, RL.Copies(BLOB_UNIT + 1), [])

  /** Marking is completed, and still the extent of the last snapshot is deleted. */
  lemma SplitNameLosesASnapshot(unlink: ExtentId -> UnlinkResult)
    requires unlink(Uuid(BLOB_UNIT)).Unlinked?
    ensures Sorted(MANY_SNAPSHOTS) && Recorded(MANY_SNAPSHOTS, Restarted(BLOB_UNIT)) && Inv(Restarted(BLOB_UNIT))
    ensures InUse(MANY_SNAPSHOTS, OneByte(BLOB_UNIT)) && Readable(Restarted(BLOB_UNIT).files, OneByte(BLOB_UNIT))
    ensures Swept(MANY_SNAPSHOTS, |ReferencePages(MANY_SNAPSHOTS)|, [Uuid(BLOB_UNIT)])
    ensures !Readable(DeleteAll(Restarted(BLOB_UNIT), [Uuid(BLOB_UNIT)], unlink).state.files, OneByte(BLOB_UNIT))
  {
    var m, last := MANY_SNAPSHOTS, RL.Copy(BLOB_UNIT);
    RL.LastSnapshotIsMissed(BLOB_UNIT);
    assert m.blobs[BLOB_UNIT] == last && Uses(last, OneByte(BLOB_UNIT));
    RL.VisitedIs(m.blobs, m.blocks);
    ConcatIsJoined(ReferencePages(m));
    assert ReferencePages(m)[..|ReferencePages(m)|] == ReferencePages(m);
    RestartedInv(BLOB_UNIT);
    OnlyOneListed(m, BLOB_UNIT, |ReferencePages(m)|);
    SweptAway(m, BLOB_UNIT, unlink);
  }

  // ----- The metadata that goes with a store -----

  /** Over every run of the store, with the collection updated by its appends and deletions, each
      listed document has its metadata: the sweep never meets an id without a location. */
  lemma RecordedOverRuns(n: nat, es: seq<Event>, times: seq<int>, m: Metadata)
    requires n >= 1 && CanRun(Init(n), es) && |times| == |es|
    requires m.rows == EM.RowsAfter(EM.Collection([], 1), Init(n), es, times).rows
    ensures Recorded(m, RunFrom(Init(n), es))
  {
    EM.RunMirrors(EM.Collection([], 1), Init(n), es, times);
    var s := RunFrom(Init(n), es);
    forall row | row in m.rows ensures row.id in s.sizes {
      EL.SizeOfPresent(m.rows, row);
    }
  }
}
