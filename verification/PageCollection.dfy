/** Page blobs across garbage collections: a sweep that has marked what it had to is a run of
    deletions the page blob model serves. */
module PageCollection {
  import opened Options
  import opened Extents
  import opened PageRanges
  import opened PageReads
  import opened AppendProtocol
  import opened ExtentDeletion
  import opened Listing
  import opened BlobReferences
  import opened BlobGC
  import opened GCLaws
  import PB = PageBlob
  import PD = PageDownload
  import EL = ExtentListing

  /** The deletions a sweep performs, as requests. */
  function Deletions(s: State, ids: seq<ExtentId>, unlink: ExtentId -> UnlinkResult): seq<PB.Request> {
    if ids == [] then []
    else (if Dies(s, ids[0], unlink) then [PB.StoreEvent(Delete(ids[0]))] else []) + Deletions(s, ids[1..], unlink)
  }

  lemma {:induction false} DeletionsDependOnSlots(s: State, t: State, ids: seq<ExtentId>, unlink: ExtentId -> UnlinkResult)
    requires s.slots == t.slots
    ensures Deletions(s, ids, unlink) == Deletions(t, ids, unlink)
    decreases |ids|
  {
    if ids != [] {
      DeletionsDependOnSlots(s, t, ids[1..], unlink);
    }
  }

  ghost predicate NoneReferred(s: PB.System, ids: seq<ExtentId>, unlink: ExtentId -> UnlinkResult) {
    forall i :: 0 <= i < |ids| && Dies(s.store, ids[i], unlink) ==> !PB.Refers(s.ranges, ids[i])
  }

  /** Deletions of extents the blob does not refer to are served, and lead to the store the sweep
      leaves. */
  lemma {:induction false} DeletionsServed(s: PB.System, ids: seq<ExtentId>, unlink: ExtentId -> UnlinkResult)
    requires Distinct(ids) && AllRecorded(s.store, ids) && NoneReferred(s, ids, unlink)
    ensures var rs := Deletions(s.store, ids, unlink);
      PB.CanServe(s, rs) && PB.ServeAll(s, rs) == s.(store := DeleteAll(s.store, ids, unlink).state)
    decreases |ids|
  {
    if ids != [] {
      var t := s.(store := AfterFirst(s.store, ids, unlink));
      FirstDeletion(s.store, ids, unlink);
      forall i | 0 <= i < |ids[1..]| && Dies(t.store, ids[1..][i], unlink) ensures !PB.Refers(t.ranges, ids[1..][i]) {
        assert ids[1..][i] == ids[i + 1];
      }
      DeletionsServed(t, ids[1..], unlink);
      DeletionsDependOnSlots(s.store, t.store, ids[1..], unlink);
      var rest := Deletions(s.store, ids[1..], unlink);
      if Dies(s.store, ids[0], unlink) {
        var e := PB.StoreEvent(Delete(ids[0]));
        assert PB.Accepts(s, e) && PB.Serve(s, e) == t;
        assert ([e] + rest)[0] == e && ([e] + rest)[1..] == rest;
      } else {
        assert [] + rest == rest;
      }
    }
  }

  /** The blob is among the documents the collection sees, with the index the system has. */
  ghost predicate Contains(m: Metadata, s: PB.System) {
    exists doc :: doc in m.blobs && doc.pageRangesInOrder == s.ranges
  }

  /** A sweep that has marked every referenced extent it could delete hits none of the blob's. */
  lemma SweepSparesTheBlob(m: Metadata, s: PB.System, pages: nat, ids: seq<ExtentId>, unlink: ExtentId -> UnlinkResult)
    requires PB.Sound(s) && PD.RangesReadable(s.store.files, s.ranges) && Contains(m, s)
    requires Sorted(m) && GCLaws.Recorded(m, s.store) && pages <= |ReferencePages(m)| && Swept(m, pages, ids)
    requires AllMarked(m, s.store, pages, unlink)
    ensures NoneReferred(s, ids, unlink)
  {
    var doc :| doc in m.blobs && doc.pageRangesInOrder == s.ranges;
    forall i | 0 <= i < |ids| && Dies(s.store, ids[i], unlink) ensures !PB.Refers(s.ranges, ids[i]) {
      if PB.Refers(s.ranges, ids[i]) {
        var k :| 0 <= k < |s.ranges| && s.ranges[k].chunk.id == ids[i];
        var c := s.ranges[k].chunk;
        assert s.ranges[k] in doc.pageRangesInOrder && Uses(doc, c);
        BlobIdsHold(m.blobs, doc, c);
        assert ids[i] in ids;
        ListingIsComplete(m, ids[i]);
        assert false;
      }
    }
  }

  /** Such a sweep is a run of the page blob model. */
  lemma SweepIsServed(m: Metadata, s: PB.System, pages: nat, ids: seq<ExtentId>, unlink: ExtentId -> UnlinkResult)
    requires PB.Sound(s) && PD.RangesReadable(s.store.files, s.ranges) && Contains(m, s)
    requires Sorted(m) && GCLaws.Recorded(m, s.store) && pages <= |ReferencePages(m)| && Swept(m, pages, ids)
    requires AllMarked(m, s.store, pages, unlink)
    ensures var rs := Deletions(s.store, ids, unlink);
      PB.CanServe(s, rs) && PB.ServeAll(s, rs) == s.(store := DeleteAll(s.store, ids, unlink).state)
  {
    SweepSparesTheBlob(m, s, pages, ids, unlink);
    SweptIsRecorded(m, s.store, pages, ids);
    DeletionsServed(s, ids, unlink);
  }

  lemma FlatAfterSweep(s: PB.System, length: nat, rs: seq<PB.Request>,
      m: Metadata, pages: nat, ids: seq<ExtentId>, unlink: ExtentId -> UnlinkResult, a: int, b: int)
    requires PB.Simulates(s, length, rs) && Contains(m, s) && 0 <= a <= b
    requires Sorted(m) && pages <= |ReferencePages(m)| && Swept(m, pages, ids)
    requires GCLaws.Recorded(m, s.store) && AllMarked(m, s.store, pages, unlink)
    ensures var files := DeleteAll(s.store, ids, unlink).state.files;
      var chunks := Chunks(Filled(Restrict(s.ranges, a, At(b)), a, b));
      AllReadable(files, chunks) && Extents.Joined(files, chunks) == PD.FlatBytes(length, rs, a, b - a + 1)
  {
    PD.SimulatedReadable(s, length, rs);
    SweepIsServed(m, s, pages, ids, unlink);
    var deletions := Deletions(s.store, ids, unlink);
    hide AllMarked, Swept, GCLaws.Recorded, Contains, PB.CanServe, PB.ServeAll;
    PB.RunSimulates(s, length, rs, deletions);
    hide PB.Simulates, DeleteAll;
    PD.SimulatedDownload(s.(store := DeleteAll(s.store, ids, unlink).state), length, rs + deletions, a, b);
    forall p ensures PB.FlatByte(length, rs + deletions, p) == PB.FlatByte(length, rs, p) {
      DeletionsLeave(length, rs, s.store, ids, unlink, p);
    }
  }

  /** After any run and such a sweep the blob is the same flat array as before it. */
  lemma FlatAcrossCollections(slots: nat, length: nat, rs: seq<PB.Request>,
      m: Metadata, pages: nat, ids: seq<ExtentId>, unlink: ExtentId -> UnlinkResult, a: int, b: int)
    requires slots >= 1 && PB.CanServe(PB.Created(slots, length), rs) && 0 <= a <= b
    requires Contains(m, PB.ServeAll(PB.Created(slots, length), rs))
    requires Sorted(m) && pages <= |ReferencePages(m)| && Swept(m, pages, ids)
    requires var s := PB.ServeAll(PB.Created(slots, length), rs);
      GCLaws.Recorded(m, s.store) && AllMarked(m, s.store, pages, unlink)
    ensures var s := PB.ServeAll(PB.Created(slots, length), rs);
      var files := DeleteAll(s.store, ids, unlink).state.files;
      var chunks := Chunks(Filled(Restrict(s.ranges, a, At(b)), a, b));
      && AllReadable(files, chunks)
      && Extents.Joined(files, chunks) == PD.FlatBytes(length, rs, a, b - a + 1)
  {
    hide AllMarked, Swept, Sorted, GCLaws.Recorded, Contains, PB.CanServe, PB.ServeAll, PB.Created, PB.Simulates,
      AllReadable, DeleteAll, Chunks, Filled, Restrict;
    PB.CreatedSimulates(slots, length, rs);
    FlatAfterSweep(PB.ServeAll(PB.Created(slots, length), rs), length, rs, m, pages, ids, unlink, a, b);
  }

  /** Deletions are no requests of the flat array. */
  lemma {:induction false} DeletionsLeave(created: nat, done: seq<PB.Request>, s: State, ids: seq<ExtentId>,
      unlink: ExtentId -> UnlinkResult, p: int)
    ensures PB.CellAfter(created, done + Deletions(s, ids, unlink), p) == PB.CellAfter(created, done, p)
    decreases |ids|
  {
    if ids == [] {
      assert done + [] == done;
    } else {
      var rest := Deletions(s, ids[1..], unlink);
      if Dies(s, ids[0], unlink) {
        var r := PB.StoreEvent(Delete(ids[0]));
        DeletionsLeave(created, done + [r], s, ids[1..], unlink, p);
        PB.OneMore(created, done, r, p);
        assert done + ([r] + rest) == (done + [r]) + rest;
      } else {
        DeletionsLeave(created, done, s, ids[1..], unlink, p);
        assert [] + rest == rest;
      }
    }
  }
}
