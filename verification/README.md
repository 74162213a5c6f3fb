# Verified model of Azurite's blob storage core

A Dafny model of the parts of Azurite's blob service that keep state over unbounded runs, with
proofs of what that state means. `dafny verify dfyconfig.toml` checks everything.

- **Page blobs over an append-only store.** `PageRanges`, `PageRangeLaws` and `PageReads` model the sorted
  list of byte ranges that the page blob manager splices, cuts and fills with zeros. `AppendProtocol`,
  `AppendRuns`, `AppendReturns`, `AppendFailures` and `FSExtentStores` model concurrent appends into write slots, with rollover,
  failed writes and truncation, one event per stretch of code between two awaits. A failure of an open, a close or
  a truncate is called harmless when it hits an append in slot 0 that leaves no bytes behind the slot's offset.
  `ExtentReads` reads a byte interval out of a list of chunks. `PageBlob` and `PageDownload` put them together and
  show that a page blob is a flat, zero-initialised byte array, which is defined from the requests alone.
- **Headers, handlers, downloads.** `RangeHeaders` prints and parses range headers (sections 14.1.2 and 14.2
  of RFC 9110), `PageHandler` has the page handler's guards, `BlockDownload` the download of block and append
  blobs.
- **Listing.** `Names` is lexicographic order, `Listing` the page with its full and exhausted flags,
  `ListingLaws` the client's loop over markers against the one-pass listing, `ListingDescent` a client that
  walks names as a tree.
- **Garbage collection.** `ExtentListing` and `ExtentMirror` are the extent collection and its iterator,
  `BlobReferences` and `ReferenceLaws` the iterator over references, `ExtentDeletion` and `BlobGC` the sweep and the
  manager, `GCLaws` what a collection deletes, `PageCollection` that page blobs stay the same across it.
- **Leases.** `Leases` is the five-state protocol, `LeaseIdeal` a lease that knows only a holder and the clock and
  answers every run alike, `LeaseLaws` and `LeaseRuns` its properties over single
  requests and runs, `LeaseLocks` how long a lease locks its blob (with corollaries per operation),
  `LeaseIds` when two ids are alike, `LeaseStore` the code that works on the stored fields.
- **The mutex.** `Mutexes` is the step protocol and the class, `MutexLaws` order, progress and exclusion as
  somebody sees them who watches only calls and resolved promises.

Objects that the source updates in place are classes whose methods are proved against functions on
values; the run theorems are lemmas about those functions. Unlinking, file errors, uuids, request times,
the moment `close` arrives and the outcome of each await are parameters.

## Where the code differs from its documentation or from a plain reading

- The range search is documented as binary, but it searches both halves; it is exact on any list
  (`PageRanges.LocateFirstImpactedRange`, `LocateLastImpactedRange`).
- `deleteExtents` is documented to return the number of extents deleted; it also counts those whose
  unlink failed (`ExtentDeletion.CountIsTheDeleted`).
- A failed file open leaves its slot marked as appending, because the open is outside the try block, and so does a
  rollback whose close or truncate throws. With such a slot two appends can share slot 0, or a chunk can lie over
  stale bytes (`AppendRuns.FailedOpenLetsAppendsCollide`, `AppendFailures.FailuresAreSafeExactly`).
- An upload's start is compared with a length read before its append is awaited, and its end with none, so bytes
  can lie past the end and show up after a resize (`PageDownload.TailAlwaysEmptyExactly`, `OverrunResurfaces`,
  `LateCommitResurfaces`).
- `rangeToString` treats a count of zero as no count (`RangeHeaders.RangeRoundTrip`).
- A prefix is reported with one character of the delimiter. For longer delimiters the listing stays complete, but
  names outside the group can start with its prefix, and are listed again when a client descends into it
  (`Listing.SquashedIsContiguous`, `PrefixStandsForItsNames`, `LongDelimiterSharesAPrefix`).
- Listings with snapshots, and the collector's own listing of all blobs, resume by name and drop the rest of
  a name that a page boundary splits (`ListingLaws.FollowingListsEverything`, `ReferenceLaws.BlobsEnumeratedExactly`).
- The sweep runs even when `close` cut the marking short. Both this and a split name can delete files in use
  (`GCLaws.SweepIsSafeExactly`, `ClosingLosesABlob`, `SplitNameLosesASnapshot`).
- Breaking an infinite lease does not check the period: values above 60 are accepted and negative ones reach
  an internal error (`LeaseLaws.HandleWellFormed`). Renewing an expired lease ignores the id
  (`LeaseLocks.RenewSucceedsExactly`).
- A key whose hand-over is pending reads as free in the mutex, and the deferred callback does not look again
  (`MutexLaws.ExclusionExactly`, `NoBargingSuffices`).
- The extent collection filters on a field that inserts leave undefined; the model reads an undefined time as
  earlier than any date, as the in-memory database's ordering does, so documents just inserted are eligible
  (`ExtentListing.WrittenIsEligibleExactly`).

## Model

| member | source | states |
|---|---|---|
| `PageRanges.LocateFirstImpactedRange` | src/blob/handlers/PageBlobRangesManager.ts:372-427 | The first index in the searched part whose range covers or follows the position, or the length when there is none; for any list, sorted or not |
| `PageRanges.LocateLastImpactedRange` | src/blob/handlers/PageBlobRangesManager.ts:429-473 | The last index in the searched part whose range covers or precedes the position (or Infinity), or -1; for any list |
| `PageRanges.SelectImpactedRanges` | src/blob/handlers/PageBlobRangesManager.ts:328-359 | Throws exactly on a non-empty list with a negative start or a start behind the end |
| `PageRanges.ScopeIsTheOverlap` | src/blob/handlers/PageBlobRangesManager.ts:316-473 | On a well-formed list the scope is exactly the window of overlapping ranges, and its first index is the insertion point when nothing overlaps |
| `PageRanges.MergeRange` | src/blob/handlers/PageBlobRangesManager.ts:51-115 | The in-place splice leaves: what was before the interval, the new range, what was after it; a throw leaves the list alone |
| `PageRanges.ClearRange` | src/blob/handlers/PageBlobRangesManager.ts:117-170 | The in-place splice leaves what was before and what was after the interval, for an end that may be Infinity; a throw leaves the list alone |
| `PageRangeLaws.MergedWellFormed` | src/blob/handlers/PageBlobRangesManager.ts:72-114 | Merging keeps the list sorted, disjoint, and every chunk as long as its range |
| `PageRangeLaws.ClearedWellFormed` | src/blob/handlers/PageBlobRangesManager.ts:132-169 | Clearing keeps the list sorted, disjoint, and every chunk as long as its range |
| `PageRangeLaws.MergeIsPointUpdate` | src/blob/handlers/PageBlobRangesManager.ts:51-115 | After a merge every position of the interval points to its place in the new chunk, and every other position points where it did |
| `PageRangeLaws.ClearIsPointUpdate` | src/blob/handlers/PageBlobRangesManager.ts:117-170 | After a clear the positions of the interval point nowhere, every other position where it did |
| `PageRangeLaws.LookupRestrict` | src/blob/handlers/PageBlobRangesManager.ts:180-239 | The reference restriction points where the list points inside the interval and nowhere outside |
| `PageRangeLaws.ClearAddsAtMostOne` | src/blob/handlers/PageBlobRangesManager.ts:132-169 | A clear makes the list longer by at most one range |
| `PageRangeLaws.MergeAddsAtMostTwo` | src/blob/handlers/PageBlobRangesManager.ts:72-114 | An upload makes the list longer by at most two ranges |
| `PageReads.CutRanges` | src/blob/handlers/PageBlobRangesManager.ts:180-239 | The result is the exact restriction of the list to the interval, also when one range is cut at both ends; throws exactly like the selection |
| `PageReads.FillZeroRanges` | src/blob/handlers/PageBlobRangesManager.ts:241-313 | The cut ranges with one zero range in every hole, in order |
| `PageReads.FilledTiles` | src/blob/handlers/PageBlobRangesManager.ts:241-313 | The filled list is a contiguous tiling of [start, end] |
| `PageReads.FilledLookup` | src/blob/handlers/PageBlobRangesManager.ts:241-313 | Stored positions keep their pointer and every other position points into the zero extent |
| `PageReads.TilesCount` | src/blob/handlers/PageBlobRangesManager.ts:241-313 | The chunk counts of a tiling sum to end - start + 1 |
| `Extents.ReadExtent` | src/common/persistence/FSExtentStore.ts:331-380 | A chunk reads as exactly `count` bytes; the zero extent reads as zeros |
| `ExtentReads.ReadExtents` | src/common/persistence/FSExtentStore.ts:389-453 | The pieces read join to bytes [offset, offset + count) of the joined chunks, none reaches outside its chunk, and the payload error comes exactly when the total is short of offset + count |
| `AppendProtocol.SelectSlot` | src/common/persistence/FSExtentStore.ts:175-184 | The first idle slot from index 1 on, or slot 0 when all the others are appending |
| `AppendProtocol.SelectedIsIdle` | src/common/persistence/FSExtentStore.ts:104-107 | With fewer running appends than slots and no leaked slot, the selected slot is idle |
| `AppendProtocol.SelectedIsFree` | src/common/persistence/FSExtentStore.ts:104-107 | In a tidy state with room in the queue the selected slot is nobody's and its file ends at its offset, even when slot 0 was left marked by a failure |
| `AppendProtocol.StartInv` | src/common/persistence/FSExtentStore.ts:175-186 | Taking a slot keeps the protocol invariant |
| `AppendProtocol.OpenInv` | src/common/persistence/FSExtentStore.ts:193-248 | Rollover and opening the file keep the invariant |
| `AppendProtocol.WriteInv` | src/common/persistence/FSExtentStore.ts:268-268 | Bytes reaching the file keep the invariant: earlier chunks are not touched |
| `AppendProtocol.WrittenInv` | src/common/persistence/FSExtentStore.ts:268-270 | Advancing the slot's offset keeps the invariant |
| `AppendProtocol.RecordedInv` | src/common/persistence/FSExtentStore.ts:285-296 | Returning the chunk and freeing the slot keep the invariant, and the new chunk is disjoint from all earlier ones |
| `AppendProtocol.FailInv` | src/common/persistence/FSExtentStore.ts:297-315 | Truncating after a failed write, or a failed metadata update, keeps the invariant |
| `AppendProtocol.DeleteInv` | src/common/persistence/FSExtentStore.ts:466-491 | Deleting an inactive extent keeps the invariant |
| `AppendProtocol.OpenFailsCore` | src/common/persistence/FSExtentStore.ts:241-248 | An open that throws leaves its slot marked without an append, and everything else in order |
| `AppendProtocol.FailStuckCore` | src/common/persistence/FSExtentStore.ts:300-314 | A rollback in which close or truncate throws leaves its slot marked without an append and everything else in order; the bytes written so far stay behind the slot's offset |
| `AppendProtocol.HarmlessExactly` | src/common/persistence/FSExtentStore.ts:241-314 | The invariant survives an event if and only if it is no failure of an open, a close or a truncate, or one in slot 0 that leaves no bytes behind the slot's offset |
| `AppendProtocol.StepInv` | src/common/persistence/FSExtentStore.ts:168-322 | Every event, harmless failures included, keeps the invariant and forgets no returned chunk except those of a deleted extent |
| `AppendRuns.AppendsAreSafe` | src/common/persistence/FSExtentStore.ts:104-319 | Over every run whose failures are harmless: two running appends never share a slot, an idle slot's file is as long as its offset, returned chunks of one extent are disjoint and in order |
| `AppendRuns.ReturnedChunksStay` | src/common/persistence/FSExtentStore.ts:267-314 | Over every run whose failures are harmless a returned chunk reads as the appended payload until its extent is deleted |
| `AppendRuns.ExtentsStaySmall` | src/common/persistence/FSExtentStore.ts:193-224 | Over every run whose failures are harmless an extent outgrows the limit by less than the largest append |
| `AppendReturns.AppendReturnsItsPayload` | src/common/persistence/FSExtentStore.ts:168-296 | An append that is not ended by a failure returns, whatever else happens in between, a chunk that reads as the payload it was started with, and the recorded size becomes the length of the file |
| `AppendReturns.AppendsCanFinish` | src/common/persistence/FSExtentStore.ts:168-322 | In every state the invariant allows, an admitted append can run to its end without another append's help, and returns its payload |
| `AppendReturns.RollsOverExactly` | src/common/persistence/FSExtentStore.ts:193-224 | Opening leaves the extent if and only if its offset has reached the limit; the other extent is nobody's and empty, and either way the append starts where the file ends |
| `AppendReturns.SizesAreRecorded` | src/common/persistence/FSExtentStore.ts:279-286 | Over every run whose failures are harmless a size is on record exactly for the extents with a returned chunk, and it is the end of the chunk that reaches furthest |
| `AppendFailures.SafeExactly` | src/common/persistence/FSExtentStore.ts:168-322 | After any failures: all returned chunks read right over every later run if and only if no slot is left marked but slot 0, and that one with a file that ends at its offset |
| `AppendFailures.UntidyGoesWrong` | src/common/persistence/FSExtentStore.ts:177-186 | The failing family: from every other state some run without a further failure returns a chunk that does not read as its payload, by two appends in slot 0 or by stale bytes behind its offset |
| `AppendFailures.FailuresAreSafeExactly` | src/common/persistence/FSExtentStore.ts:168-322 | Over every run from the start with any failures: payloads are safe at every moment and whatever follows if and only if every failure of an open, a close or a truncate is harmless |
| `AppendRuns.ExclusionExactly` | src/common/persistence/FSExtentStore.ts:177-186 | No run lets two appends share a slot if and only if no slot other than slot 0 is marked as appending without an append |
| `AppendRuns.FailedOpenLetsAppendsCollide` | src/common/persistence/FSExtentStore.ts:241-248 | The failing input: after one failed open with two slots, two concurrent appends run in slot 0 |
| `FSExtentStores.FSExtentStore.constructor` | src/common/persistence/FSExtentStore.ts:81-109 | Fresh idle slots, one per allowed append |
| `FSExtentStores.FSExtentStore.Begin` | src/common/persistence/FSExtentStore.ts:175-186 | The loop over the slots does what the start event of the protocol does |
| `FSExtentStores.FSExtentStore.GetNewExtent` | src/common/persistence/FSExtentStore.ts:656-660 | The slot moves to an extent that no other slot and no file has, so that ids stay unique and its file ends at its offset; the status stays |
| `FSExtentStores.FSExtentStore.OpenExtent` | src/common/persistence/FSExtentStore.ts:193-248 | Rollover and open, also when open throws, are the protocol's events |
| `FSExtentStores.FSExtentStore.WriteBytes` | src/common/persistence/FSExtentStore.ts:268-268 | Bytes are appended to the slot's file only |
| `FSExtentStores.FSExtentStore.FinishWriting` | src/common/persistence/FSExtentStore.ts:268-278 | The offset advances by the payload and the chunk's offset is the one before |
| `FSExtentStores.FSExtentStore.Return` | src/common/persistence/FSExtentStore.ts:285-296 | The returned chunk, the recorded size and the freed slot are those of the protocol |
| `FSExtentStores.FSExtentStore.Rollback` | src/common/persistence/FSExtentStore.ts:297-315 | Truncates to the slot's offset and frees the slot, or does neither when close or truncate throws |
| `FSExtentStores.FSExtentStore.IsActive` | src/common/persistence/FSExtentStore.ts:622-630 | True exactly for the ids of the write slots |
| `FSExtentStores.FSExtentStore.DeleteExtents` | src/common/persistence/FSExtentStore.ts:462-494 | State and outcome of deleting a list of extents, with every unlink result and missing metadata |
| `ExtentDeletion.DeletesExactly` | src/common/persistence/FSExtentStore.ts:462-494 | Deleting distinct recorded ids removes exactly those that are inactive and whose unlink did not fail, file and metadata alike |
| `ExtentDeletion.StopsAtTheFirstMissing` | src/common/persistence/FSExtentStore.ts:462-494 | For any list, with repetitions and unknown ids, the error comes exactly at the first inactive id without metadata by then, and exactly the dead among the ids before it are gone |
| `ExtentDeletion.CountIsTheDeleted` | src/common/persistence/FSExtentStore.ts:454-494 | The returned number is the number of extents deleted if and only if no unlink failed with another error than a missing file |
| `PageBlob.ServeSimulates` | src/blob/persistence/LokiBlobMetadataStore.ts:2734-2970 | Every upload, clear, resize and store event with at most a harmless failure keeps the index in agreement, at every position, with a flat array that is defined from the requests alone: the last request that touches a position decides |
| `PageBlob.RunSimulates` | src/blob/persistence/LokiBlobMetadataStore.ts:2734-2970 | Every run of such requests does; the flat array knows neither the index nor the store |
| `PageBlob.CreatedSimulates` | src/blob/persistence/LokiBlobMetadataStore.ts:2734-2970 | From creation on, the index, the length and the stored bytes are what the flat array of the requests says |
| `PageBlob.ResizeMovesNothingElse` | src/blob/persistence/LokiBlobMetadataStore.ts:2959-2966 | After a resize the positions from the new length to the old one point nowhere, and every other position points where it did |
| `PageDownload.DownloadPageBlob` | src/blob/handlers/BlobHandler.ts:1149-1210 | The range error exactly for a start past the end or a ranged read of an empty blob; otherwise exactly the bytes the index points to, cut at the end of the blob, and never a payload error |
| `PageDownload.DownloadIsFlat` | src/blob/handlers/BlobHandler.ts:1192-1208 | After any run whose store failures are harmless, downloading [a, b] gives at each position the byte of the last upload that covers it, or zero if none does or a clear or shrink came later, as computed from the requests alone |
| `PageDownload.DownloadFlat` | src/blob/handlers/BlobHandler.ts:1138-1210 | In every state such a run reaches, the handler's download refuses exactly a start past the end or a ranged read of an empty blob, and otherwise serves exactly the bytes of that flat array in the requested interval, cut at the end of the blob |
| `PageDownload.PageRangesAreUploads` | src/blob/handlers/PageBlobHandler.ts:379-386 | After any run, the reported page ranges cover exactly the positions that the requests say hold an uploaded byte |
| `PageDownload.IndexStaysSmallAndAligned` | src/blob/handlers/PageBlobHandler.ts:179-220 | After any run every range starts on a multiple of 512 and ends just before one, and m uploads with c clears leave at most 2m + c ranges |
| `PageDownload.TailEmptyExactly` | src/blob/handlers/PageBlobHandler.ts:222-225 | A request keeps the index empty past the end of the blob if and only if it is not an upload that runs past the length the blob has when the upload is stored |
| `PageDownload.TailAlwaysEmptyExactly` | src/blob/handlers/PageBlobHandler.ts:216-248 | Over every run from creation the index is empty past the end of the blob at every moment if and only if no upload overruns the length at its commit |
| `PageDownload.OverrunResurfaces` | src/blob/handlers/PageBlobHandler.ts:216-225 | The failing family: bytes uploaded across or past the end are shown by a later resize |
| `PageDownload.LateCommitResurfaces` | src/blob/handlers/PageBlobHandler.ts:216-248 | A failing family: an upload that lies inside the blob when the handler looks, a shrink while its append is awaited, the commit and a growth show its bytes |
| `RangeHeaders.RangeRoundTrip` | src/blob/authentication/IRange.ts:36-48 | The printed header, in either header field (the service's own one wins over any other), parses back to [offset, offset + count - 1], or to the open range without a count or with count zero; printing fails exactly for a negative offset or count |
| `RangeHeaders.AbsentExactly` | src/blob/utils/utils.ts:41-50 | No interval is asked for exactly when both headers are missing or empty |
| `RangeHeaders.RejectedShape` | src/blob/utils/utils.ts:50-62 | A header without exactly one equals sign, or with a second dash behind it, is rejected |
| `RangeHeaders.AcceptedShape` | src/blob/utils/utils.ts:50-78 | Any other header gives the numbers at its two ends, open if the last is left out, and is rejected exactly when the first exceeds the last |
| `RangeHeaders.ParseIntReads` | src/blob/utils/utils.ts:64-69 | Reading a number skips spaces, takes a sign and all digits, and ignores the rest |
| `RangeHeaders.LeadingDigitCounts` | src/blob/utils/utils.ts:64-69 | A leading digit counts for its power of ten: digits are decimal and in order |
| `RangeHeaders.SplitJoins` | src/blob/utils/utils.ts:50-56 | The parts of a split header joined by the separator are the header |
| `RangeHeaders.IntervalInOrder` | src/blob/utils/utils.ts:41-78 | Whatever parses starts at NaN or a number from zero on, and is in order |
| `RangeHeaders.DeserializePage` | src/blob/utils/utils.ts:91-117 | The interval the header asks for, with both its ends, or everything without a header; refused exactly when the header does not parse or, if the boundary is forced, an end is off it |
| `BlockDownload.DownloadBlockBlobOrAppendBlob` | src/blob/handlers/BlobHandler.ts:998-1074 | Not found exactly when uncommitted; the range error exactly for a start past the end or a ranged read of an empty blob; otherwise exactly the requested bytes cut at the end, on the single-chunk and the block-list path, never a payload error; for an interval with NaN a block list is read from the start, if that is a number, to its end, and a single chunk's stream is refused |
| `BlockDownload.GetBody` | src/blob/handlers/BlobHandler.ts:1049-1074 | Both body getters deliver exactly bytes [rangeStart, rangeEnd] of the stored payload |
| `BlockDownload.DownloadInterval` | src/blob/handlers/BlobHandler.ts:998-1074 | A client that prints [offset, offset + count - 1] gets exactly bytes [offset, min(offset + count, n)) |
| `BlockDownload.DownloadAll` | src/blob/handlers/BlobHandler.ts:998-1074 | Without a header, or with one that is no range, exactly the whole payload |
| `PageHandler.GuardUpload` | src/blob/handlers/PageBlobHandler.ts:179-225 | An upload passes exactly when its length is a multiple of 512, the header is a closed interval of that length, aligned, and starts inside the blob |
| `PageHandler.GuardClear` | src/blob/handlers/PageBlobHandler.ts:277-314 | A clear passes exactly with length 0 and no header on a non-empty blob, or an aligned interval, open or closed, that starts inside the blob; without a header it clears to Infinity |
| `PageHandler.ServeUpload` | src/blob/handlers/PageBlobHandler.ts:179-248 | Exactly the uploads that pass the guards against the length fetched are stored, at the place their header names, whatever happened to the blob in between; each is one of the modelled requests, so the run theorems apply to the handler |
| `PageHandler.ServeClear` | src/blob/handlers/PageBlobHandler.ts:277-324 | Exactly the clears that pass the guards against the length fetched are carried out, on the interval of their header or on everything without one; each is one of the modelled requests |
| `PageHandler.GetPageRanges` | src/blob/handlers/PageBlobHandler.ts:365-386 | The errors exactly for a header that does not parse or a start at or past the end; otherwise the exact restriction of the index to the interval parsed from the header, or to everything without one, and nothing for an interval with a position that is not a number |
| `PageHandler.ServeDownload` | src/blob/handlers/BlobHandler.ts:1144-1210 | The header error, the range error and the failing stream of an interval with NaN, each exactly; otherwise exactly the bytes the index points to, from the start parsed to the end parsed or the end of the blob |
| `PageHandler.DownloadInterval` | src/blob/handlers/BlobHandler.ts:1144-1210 | A client that prints (offset, count) into either header is served exactly the positions from offset up to offset + count, or up to the end of the blob |
| `PageHandler.DownloadAll` | src/blob/handlers/BlobHandler.ts:1144-1210 | Without a header, or with an empty one, exactly the positions of the whole blob |
| `PageHandler.RangesOfInterval` | src/blob/handlers/PageBlobHandler.ts:365-386 | A client that prints (offset, count) gets exactly the stored ranges cut to [offset, offset + count - 1] |
| `PageHandler.UploadInterval` | src/blob/handlers/PageBlobHandler.ts:179-248 | A printed upload is stored exactly when offset and count are on page boundaries, the payload has that count and the offset is inside the blob fetched |
| `PageHandler.ClearInterval` | src/blob/handlers/PageBlobHandler.ts:277-324 | A printed clear is carried out under the same conditions, without a payload, on exactly that interval |
| `PageHandler.ServeResize` | src/blob/handlers/PageBlobHandler.ts:410-436 | A resize passes exactly to a page boundary, and is then one of the modelled requests |
| `Names.SharedPrefixIsContiguous` | src/blob/persistence/PageWithDelimiter.ts:111-126 | In lexicographic order every name between two names with a common beginning has that beginning |
| `Names.LessExactly` | src/blob/persistence/PageWithDelimiter.ts:111-115 | A name is smaller exactly when it ends, or has the smaller character, at the first place where the two differ |
| `Listing.IndexOf` | src/blob/persistence/PageWithDelimiter.ts:117-120 | The first occurrence of the delimiter from a place on, or none when there is none |
| `Listing.SquashExactly` | src/blob/persistence/PageWithDelimiter.ts:116-126 | A name is shown plain exactly when the delimiter does not occur from the prefix length on, and under p exactly when p ends with the first character of the first such occurrence |
| `Listing.BlobsExactly` | src/blob/persistence/PageWithDelimiter.ts:116-126 | A list shows as blobs exactly the documents with plain names, each as often as it is there |
| `Listing.PrefixesExactly` | src/blob/persistence/PageWithDelimiter.ts:116-126 | A list shows as prefixes exactly those under which one of its names is grouped |
| `Listing.SquashedIsContiguous` | src/blob/persistence/PageWithDelimiter.ts:116-126 | Names squashed into one prefix are contiguous, for a delimiter of any length |
| `Listing.PrefixStandsForItsNames` | src/blob/persistence/PageWithDelimiter.ts:116-126 | A reported prefix stands for exactly the names that start with it if and only if the delimiter is one character long |
| `Listing.LongDelimiterSharesAPrefix` | src/blob/persistence/PageWithDelimiter.ts:116-126 | The failing input: with delimiter ab the name xab1 is reported as prefix xa, and the plain blob xac beside it starts with xa as well |
| `Listing.NothingReturnsAfterABlob` | src/blob/persistence/PageWithDelimiter.ts:59-73 | After a plain name no prefix of the page can come back, so exhausting the page there loses nothing |
| `Listing.PageLengthIs` | src/blob/persistence/PageWithDelimiter.ts:162-182 | The page length is the only cut within the limit that cannot be extended |
| `Listing.PageWithDelimiter.constructor` | src/blob/persistence/PageWithDelimiter.ts:29-38 | An empty page that is neither full nor exhausted |
| `Listing.PageWithDelimiter.AddItem` | src/blob/persistence/PageWithDelimiter.ts:59-73 | A blob is taken unless the page is full or exhausted, and exhausts the page it fills |
| `Listing.PageWithDelimiter.AddPrefix` | src/blob/persistence/PageWithDelimiter.ts:78-93 | A prefix is taken unless the page is exhausted, or full and the prefix is new, which exhausts it |
| `Listing.PageWithDelimiter.Add` | src/blob/persistence/PageWithDelimiter.ts:107-135 | Blobs, prefixes and marker stay those of the documents taken; a document is refused exactly when the page is exhausted, or full and it would open an entry; the error exactly for a name below the marker |
| `Listing.PageWithDelimiter.ProcessList` | src/blob/persistence/PageWithDelimiter.ts:140-149 | Takes a beginning of a sorted list without error; a remainder means its first document would open one entry too many |
| `Listing.PageWithDelimiter.Fill` | src/blob/persistence/PageWithDelimiter.ts:162-182 | Over all batch reads: exactly the longest beginning of the sorted documents that fits the page; of these, the blobs are exactly those whose name has no delimiter behind the prefix, the prefixes exactly the names cut after the first character of the first delimiter behind it, and without a delimiter there are none |
| `ListingLaws.ListBlobs` | src/blob/persistence/LokiBlobMetadataStore.ts:901-971 | A request shows exactly the plain names and the groups of the documents past its marker that fit the page, and has no marker exactly when that is all of them |
| `ListingLaws.ResumesExactly` | src/blob/persistence/LokiBlobMetadataStore.ts:934-936 | A marker resumes exactly behind the documents taken if and only if none are left or the next one has another name |
| `ListingLaws.FollowingListsEverything` | src/blob/persistence/PageWithDelimiter.ts:162-182 | A client that sends back each page's marker until one is empty is shown every prefix in order on exactly one page, and the blobs of the one-pass listing if and only if no page ends between two documents of one name; otherwise strictly fewer |
| `ListingLaws.PagesAreTheOnePassListing` | src/blob/persistence/PageWithDelimiter.ts:162-182 | For distinct names, any delimiter and any page size from 1 on, following markers from the start gives the one-pass listing, nothing twice |
| `ListingDescent.WalkVisitsEverythingOnce` | src/blob/persistence/LokiBlobMetadataStore.ts:901-971 | A client that lists under a prefix page by page, and then under each prefix reported, is shown every document under the first prefix exactly once and no other, at any page size, for distinct names and a delimiter of one character |
| `ListingLaws.PagesAreFull` | src/blob/persistence/PageWithDelimiter.ts:162-182 | No page is over its limit, every page but the last is full and has a marker, the last has none |
| `ListingLaws.Shrinks` | src/blob/persistence/PageWithDelimiter.ts:176-181 | Each marker leaves strictly less to list, so the chain of pages ends |
| `ExtentListing.LokiExtentMetadataStore.constructor` | src/common/persistence/LokiExtentMetadataStore.ts:126-138 | An empty collection |
| `ExtentListing.LokiExtentMetadataStore.UpdateExtent` | src/common/persistence/LokiExtentMetadataStore.ts:126-138 | Inserts behind all others with a new key and without the queried modification time, or gives the first document of the id a new size and time; all other documents and their sizes stay |
| `ExtentListing.LokiExtentMetadataStore.DeleteExtent` | src/common/persistence/LokiExtentMetadataStore.ts:196-199 | Exactly the documents of that id go |
| `ExtentListing.PageIs` | src/common/persistence/LokiExtentMetadataStore.ts:151-187 | A page is sorted, past its marker, complete up to the next one, and has one exactly when it is full |
| `ExtentListing.WrittenIsEligibleExactly` | src/common/persistence/LokiExtentMetadataStore.ts:126-174 | The document just written is eligible for a listing if and only if it was inserted, or its new time is old enough |
| `ExtentListing.AllExtentsAsyncIterator.constructor` | src/common/persistence/AllExtentsAsyncIterator.ts:18-20 | Starts before the first document |
| `ExtentListing.AllExtentsAsyncIterator.Next` | src/common/persistence/AllExtentsAsyncIterator.ts:22-44 | One page of the collection as it is at the call, and done once a page comes without a marker |
| `ExtentListing.EnumeratesAtMostOnce` | src/common/persistence/AllExtentsAsyncIterator.ts:22-44 | Whatever is inserted or deleted between the calls, keys are visited in increasing order, none twice |
| `ExtentListing.EnumeratesExactlyOnce` | src/common/persistence/AllExtentsAsyncIterator.ts:22-44 | A document that is present and eligible at every call is visited exactly once by an enumeration that finishes |
| `ExtentListing.EnumeratesOnlyWhatIsThere` | src/common/persistence/AllExtentsAsyncIterator.ts:22-44 | Only documents that were present and eligible at some call are visited |
| `ExtentListing.EnumerationEnds` | src/common/persistence/AllExtentsAsyncIterator.ts:22-44 | Once no new keys are handed out, the enumeration finishes within as many calls as pages of keys |
| `ExtentListing.ExtentPagesList` | src/common/persistence/AllExtentsAsyncIterator.ts:22-44 | While nothing changes, the pages are together the eligible documents in key order |
| `BlobReferences.CollectDoc` | src/blob/persistence/BlobReferredExtentsAsyncIterator.ts:67-75 | The loops push the ids of all committed blocks, page ranges and the single chunk of a blob |
| `BlobReferences.DocIdsExactly` | src/blob/persistence/BlobReferredExtentsAsyncIterator.ts:67-75 | The ids collected from a document are exactly those of the chunks it uses |
| `BlobReferences.BlobReferredExtentsAsyncIterator.constructor` | src/blob/persistence/BlobReferredExtentsAsyncIterator.ts:21-29 | Starts in the blob-listing state |
| `BlobReferences.BlobReferredExtentsAsyncIterator.Next` | src/blob/persistence/BlobReferredExtentsAsyncIterator.ts:31-109 | One page of references and the move to the next of the three states |
| `ReferenceLaws.BlobsEnumeratedExactly` | src/blob/persistence/LokiBlobMetadataStore.ts:973-1009 | The paged enumeration of blobs is complete if and only if no page ends between two documents of one name |
| `ReferenceLaws.LastSnapshotIsMissed` | src/blob/persistence/LokiBlobMetadataStore.ts:981-1009 | The failing family: of a blob with one snapshot more than a page holds, the last extent is never visited |
| `ReferenceLaws.BlocksEnumerated` | src/blob/persistence/LokiBlobMetadataStore.ts:3079-3100 | The paged enumeration of uncommitted blocks is complete for any page size |
| `ReferenceLaws.BlockPageIs` | src/blob/persistence/LokiBlobMetadataStore.ts:3079-3100 | A page of blocks has a marker, that of its last block, exactly when it leaves a later block out, and is then full |
| `ReferenceLaws.TakeIsNext` | src/blob/persistence/BlobReferredExtentsAsyncIterator.ts:31-109 | Each call returns the first of the values to come and leaves the others |
| `ReferenceLaws.EveryReferenceIsVisited` | src/blob/persistence/BlobReferredExtentsAsyncIterator.ts:31-109 | When no page of blobs splits a name, the iterator returns exactly the references of all blobs, snapshots and uncommitted blocks |
| `ReferenceLaws.VisitedIsReferenced` | src/blob/persistence/BlobReferredExtentsAsyncIterator.ts:31-109 | Whatever the pages split, the iterator returns nothing but references |
| `BlobGC.BlobGCManager.GetAllExtents` | src/blob/gc/BlobGCManager.ts:251-267 | If the manager is still running afterwards, exactly the ids on all pages of extents; running is decided by the awaits before close |
| `BlobGC.BlobGCManager.Mark` | src/blob/gc/BlobGCManager.ts:223-234 | What is left of the listed ids after dropping the pages of references read before close |
| `BlobGC.BlobGCManager.MarkSweep` | src/blob/gc/BlobGCManager.ts:210-249 | Nothing happens if close arrives while extents are listed; otherwise the sweep deletes what is listed and not on a page of references read, however many that are |
| `GCLaws.SweepDeletesExactly` | src/blob/gc/BlobGCManager.ts:239-244 | After any number of pages of references, a file goes if and only if it is listed, on none of those pages, inactive and can be unlinked; all others keep their bytes |
| `GCLaws.SweepIsSafeExactly` | src/blob/gc/BlobGCManager.ts:210-249 | No file that a blob, snapshot, page range or uncommitted block refers to is lost if and only if every referenced extent the sweep could delete is on a page of references it has read; this covers an early close and pages that split a name |
| `GCLaws.SafeWhateverUnlinks` | src/blob/gc/BlobGCManager.ts:210-249 | However the unlinking goes, no referenced file is lost, if and only if every referenced extent that is listed and inactive is on a page of references read |
| `GCLaws.CollectsExactlyTheGarbage` | src/blob/gc/BlobGCManager.ts:210-249 | What goes is exactly what is listed, unreferenced, inactive and can be unlinked, under the same condition and only then |
| `GCLaws.CompleteMarkingMarksAll` | src/blob/gc/BlobGCManager.ts:223-234 | The condition is met when marking is completed and no page of blobs splits a name |
| `GCLaws.ReferencedExactly` | src/blob/persistence/BlobReferredExtentsAsyncIterator.ts:31-109 | The ids of the blobs and blocks are exactly the extents that some chunk in use is in |
| `GCLaws.ChunkReadsTheSame` | src/blob/gc/BlobGCManager.ts:210-249 | A readable chunk reads the same before and after if and only if the sweep does not delete the extent its bytes are in |
| `GCLaws.ContentStays` | src/blob/gc/BlobGCManager.ts:210-249 | When the condition is met, every list of chunks in use joins to the same payload before and after, hence every blob |
| `GCLaws.BlockBlobStays` | src/blob/gc/BlobGCManager.ts:210-249 | So a block or append blob that could be downloaded still can, with the same content |
| `GCLaws.ClosingLosesABlob` | src/blob/gc/BlobGCManager.ts:239-244 | A failing input: closing right after the extents are listed deletes the extent of the only blob, in a store as a restart leaves it |
| `GCLaws.SplitNameLosesASnapshot` | src/blob/gc/BlobGCManager.ts:239-244 | A failing input: with marking completed, the extent of the last snapshot of a name that fills a page is deleted |
| `ExtentMirror.RunMirrors` | src/common/persistence/LokiExtentMetadataStore.ts:126-199 | Over every run of the store, with any failures, the extent collection and the store agree on which extents there are and how long they are |
| `GCLaws.RecordedOverRuns` | src/common/persistence/FSExtentStore.ts:474-474 | Over every run of the store each listed document has the metadata that deletion asks for |
| `PageCollection.SweepIsServed` | src/blob/gc/BlobGCManager.ts:239-244 | A sweep that has marked what it had to is a run of deletions the page blob model serves |
| `PageCollection.FlatAcrossCollections` | src/blob/gc/BlobGCManager.ts:210-249 | After any run and a sweep that has marked what it had to, a page blob downloads as the same flat array as before it |
| `LeaseLaws.AgeingIsConfluent` | src/blob/lease/LeaseFactory.ts:11-62 | Building at t1, storing and rebuilding at t2 gives the lease built at t2 alone |
| `LeaseLaws.HandleWellFormed` | src/blob/lease/LeaseFactory.ts:11-62 | A request keeps the stored lease well formed, and hits an internal RangeError if and only if it breaks an infinite lease with a negative period |
| `LeaseLaws.NegativeBreakThrows` | src/blob/lease/LeaseLeasedState.ts:131-170 | The failing family: any negative period on a lease acquired with duration -1 |
| `LeaseIdeal.HandleAsIdeal` | src/blob/lease/LeaseFactory.ts:11-62 | One request, on a lease stored at any earlier time: the answer, with its error, and the stored result are those of a lease that has no expired, breaking and broken states and is never aged, only a holder, a start and an end on the clock |
| `LeaseIdeal.LeasesAreIdeal` | src/blob/lease/LeaseFactory.ts:11-62 | The refinement over runs: every answer to every request, errors included, is the ideal lease's, with any observations and whatever a store keeps of an ageing, for times that do not go back |
| `LeaseIdeal.StoredLeasesAreIdeal` | src/blob/lease/LeaseFactory.ts:11-62 | So it is from every well-formed lease, and a blob without one starts free |
| `LeaseIds.LowerCaseExactly` | src/blob/lease/BlobWriteLeaseValidator.ts:24-29 | Ids are compared up to the case of ASCII letters and of nothing else |
| `LeaseRuns.ReachableLeases` | src/blob/lease/LeaseLeasedState.ts:18-86 | Over every run the stored lease is well formed, and with break periods from 0 on no internal error is reachable |
| `LeaseRuns.ObservationsDoNotMatter` | src/blob/lease/BlobLeaseSyncer.ts:7-16 | Extra observations, and whether a refused request stores the ageing, never change the answer to any other request of a run |
| `LeaseRuns.HeldAgainstStrangers` | src/blob/lease/LeaseLeasedState.ts:222-294 | While a lease is held, any run of requests without the holder's id and without breaks, mixed with the holder's own writes, leaves it unchanged; the writes are accepted and each of the others is refused with the error of its kind |
| `LeaseRuns.AcquireExcludes` | src/blob/lease/LeaseLeasedState.ts:88-130 | From a successful acquire, under the proposed id or a new one, until its expiry: no stranger's request or write succeeds, the holder's writes all do, and none of them changes state, id or expiry |
| `LeaseRuns.DeadlineNeverLater` | src/blob/lease/LeaseBreakingState.ts:86-173 | From the first break on, no run without a successful acquire moves the end of the lock later |
| `LeaseRuns.BreakEndsTheLock` | src/blob/lease/LeaseLeasedState.ts:131-220 | From a first break on the lock ends by the break deadline, which for a fixed lease is at or before its expiry |
| `LeaseRuns.WriteGivesUpTheLease` | src/blob/lease/BlobWriteLeaseSyncer.ts:18-49 | After a write is accepted on an expired or broken lease, renew, change, break and release fail with any id over every run, until an acquire succeeds |
| `LeaseLocks.WriteAcceptedExactly` | src/blob/lease/BlobWriteLeaseValidator.ts:14-39 | A write is accepted exactly when the blob is locked and it carries the lease's id in any case, or when it is not locked and it carries none; it keeps a lease that locks and gives up any other |
| `LeaseLocks.AcquireSucceedsExactly` | src/blob/lease/LeaseLeasedState.ts:88-104 | An acquire succeeds exactly with a valid duration, on a blob that is not locked or under the id that holds it |
| `LeaseLocks.AcquireLocksExactly` | src/blob/lease/LeaseAvailableState.ts:99-135 | After an acquire, other ids can acquire and writes without an id are accepted from the end of the duration on, and not a moment before |
| `LeaseLocks.RenewSucceedsExactly` | src/blob/lease/LeaseExpiredState.ts:199-215 | A renewal succeeds exactly for the holder of a lease that still locks, or for anyone on one that has expired, stored as such or not |
| `LeaseLocks.BreakEndsTheLease` | src/blob/lease/LeaseExpiredState.ts:184-197 | Exactly which breaks are accepted, in every state; each keeps the id, and one of a lease that no longer locks breaks it at once, with any period |
| `LeaseLocks.BreakIsFinal` | src/blob/lease/LeaseBrokenState.ts:177-197 | After an accepted break of a running, breaking, expired or broken lease, over every run up to the next successful acquire each renewal and change is refused and only the id on record releases |
| `LeaseLocks.BreakUnlocksExactly` | src/blob/lease/LeaseLeasedState.ts:131-220 | Which break periods a running lease accepts, and that writes without an id are accepted exactly from the break deadline on |
| `LeaseLocks.ChangeHandsOver` | src/blob/lease/LeaseLeasedState.ts:251-273 | A change succeeds exactly on a lease that locks and is not breaking, for the old or the new id; the end stays, the new id can renew, and the old one is a stranger over every later run |
| `LeaseStore.BlobDoc.constructor` | src/blob/lease/BlobLeaseAdapter.ts:18-40 | A blob without lease fields adapts to the available lease |
| `LeaseStore.AdaptBlob` | src/blob/lease/BlobLeaseAdapter.ts:18-40 | The defaults are filled in on the blob itself and the lease record copied |
| `LeaseStore.SyncLease` | src/blob/lease/BlobLeaseSyncer.ts:7-16 | All seven stored fields become those of the lease |
| `LeaseStore.SyncWrite` | src/blob/lease/BlobWriteLeaseSyncer.ts:18-49 | A write stores the lease, or the available state when the lease has run out |
| `LeaseStore.HandleRequest` | src/blob/persistence/LokiBlobMetadataStore.ts:1531-1590 | Look-up, adaptation, factory, operation or validation and sync on a stored blob do what the request function says |
| `Mutexes.Mutex.constructor` | src/common/Mutex.ts:56-57 | No key is locked |
| `Mutexes.Mutex.Lock` | src/common/Mutex.ts:24-36 | Resolves at once on a free key, otherwise queues a callback behind the others; the answer says which |
| `Mutexes.Mutex.Unlock` | src/common/Mutex.ts:46-54 | Defers the first callback, if any, and frees the key; on a key that is not locked nothing happens to the others |
| `Mutexes.Mutex.Fire` | src/common/Mutex.ts:70-72 | The oldest deferred callback locks its key and resolves its caller |
| `Mutexes.Mutex.OnUnlockEvent` | src/common/Mutex.ts:59-65 | The callback goes to the end of the key's list |
| `Mutexes.Mutex.EmitUnlockEvent` | src/common/Mutex.ts:67-74 | The first callback of the key is deferred; without one nothing changes |
| `MutexLaws.WaitersServedInOrder` | src/common/Mutex.ts:24-74 | To somebody who sees only the calls and which promises resolve: over every run the waiters resolved are the first that were not resolved at once, each once and in arrival order, and waiters left behind imply a holder or a pending hand-over |
| `MutexLaws.EveryWaiterIsServed` | src/common/Mutex.ts:24-74 | Once lock calls stop, every schedule spends at most a computable number of steps on a key, and when none is left every waiter has been resolved |
| `MutexLaws.ExclusionExactly` | src/common/Mutex.ts:24-74 | Mutual exclusion: a key has at most one holder throughout a run if and only if no deferred callback of the key fires while the key is locked, which is what the callback does not check |
| `MutexLaws.NoBargingSuffices` | src/common/Mutex.ts:46-72 | Enough for that: no lock call falls between a handing-over unlock and its deferred firing; and exactly then holders and hand-overs on their way are never more than one |
| `MutexLaws.BargingLetsTwoIn` | src/common/Mutex.ts:51-72 | The failing family: a lock call in between, followed by the firing, makes two holders |
| `MutexLaws.TwoHolders` | src/common/Mutex.ts:24-74 | A concrete run with two holders |

## Left out

- BlockDownload.DownloadBlockBlobOrAppendBlob: that a file stream refuses to open at a position that is not a number is an assumption about the runtime, and so is that a zero stream without a numeric length fails, in `PageHandler.ServeDownload`.
- PageDownload.DownloadPageBlob: takes an interval of numbers; `PageHandler.ServeDownload` starts from the header.
- Mutexes.Mutex.Unlock: the source does not know who unlocks; the model takes an unlock to come from a holder of the key whenever there is one.
- PageBlob.ServeSimulates: store events with a failure that is not harmless are not served, nor in the run theorems built on it (`RunSimulates`, `DownloadIsFlat`, `DownloadFlat`, `PageRangesAreUploads`, `IndexStaysSmallAndAligned`); `AppendFailures.FailuresAreSafeExactly` shows that this is the exact condition for payloads to be safe. Nor is an upload whose extent the collector deletes before the upload is stored.
- LeaseIdeal.LeasesAreIdeal: request times do not go back; a store that keeps an ageing would otherwise answer an earlier request as if the lease had already ended. The laws of `LeaseRuns` on held and broken leases are for any times.
- BlobGC.BlobGCManager.MarkSweep: the metadata does not change during one collection; commits between the listing of blobs and of blocks are not modelled.
- The loop that repeats collections and sleeps in between, starting and closing providers, and the events they emit.
- The SQL metadata stores; the model follows the in-memory database, as a collection ordered by its key.
- Ordering of names by UTF-16 code units where it differs from the order of characters, and the in-memory database's special treatment of names that look like numbers in its simple sort.
- File descriptors, streams, back pressure, flushing and several storage locations: an append writes all its bytes, or some and then fails.
- Conditional headers, sequence numbers, checksums and the building of responses.
- Lease times are whole milliseconds and durations whole seconds; requests carry a time; case folding of lease ids is for ASCII letters.
- Leases of containers, read validators, and the filter page for tags: simpler copies of what is modelled.
- Numbers beyond the safe integer range, and Unicode white space before a number in a header.
- Authentication, shared access signatures, cross-origin rules, batch parsing, telemetry and configuration.
