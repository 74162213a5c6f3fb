/** Downloads and range queries of a page blob, against the flat array. */
module PageDownload {
  import opened Extents
  import opened ExtentReads
  import opened PageRanges
  import opened PageRangeLaws
  import opened PageReads
  import opened AppendProtocol
  import opened AppendRuns
  import opened PageBlob

  /** The byte a pointer stands for. */
  function PointedByte(files: Files, ptr: Pointer): Byte {
    if ptr.In? && ptr.id.Uuid? && ptr.id in files && 0 <= ptr.offset < |files[ptr.id]|
    then files[ptr.id][ptr.offset] else 0
  }

  lemma {:induction false} LookupAt(rs: seq<PageRange>, i: nat, p: int)
    requires WellFormed(rs) && i < |rs| && Covers(rs[i], p)
    ensures Lookup(rs, p) == PointerIn(rs[i], p)
  {
    if i > 0 {
      assert rs[0].end < rs[i].start;
      LookupAt(rs[1..], i - 1, p);
    }
  }

  lemma {:induction false} LookupFinds(rs: seq<PageRange>, p: int)
    ensures Lookup(rs, p) != Nowhere <==> exists i :: 0 <= i < |rs| && Covers(rs[i], p)
  {
    if rs != [] {
      LookupFinds(rs[1..], p);
      if i :| 0 <= i < |rs[1..]| && Covers(rs[1..][i], p) {
        assert Covers(rs[i + 1], p);
      }
      if i :| 0 < i < |rs| && Covers(rs[i], p) {
        assert Covers(rs[1..][i - 1], p);
      }
    }
  }

  /** The payload of a tiling is the pointed-to byte at every position. */
  lemma {:induction false} TilesBytes(files: Files, ts: seq<PageRange>, start: int, end: int)
    requires Tiles(ts, start, end) && AllReadable(files, Chunks(ts))
    ensures |Joined(files, Chunks(ts))| == end - start + 1
    ensures forall p :: start <= p <= end ==>
      Joined(files, Chunks(ts))[p - start] == PointedByte(files, Lookup(ts, p))
  {
    if ts != [] {
      var chunks := Chunks(ts);
      assert chunks[1..] == Chunks(ts[1..]);
      assert chunks[0] in chunks;
      TilesBytes(files, ts[1..], ts[0].end + 1, end);
      var first, rest := ReadExtent(files, chunks[0]), Joined(files, chunks[1..]);
      var n := ts[0].end - start + 1;
      forall p | start <= p <= end
        ensures (first + rest)[p - start] == PointedByte(files, Lookup(ts, p))
      {
        if p - start >= n {
          assert (first + rest)[p - start] == rest[p - start - n];
        }
      }
    }
  }

  ghost predicate RangesReadable(files: Files, rs: seq<PageRange>) {
    forall i :: 0 <= i < |rs| ==>
      rs[i].chunk.id.Uuid? && rs[i].chunk.id in files
      && rs[i].chunk.offset + rs[i].chunk.count <= |files[rs[i].chunk.id]|
  }

  lemma {:induction false} CutReadable(files: Files, rs: seq<PageRange>, lo: int, hi: Bound)
    requires RangesReadable(files, rs) && forall i :: 0 <= i < |rs| ==> ValidRange(rs[i])
    ensures RangesReadable(files, Restrict(rs, lo, hi))
  {
    if rs != [] {
      CutReadable(files, rs[1..], lo, hi);
    }
  }

  lemma {:induction false} FilledReadable(files: Files, cuts: seq<PageRange>, start: int, end: int)
    requires RangesReadable(files, cuts)
    ensures AllReadable(files, Chunks(Filled(cuts, start, end)))
  {
    var filled := Filled(cuts, start, end);
    if cuts != [] {
      var rest := Filled(cuts[1..], cuts[0].end + 1, end);
      FilledReadable(files, cuts[1..], cuts[0].end + 1, end);
      forall i | 0 <= i < |filled| ensures Readable(files, filled[i].chunk) {
        var n := |filled| - |rest|;
        if i >= n {
          assert filled[i] == rest[i - n];
          assert Chunks(rest)[i - n] in Chunks(rest);
        }
      }
    }
  }

  /** What FillZeroRanges and readExtents deliver together, for any readable index. */
  lemma FilledBytes(files: Files, rs: seq<PageRange>, start: int, end: int)
    requires WellFormed(rs) && RangesReadable(files, rs) && 0 <= start <= end
    ensures var chunks := Chunks(Filled(Restrict(rs, start, At(end)), start, end));
      && AllReadable(files, chunks)
      && |Joined(files, chunks)| == end - start + 1
      && forall p :: start <= p <= end ==> Joined(files, chunks)[p - start] == PointedByte(files, Lookup(rs, p))
  {
    var cuts := Restrict(rs, start, At(end));
    var filled := Filled(cuts, start, end);
    RestrictWellFormed(rs, start, At(end));
    CutReadable(files, rs, start, At(end));
    FilledReadable(files, cuts, start, end);
    FilledTiles(cuts, start, end);
    TilesBytes(files, filled, start, end);
    forall p | start <= p <= end
      ensures PointedByte(files, Lookup(filled, p)) == PointedByte(files, Lookup(rs, p))
    {
      FilledLookup(cuts, start, end, p);
      LookupRestrict(rs, start, At(end), p);
    }
  }

  // ----- The download handler -----

  datatype Download = Body(pieces: seq<Chunk>, start: int, end: int) | InvalidPageRange | BodyFailed

  /** Last position served: the request's end, shifted back to the end of the blob. */
  function LastServed(contentLength: nat, rangeEnd: Bound): int {
    if rangeEnd.At? && rangeEnd.position + 1 < contentLength then rangeEnd.position else contentLength - 1
  }

  method DownloadPageBlob(files: Files, ranges: seq<PageRange>, contentLength: nat, rangeStart: nat, rangeEnd: Bound)
    returns (result: Download)
    requires WellFormed(ranges) && RangesReadable(files, ranges) && UpTo(rangeStart, rangeEnd)
    ensures result.InvalidPageRange?
       <==> rangeStart > contentLength || (contentLength == 0 && rangeEnd.At? && rangeEnd.position != 0)
    ensures !result.BodyFailed?
    ensures result.Body? ==>
      && result.start == rangeStart && result.end == LastServed(contentLength, rangeEnd)
      && result.start <= result.end + 1
      && AllReadable(files, result.pieces)
      && |Joined(files, result.pieces)| == result.end - result.start + 1
      && forall p :: rangeStart <= p <= result.end ==>
           Joined(files, result.pieces)[p - rangeStart] == PointedByte(files, Lookup(ranges, p))
  {
    var end := rangeEnd;
    if rangeStart > contentLength {
      return InvalidPageRange;
    }
    if end.Infinity? || end.position + 1 >= contentLength {
      if contentLength == 0 && end.At? && end.position != 0 {
        return InvalidPageRange;
      }
      end := At(contentLength - 1);
    }
    var count := end.position - rangeStart + 1;
    var filled: seq<PageRange> := [];
    if count > 0 {
      filled := FillZeroRanges(ranges, rangeStart, end.position);
      FilledBytes(files, ranges, rangeStart, end.position);
      CountIsLength(files, filled);
    }
    var stream := ReadExtents(files, Chunks(filled), 0, Exactly(count));
    match stream
    case NotEnoughPayload => return BodyFailed;
    case Streams(pieces) => return Body(pieces, rangeStart, end.position);
  }

  lemma CountIsLength(files: Files, filled: seq<PageRange>)
    requires AllReadable(files, Chunks(filled))
    ensures TotalCount(Chunks(filled)) == |Joined(files, Chunks(filled))|
  {
  }

  // ----- Over whole runs -----

  lemma SimulatedReadable(s: System, created: nat, done: seq<Request>)
    requires Simulates(s, created, done)
    ensures RangesReadable(s.store.files, s.ranges)
  {
    forall i | 0 <= i < |s.ranges|
      ensures var c := s.ranges[i].chunk;
        c.id.Uuid? && c.id in s.store.files && c.offset + c.count <= |s.store.files[c.id]|
    {
      var r := s.ranges[i];
      LookupAt(s.ranges, i, r.end);
      var cell := CellAfter(created, done, r.end);
      assert Agrees(s, cell, r.end);
      var ptr := Lookup(s.ranges, r.end);
      var x :| x in s.store.log && Holds(x, ptr.id, ptr.offset, cell.value);
      EntryReads(s.store, x);
      assert Issued(x.chunk.id, s.store.nextSerial);
    }
  }

  lemma SimulatedByte(s: System, created: nat, done: seq<Request>, p: int)
    requires Simulates(s, created, done)
    ensures PointedByte(s.store.files, Lookup(s.ranges, p)) == FlatByte(created, done, p)
  {
    var cell := CellAfter(created, done, p);
    assert Agrees(s, cell, p);
    hide Simulates, CellAfter;
    if cell.Stored? {
      var ptr := Lookup(s.ranges, p);
      var x :| x in s.store.log && Holds(x, ptr.id, ptr.offset, cell.value);
      assert Inv(s.store);
      EntryReads(s.store, x);
      assert Issued(x.chunk.id, s.store.nextSerial);
      var bytes := s.store.files[x.chunk.id][x.chunk.offset..x.chunk.offset + x.chunk.count];
      assert bytes == x.data;
      assert bytes[ptr.offset - x.chunk.offset] == s.store.files[x.chunk.id][ptr.offset];
    }
  }

  /** Positions [a, a + n) of the flat array. */
  function FlatBytes(created: nat, done: seq<Request>, a: int, n: nat): seq<Byte> {
    seq(n, k requires 0 <= k < n => FlatByte(created, done, a + k))
  }

  /** The refinement: after any run, downloading [a, b] gives the bytes of a flat zero array
      that received the same writes and clears, and lost its tail at every shrink. */
  lemma DownloadIsFlat(slots: nat, length: nat, rs: seq<Request>, a: int, b: int)
    requires slots >= 1 && CanServe(Created(slots, length), rs) && 0 <= a <= b
    ensures var s := ServeAll(Created(slots, length), rs);
      var chunks := Chunks(Filled(Restrict(s.ranges, a, At(b)), a, b));
      && AllReadable(s.store.files, chunks)
      && Joined(s.store.files, chunks) == FlatBytes(length, rs, a, b - a + 1)
  {
    CreatedSimulates(slots, length, rs);
    SimulatedDownload(ServeAll(Created(slots, length), rs), length, rs, a, b);
  }

  /** The handler's download of a blob in any reachable state serves the flat array, cut at the end
      of the blob. */
  method DownloadFlat(ghost slots: nat, ghost created: nat, ghost rs: seq<Request>, s: System, rangeStart: nat, rangeEnd: Bound)
      returns (result: Download)
    requires slots >= 1 && CanServe(Created(slots, created), rs) && s == ServeAll(Created(slots, created), rs)
    requires UpTo(rangeStart, rangeEnd)
    ensures s.length == LengthAfter(created, rs)
    ensures result.InvalidPageRange?
       <==> rangeStart > s.length || (s.length == 0 && rangeEnd.At? && rangeEnd.position != 0)
    ensures !result.BodyFailed?
    ensures result.Body? ==>
      && result.start == rangeStart && result.end == LastServed(s.length, rangeEnd) && rangeStart <= result.end + 1
      && AllReadable(s.store.files, result.pieces)
      && Joined(s.store.files, result.pieces) == FlatBytes(created, rs, rangeStart, result.end - rangeStart + 1)
  {
    CreatedSimulates(slots, created, rs);
    SimulatedReadable(s, created, rs);
    assert WellFormed(s.ranges) && s.length == LengthAfter(created, rs);
    hide CanServe, ServeAll, Created, Simulates, Joined, FlatBytes, LengthAfter;
    result := DownloadPageBlob(s.store.files, s.ranges, s.length, rangeStart, rangeEnd);
    if result.Body? {
      FlatBody(s, created, rs, Joined(s.store.files, result.pieces), rangeStart, result.end);
    }
  }

  lemma FlatBody(s: System, created: nat, done: seq<Request>, got: seq<Byte>, a: int, b: int)
    requires Simulates(s, created, done) && |got| == b - a + 1
    requires forall p :: a <= p <= b ==> got[p - a] == PointedByte(s.store.files, Lookup(s.ranges, p))
    ensures got == FlatBytes(created, done, a, b - a + 1)
  {
    forall k | 0 <= k < |got| ensures got[k] == FlatByte(created, done, a + k) {
      SimulatedByte(s, created, done, a + k);
      assert got[(a + k) - a] == PointedByte(s.store.files, Lookup(s.ranges, a + k));
    }
  }

  lemma SimulatedDownload(s: System, created: nat, done: seq<Request>, a: int, b: int)
    requires Simulates(s, created, done) && 0 <= a <= b
    ensures var chunks := Chunks(Filled(Restrict(s.ranges, a, At(b)), a, b));
      && AllReadable(s.store.files, chunks)
      && Joined(s.store.files, chunks) == FlatBytes(created, done, a, b - a + 1)
  {
    var chunks := Chunks(Filled(Restrict(s.ranges, a, At(b)), a, b));
    SimulatedReadable(s, created, done);
    FilledBytes(s.store.files, s.ranges, a, b);
    FlatBody(s, created, done, Joined(s.store.files, chunks), a, b);
  }

  /** After any run, the reported page ranges cover exactly the positions whose last touching
      request was an upload. */
  lemma PageRangesAreUploads(slots: nat, length: nat, rs: seq<Request>, a: int, b: Bound, p: int)
    requires slots >= 1 && CanServe(Created(slots, length), rs) && 0 <= a
    ensures var s := ServeAll(Created(slots, length), rs);
      var cut := Restrict(s.ranges, a, b);
      && WellFormed(cut)
      && ((exists i :: 0 <= i < |cut| && Covers(cut[i], p))
          <==> a <= p && UpTo(p, b) && CellAfter(length, rs, p).Stored?)
  {
    CreatedSimulates(slots, length, rs);
    var s := ServeAll(Created(slots, length), rs);
    assert Agrees(s, CellAfter(length, rs, p), p);
    RestrictWellFormed(s.ranges, a, b);
    LookupRestrict(s.ranges, a, b, p);
    LookupFinds(Restrict(s.ranges, a, b), p);
  }

  // ----- Shape of the index over runs -----

  ghost predicate SmallAndAligned(s: System, created: nat, done: seq<Request>) {
    && Aligned(s.ranges) && s.length % PAGE == 0 && s.length == LengthAfter(created, done)
    && |s.ranges| <= 2 * Uploads(done) + Clears(created, done)
  }

  lemma ServeShape(s: System, created: nat, done: seq<Request>, r: Request)
    requires Sound(s) && Accepts(s, r) && SmallAndAligned(s, created, done)
    ensures SmallAndAligned(Serve(s, r), created, done + [r])
  {
    OneMore(created, done, r, 0);
    assert WellFormed(s.ranges);
    hide Sound, Enabled, Step, Harmless, Uploads, Clears, LengthAfter;
    match r
    case StoreEvent(e) =>
    case Upload(start, end, x) =>
      var range := PageRange(start, end, x.chunk);
      MergeAligned(s.ranges, range);
      MergeAddsAtMostTwo(s.ranges, range);
    case Clear(start, end) =>
      ClearAligned(s.ranges, start, end);
      ClearAddsAtMostOne(s.ranges, start, end);
    case Resize(n) =>
      if n < s.length {
        ClearAligned(s.ranges, n, At(s.length - 1));
        ClearAddsAtMostOne(s.ranges, n, At(s.length - 1));
      }
  }

  lemma {:induction false} RunShape(s: System, created: nat, done: seq<Request>, rs: seq<Request>)
    requires Sound(s) && CanServe(s, rs) && SmallAndAligned(s, created, done)
    ensures SmallAndAligned(ServeAll(s, rs), created, done + rs)
    decreases |rs|
  {
    hide SmallAndAligned, Sound, Accepts, Serve;
    if rs != [] {
      ServeShape(s, created, done, rs[0]);
      ServeSound(s, rs[0]);
      RunShape(Serve(s, rs[0]), created, done + [rs[0]], rs[1..]);
      assert done + rs == (done + [rs[0]]) + rs[1..];
    } else {
      assert done + rs == done;
    }
  }

  /** After any run every stored range is page aligned, and m uploads with c clears and shrinks
      leave at most 2m + c ranges. */
  lemma IndexStaysSmallAndAligned(slots: nat, length: nat, rs: seq<Request>)
    requires slots >= 1 && length % PAGE == 0 && CanServe(Created(slots, length), rs)
    ensures var t := ServeAll(Created(slots, length), rs);
      && (forall i :: 0 <= i < |t.ranges| ==> t.ranges[i].start % 512 == 0 && (t.ranges[i].end + 1) % 512 == 0)
      && |t.ranges| <= 2 * Uploads(rs) + Clears(length, rs)
  {
    InitInv(slots);
    RunShape(Created(slots, length), length, [], rs);
    assert [] + rs == rs;
    var t := ServeAll(Created(slots, length), rs);
    forall i | 0 <= i < |t.ranges| ensures t.ranges[i].start % 512 == 0 && (t.ranges[i].end + 1) % 512 == 0 {
      assert AlignedRange(t.ranges[i]);
    }
  }

  // ----- Growing a blob -----

  /** Nothing is stored past the end of the blob. */
  ghost predicate TailEmpty(s: System) {
    forall p :: p >= s.length ==> Lookup(s.ranges, p) == Nowhere
  }

  predicate Overruns(s: System, r: Request) {
    r.Upload? && r.end >= s.length
  }

  /** A request keeps the tail empty exactly when it is no upload that runs past the length the
      blob has when the upload is stored. The handler looks at the length before the append, and
      only at where the upload starts. */
  lemma TailEmptyExactly(s: System, r: Request)
    requires Sound(s) && Accepts(s, r) && TailEmpty(s)
    ensures TailEmpty(Serve(s, r)) <==> !Overruns(s, r)
  {
    var t := Serve(s, r);
    match r
    case StoreEvent(e) =>
    case Upload(start, end, x) =>
      var range := PageRange(start, end, x.chunk);
      forall p | p >= s.length ensures Lookup(t.ranges, p) == if Covers(range, p) then PointerIn(range, p) else Nowhere {
        MergeIsPointUpdate(s.ranges, range, p);
      }
      if end >= s.length {
        assert Lookup(t.ranges, end) != Nowhere;
      }
    case Clear(start, end) =>
      forall p | p >= s.length ensures Lookup(t.ranges, p) == Nowhere {
        ClearIsPointUpdate(s.ranges, start, end, p);
      }
    case Resize(n) =>
      if n < s.length {
        forall p | p >= n ensures Lookup(t.ranges, p) == Nowhere {
          ClearIsPointUpdate(s.ranges, n, At(s.length - 1), p);
        }
      }
  }

  predicate NeverOverruns(s: System, rs: seq<Request>)
    requires CanServe(s, rs)
    decreases |rs|
  {
    rs == [] || (!Overruns(s, rs[0]) && NeverOverruns(Serve(s, rs[0]), rs[1..]))
  }

  ghost predicate TailAlwaysEmpty(s: System, rs: seq<Request>)
    requires CanServe(s, rs)
    decreases |rs|
  {
    TailEmpty(s) && (rs == [] || TailAlwaysEmpty(Serve(s, rs[0]), rs[1..]))
  }

  lemma {:induction false} TailOverRuns(s: System, rs: seq<Request>)
    requires Sound(s) && CanServe(s, rs) && TailEmpty(s)
    ensures TailAlwaysEmpty(s, rs) <==> NeverOverruns(s, rs)
    decreases |rs|
  {
    if rs != [] {
      TailEmptyExactly(s, rs[0]);
      ServeSound(s, rs[0]);
      if !Overruns(s, rs[0]) {
        TailOverRuns(Serve(s, rs[0]), rs[1..]);
      }
    }
  }

  /** Over every run from creation: nothing is ever stored past the end of the blob, so growing it
      shows zeros, if and only if no upload of the run overruns the length at its commit. */
  lemma TailAlwaysEmptyExactly(slots: nat, length: nat, rs: seq<Request>)
    requires slots >= 1 && CanServe(Created(slots, length), rs)
    ensures TailAlwaysEmpty(Created(slots, length), rs) <==> NeverOverruns(Created(slots, length), rs)
  {
    InitInv(slots);
    TailOverRuns(Created(slots, length), rs);
  }

  /** The overrun made visible: one byte range uploaded across or past the end, then a resize. */
  lemma OverrunResurfaces(s: System, created: nat, done: seq<Request>, start: int, end: int, x: Entry, p: int)
    requires Simulates(s, created, done) && Accepts(s, Upload(start, end, x)) && s.length <= p && start <= p <= end
    ensures |x.data| == end - start + 1
    ensures var t := Serve(Serve(s, Upload(start, end, x)), Resize(end + 1));
      && p < t.length && Lookup(t.ranges, p) != Nowhere
      && PointedByte(t.store.files, Lookup(t.ranges, p)) == x.data[p - start]
  {
    UploadShows(s, created, done, start, end, x, p);
    var t := Serve(s, Upload(start, end, x));
    ResizeMovesNothingElse(t, end + 1, p);
  }

  lemma UploadShows(s: System, created: nat, done: seq<Request>, start: int, end: int, x: Entry, p: int)
    requires Simulates(s, created, done) && Accepts(s, Upload(start, end, x)) && start <= p <= end
    ensures |x.data| == end - start + 1
    ensures var t := Serve(s, Upload(start, end, x));
      && Simulates(t, created, done + [Upload(start, end, x)]) && Lookup(t.ranges, p) != Nowhere
      && PointedByte(t.store.files, Lookup(t.ranges, p)) == x.data[p - start]
  {
    var t, r := Serve(s, Upload(start, end, x)), Upload(start, end, x);
    EntryCount(s.store, x);
    hide Simulates, Sound, Inv, CellAfter;
    ServeSimulates(s, created, done, r);
    OneMore(created, done, r, p);
    hide Accepts, Serve;
    StoredShows(t, created, done + [r], p);
  }

  lemma StoredShows(t: System, created: nat, done: seq<Request>, p: int)
    requires Simulates(t, created, done) && CellAfter(created, done, p).Stored?
    ensures Lookup(t.ranges, p) != Nowhere
    ensures PointedByte(t.store.files, Lookup(t.ranges, p)) == CellAfter(created, done, p).value
  {
    assert Agrees(t, CellAfter(created, done, p), p);
    SimulatedByte(t, created, done, p);
  }

  /** A second way to the same: the whole upload lies inside the blob when the handler looks, a
      shrink comes in between, then the upload is stored and the blob grown again. */
  lemma LateCommitResurfaces(s: System, created: nat, done: seq<Request>, start: int, end: int, x: Entry,
      small: nat, large: nat, p: int)
    requires Simulates(s, created, done) && Accepts(s, Upload(start, end, x)) && end < s.length
    requires small % PAGE == 0 && large % PAGE == 0 && start <= p <= end && small <= p < large
    ensures |x.data| == end - start + 1
    ensures !Overruns(s, Upload(start, end, x)) && Accepts(s, Resize(small))
    ensures var shrunk := Serve(s, Resize(small));
      && Accepts(shrunk, Upload(start, end, x)) && Overruns(shrunk, Upload(start, end, x))
      && var stored := Serve(shrunk, Upload(start, end, x));
      && Accepts(stored, Resize(large))
      && var t := Serve(stored, Resize(large));
      && p < t.length && Lookup(t.ranges, p) != Nowhere
      && PointedByte(t.store.files, Lookup(t.ranges, p)) == x.data[p - start]
  {
    var shrunk := Serve(s, Resize(small));
    ServeSimulates(s, created, done, Resize(small));
    UploadShows(shrunk, created, done + [Resize(small)], start, end, x, p);
    ResizeMovesNothingElse(Serve(shrunk, Upload(start, end, x)), large, p);
  }
}
