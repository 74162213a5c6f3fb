/** The guards of the page blob handler, and what a request that passes them satisfies. */
module PageHandler {
  import opened Options
  import opened Extents
  import opened AppendProtocol
  import opened PageRanges
  import opened PageReads
  import opened PageBlob
  import PD = PageDownload
  import RH = RangeHeaders

  datatype Guarded = Pass(start: nat, end: Bound) | InvalidOperation | InvalidPageRange

  /** An upload of this length that the handler accepts: a closed, aligned interval of exactly
      that length that starts inside the blob. */
  predicate UploadPasses(contentLength: nat, blobLength: nat, p: RH.Parsed) {
    && contentLength % 512 == 0
    && p.Interval? && p.first.Int? && p.last == RH.Int(p.first.value + contentLength - 1)
    && p.first.value % 512 == 0 && p.first.value < blobLength
  }

  /** The checks of uploadPages, in order, up to the append. */
  method GuardUpload(contentLength: nat, blobLength: nat, range: Option<string>, xMsRange: Option<string>) returns (r: Guarded)
    ensures r.InvalidOperation? <==> contentLength % 512 != 0
    ensures r.Pass? ==>
      && r.end == At(r.start + contentLength - 1) && contentLength >= 1 && contentLength % 512 == 0
      && r.start % 512 == 0 && r.start < blobLength
    ensures r.Pass? <==> UploadPasses(contentLength, blobLength, RH.Deserialize(range, xMsRange))
    ensures r.Pass? ==> RH.Deserialize(range, xMsRange).first == RH.Int(r.start)
  {
    if contentLength % 512 != 0 {
      return InvalidOperation;
    }
    RH.IntervalInOrder(range, xMsRange);
    var ranges := RH.DeserializePage(range, xMsRange, true);
    if ranges.RangeError? {
      return InvalidPageRange;
    }
    var start, end := ranges.first, ranges.last;
    if end.Infinite? || end.value - start.value + 1 != contentLength {
      return InvalidPageRange;
    }
    if start.value >= blobLength {
      return InvalidPageRange;
    }
    return Pass(start.value, At(end.value));
  }

  /** A clear that the handler accepts: no header on a blob that is not empty, or an aligned
      interval, open or closed, that starts inside the blob. */
  predicate ClearPasses(contentLength: nat, blobLength: nat, p: RH.Parsed) {
    && contentLength == 0 && !p.RangeError?
    && (p.Absent? ==> 0 < blobLength)
    && (p.Interval? ==> RH.OnPage(p.first, 0) && p.first.value < blobLength && (p.last.Infinite? || RH.OnPage(p.last, 1)))
  }

  /** The checks of clearPages. Without a header the whole blob is cleared. */
  method GuardClear(contentLength: nat, blobLength: nat, range: Option<string>, xMsRange: Option<string>) returns (r: Guarded)
    ensures r.InvalidOperation? <==> contentLength != 0
    ensures r.Pass? ==>
      && r.start % 512 == 0 && r.start < blobLength && UpTo(r.start, r.end)
      && (r.end.At? ==> (r.end.position + 1) % 512 == 0)
    ensures r.Pass? <==> ClearPasses(contentLength, blobLength, RH.Deserialize(range, xMsRange))
    ensures r.Pass? && RH.Deserialize(range, xMsRange).Absent? ==> r == Pass(0, Infinity)
    ensures r.Pass? && RH.Deserialize(range, xMsRange).Interval? ==>
      var p := RH.Deserialize(range, xMsRange);
      p.first == RH.Int(r.start) && p.last == if r.end.At? then RH.Int(r.end.position) else RH.Infinite
  {
    if contentLength != 0 {
      return InvalidOperation;
    }
    RH.IntervalInOrder(range, xMsRange);
    var ranges := RH.DeserializePage(range, xMsRange, true);
    if ranges.RangeError? {
      return InvalidPageRange;
    }
    var start, end := ranges.first, ranges.last;
    if start.value >= blobLength {
      return InvalidPageRange;
    }
    return Pass(start.value, if end.Infinite? then Infinity else At(end.value));
  }

  /** The handler compares the request with the length the blob had when it was fetched; the append
      is awaited, and `s` is the system when the upload is stored. Exactly the uploads that pass
      are stored, at the place the header names, and each is a request of the page blob model,
      whatever happened to the blob in between. */
  method ServeUpload(fetchedLength: nat, s: System, contentLength: nat, x: Entry, range: Option<string>, xMsRange: Option<string>)
      returns (t: Option<System>)
    requires x in s.store.log && x.chunk.count == contentLength
    ensures t.Some? <==> UploadPasses(contentLength, fetchedLength, RH.Deserialize(range, xMsRange))
    ensures t.Some? ==>
      var start := RH.Deserialize(range, xMsRange).first.value;
      var request := Upload(start, start + contentLength - 1, x);
      Accepts(s, request) && t.value == Serve(s, request)
  {
    var g := GuardUpload(contentLength, fetchedLength, range, xMsRange);
    if g.Pass? {
      return Some(Serve(s, Upload(g.start, g.end.position, x)));
    }
    return None;
  }

  /** The interval a clear works on. */
  function ClearRequest(p: RH.Parsed): Request
    requires !p.RangeError? && (p.Interval? ==> p.first.Int? && !p.last.NaN?)
  {
    if p.Absent? then Clear(0, Infinity)
    else Clear(p.first.value, if p.last.Int? then At(p.last.value) else Infinity)
  }

  /** So with clears: exactly those that pass against the length fetched, on the interval of their
      header or on everything without one. */
  method ServeClear(fetchedLength: nat, s: System, contentLength: nat, range: Option<string>, xMsRange: Option<string>)
      returns (t: Option<System>)
    ensures t.Some? <==> ClearPasses(contentLength, fetchedLength, RH.Deserialize(range, xMsRange))
    ensures t.Some? ==>
      var request := ClearRequest(RH.Deserialize(range, xMsRange));
      Accepts(s, request) && t.value == Serve(s, request)
  {
    hide RH.Deserialize;
    var g := GuardClear(contentLength, fetchedLength, range, xMsRange);
    if g.Pass? {
      return Some(Serve(s, Clear(g.start, g.end)));
    }
    return None;
  }

  /** A resize passes exactly to a page boundary. */
  method ServeResize(s: System, blobContentLength: nat) returns (t: Option<System>)
    ensures t.Some? <==> blobContentLength % 512 == 0
    ensures t.Some? ==> Accepts(s, Resize(blobContentLength)) && t.value == Serve(s, Resize(blobContentLength))
  {
    if blobContentLength % 512 != 0 {
      return None;
    }
    return Some(Serve(s, Resize(blobContentLength)));
  }

  datatype Reported = Reported(ranges: seq<PageRange>) | StartBeyondEnd | ReportFailed

  /** getPageRanges: the stored ranges cut to the interval of the header, or all of them without
      one. Every comparison with NaN is false, so an interval with a NaN passes the guards it
      meets, and the searches find nothing in it. */
  method GetPageRanges(ranges: seq<PageRange>, blobLength: nat, range: Option<string>, xMsRange: Option<string>) returns (r: Reported)
    requires WellFormed(ranges)
    ensures r.ReportFailed? <==> RH.Deserialize(range, xMsRange).RangeError?
    ensures !r.ReportFailed? ==>
      var p := RH.Asked(RH.Deserialize(range, xMsRange));
      && (r.StartBeyondEnd? <==> p.first.Int? && p.first.value >= blobLength)
      && (r.Reported? && (p.first.NaN? || p.last.NaN?) ==> r.ranges == [])
      && (r.Reported? && p.first.Int? && !p.last.NaN? ==>
            r.ranges == Restrict(ranges, p.first.value, if p.last.Int? then At(p.last.value) else Infinity))
  {
    RH.PageInOrder(range, xMsRange, false);
    hide RH.Deserialize;
    var parsed := RH.DeserializePage(range, xMsRange, false);
    hide RH.DeserializePage;
    if parsed.RangeError? {
      return ReportFailed;
    }
    if parsed.first.Int? && parsed.first.value >= blobLength {
      return StartBeyondEnd;
    }
    if parsed.first.NaN? || parsed.last.NaN? {
      return Reported([]);
    }
    var cut := CutRanges(ranges, parsed.first.value, if parsed.last.Int? then At(parsed.last.value) else Infinity);
    match cut
    case RangeThrown => return ReportFailed;
    case Ranges(rs) => return Reported(rs);
  }

  datatype Served = Served(download: PD.Download) | HeaderRejected | StreamFails

  /** A body with the bytes of the positions from `start` up to `upTo`, and no others. */
  ghost predicate Delivers(files: Files, ranges: seq<PageRange>, r: Served, start: nat, upTo: int) {
    && r.Served? && r.download.Body? && start <= upTo
    && r.download.start == start && r.download.end + 1 == upTo
    && AllReadable(files, r.download.pieces)
    && |Joined(files, r.download.pieces)| == upTo - start
    && forall k :: start <= k < upTo ==>
         Joined(files, r.download.pieces)[k - start] == PD.PointedByte(files, Lookup(ranges, k))
  }

  /** downloadPageBlob from the header on. An interval with NaN passes the guards it meets, the cut
      is empty, and the zero range that should fill it has no length a stream can have. */
  method ServeDownload(files: Files, ranges: seq<PageRange>, blobLength: nat, range: Option<string>, xMsRange: Option<string>)
      returns (r: Served)
    requires WellFormed(ranges) && PD.RangesReadable(files, ranges)
    ensures r.HeaderRejected? <==> RH.Deserialize(range, xMsRange).RangeError?
    ensures !r.HeaderRejected? ==>
      var p := RH.Asked(RH.Deserialize(range, xMsRange));
      var refused := (p.first.Int? && p.first.value > blobLength) || (blobLength == 0 && p.last.Int? && p.last.value != 0);
      && (r == Served(PD.InvalidPageRange) <==> refused)
      && (r.StreamFails? <==> !refused && (p.first.NaN? || p.last.NaN?))
      && (r.Served? && !refused ==>
            && p.first.Int? && !p.last.NaN? && 0 <= p.first.value
            && Delivers(files, ranges, r, p.first.value,
                 if p.last.Int? && p.last.value < blobLength then p.last.value + 1 else blobLength))
  {
    RH.PageInOrder(range, xMsRange, false);
    hide RH.Deserialize, Joined, AllReadable, PD.RangesReadable, PD.PointedByte, Lookup, WellFormed;
    var parsed := RH.DeserializePage(range, xMsRange, false);
    hide RH.DeserializePage;
    if parsed.RangeError? {
      return HeaderRejected;
    }
    if parsed.first.Int? && parsed.first.value > blobLength {
      return Served(PD.InvalidPageRange);
    }
    if parsed.first.NaN? || parsed.last.NaN? {
      if blobLength == 0 && parsed.last.Int? && parsed.last.value != 0 {
        return Served(PD.InvalidPageRange);
      }
      return StreamFails;
    }
    var end := if parsed.last.Int? then At(parsed.last.value) else Infinity;
    var download := PD.DownloadPageBlob(files, ranges, blobLength, parsed.first.value, end);
    return Served(download);
  }

  // ----- What a client gets that prints an interval into a header -----

  /** The interval [offset, offset + count) in either header. */
  method PrintInto(offset: nat, count: nat, inXMsRange: bool) returns (range: Option<string>, xMsRange: Option<string>)
    requires count >= 1
    ensures RH.Deserialize(range, xMsRange) == RH.Interval(RH.Int(offset), RH.Int(offset + count - 1))
  {
    RH.RangeRoundTrip(offset, Some(count), None);
    hide RH.Deserialize;
    var text := RH.RangeToString(offset, Some(count));
    if inXMsRange {
      range, xMsRange := None, text;
    } else {
      range, xMsRange := text, None;
    }
  }

  /** Exactly the positions from offset up to offset + count, or up to the end of the blob. */
  method DownloadInterval(files: Files, ranges: seq<PageRange>, blobLength: nat, offset: nat, count: nat, inXMsRange: bool)
      returns (r: Served)
    requires WellFormed(ranges) && PD.RangesReadable(files, ranges) && offset < blobLength && count >= 1
    ensures Delivers(files, ranges, r, offset, if offset + count <= blobLength then offset + count else blobLength)
  {
    hide Delivers, PD.RangesReadable, WellFormed, RH.Deserialize;
    var range, xMsRange := PrintInto(offset, count, inXMsRange);
    r := ServeDownload(files, ranges, blobLength, range, xMsRange);
  }

  /** The whole blob, whether the header is left out or empty. */
  method DownloadAll(files: Files, ranges: seq<PageRange>, blobLength: nat, range: Option<string>, xMsRange: Option<string>)
      returns (r: Served)
    requires WellFormed(ranges) && PD.RangesReadable(files, ranges)
    requires (range.None? || range.value == "") && (xMsRange.None? || xMsRange.value == "")
    ensures Delivers(files, ranges, r, 0, blobLength)
  {
    RH.AbsentExactly(range, xMsRange);
    hide Delivers, PD.RangesReadable, WellFormed, RH.Deserialize;
    r := ServeDownload(files, ranges, blobLength, range, xMsRange);
  }

  /** The stored ranges cut to [offset, offset + count), the end of the blob not looked at. */
  method RangesOfInterval(ranges: seq<PageRange>, blobLength: nat, offset: nat, count: nat, inXMsRange: bool)
      returns (r: Reported)
    requires WellFormed(ranges) && offset < blobLength && count >= 1
    ensures r == Reported(Restrict(ranges, offset, At(offset + count - 1)))
  {
    hide WellFormed, RH.Deserialize, Restrict;
    var range, xMsRange := PrintInto(offset, count, inXMsRange);
    r := GetPageRanges(ranges, blobLength, range, xMsRange);
  }

  /** A printed upload is stored exactly when offset and count are on page boundaries, the payload
      has that count, and the offset lies in the blob that was fetched. */
  method UploadInterval(fetchedLength: nat, s: System, contentLength: nat, x: Entry, offset: nat, count: nat, inXMsRange: bool)
      returns (t: Option<System>)
    requires x in s.store.log && x.chunk.count == contentLength && count >= 1
    ensures t.Some? <==> offset % 512 == 0 && count % 512 == 0 && contentLength == count && offset < fetchedLength
    ensures t.Some? ==>
      Accepts(s, Upload(offset, offset + count - 1, x)) && t.value == Serve(s, Upload(offset, offset + count - 1, x))
  {
    hide RH.Deserialize, Accepts, Serve;
    var range, xMsRange := PrintInto(offset, count, inXMsRange);
    t := ServeUpload(fetchedLength, s, contentLength, x, range, xMsRange);
  }

  method ClearInterval(fetchedLength: nat, s: System, contentLength: nat, offset: nat, count: nat, inXMsRange: bool)
      returns (t: Option<System>)
    requires count >= 1
    ensures t.Some? <==> contentLength == 0 && offset % 512 == 0 && count % 512 == 0 && offset < fetchedLength
    ensures t.Some? ==>
      Accepts(s, Clear(offset, At(offset + count - 1))) && t.value == Serve(s, Clear(offset, At(offset + count - 1)))
  {
    hide RH.Deserialize, Accepts, Serve;
    var range, xMsRange := PrintInto(offset, count, inXMsRange);
    t := ServeClear(fetchedLength, s, contentLength, range, xMsRange);
  }
}
