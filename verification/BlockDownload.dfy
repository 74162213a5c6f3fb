/** Downloading a block or append blob: one chunk, or a list of committed blocks. */
module BlockDownload {
  import opened Options
  import opened Extents
  import opened ExtentReads
  import opened RangeHeaders
  import PageRanges
  import PageDownload

  datatype Blob = Blob(
    isCommitted: bool,
    contentLength: nat,
    committedBlocksInOrder: seq<Chunk>,
    persistency: Option<Chunk>)

  /** `Unranged` is a body for an interval with a position that is not a number; a file stream
      refuses to open at such a position. */
  datatype Download =
    | Body(pieces: seq<Chunk>, start: int, end: int)
    | Unranged(pieces: seq<Chunk>)
    | StreamRefused
    | BlobNotFound
    | InvalidPageRange
    | BodyFailed

  /** The chunks that hold the blob's content. */
  function Payload(blob: Blob): seq<Chunk> {
    if blob.committedBlocksInOrder != [] then blob.committedBlocksInOrder
    else if blob.persistency.Some? then [blob.persistency.value]
    else []
  }

  /** The length recorded with the blob is the one of its chunks. */
  ghost predicate Stored(files: Files, blob: Blob) {
    AllReadable(files, Payload(blob)) && TotalCount(Payload(blob)) == blob.contentLength
  }

  /** The interval a request asks for; an invalid header is ignored, as section 14.2 of RFC 9110
      allows. */
  function Requested(range: Option<string>, xMsRange: Option<string>): Parsed {
    var parsed := Deserialize(range, xMsRange);
    if parsed.Interval? then parsed else Interval(Int(0), Infinite)
  }

  predicate Numeric(r: Parsed) {
    r.Interval? && r.first.Int? && !r.last.NaN?
  }

  function ToBound(n: Number): PageRanges.Bound
    requires !n.NaN?
  {
    if n.Int? then PageRanges.At(n.value) else PageRanges.Infinity
  }

  /** Serves exactly the requested bytes, cut at the end of the blob, on both paths. Every
      comparison with NaN is false: such an interval passes the guards it meets, and a read over
      blocks then goes from the start, if that is a number, to the end of the payload. */
  method DownloadBlockBlobOrAppendBlob(files: Files, blob: Blob, range: Option<string>, xMsRange: Option<string>)
      returns (result: Download)
    requires Stored(files, blob)
    ensures result.BlobNotFound? <==> !blob.isCommitted
    ensures blob.isCommitted ==>
      var r, n := Requested(range, xMsRange), blob.contentLength;
      (result.InvalidPageRange? <==> (r.first.Int? && r.first.value > n) || (n == 0 && r.last.Int? && r.last.value != 0))
    ensures !result.BodyFailed?
    ensures result.Body? ==>
      var r := Requested(range, xMsRange);
      && Numeric(r)
      && result.start == r.first.value && result.end == PageDownload.LastServed(blob.contentLength, ToBound(r.last))
      && 0 <= result.start <= result.end + 1 <= blob.contentLength
      && AllReadable(files, result.pieces)
      && Joined(files, result.pieces) == Joined(files, Payload(blob))[result.start..result.end + 1]
    ensures result.Unranged? ==>
      var r := Requested(range, xMsRange);
      var from := if r.first.Int? then r.first.value else 0;
      && !Numeric(r) && 0 <= from <= blob.contentLength
      && AllReadable(files, result.pieces)
      && Joined(files, result.pieces) == Joined(files, Payload(blob))[from..]
    ensures result.StreamRefused? <==>
      && blob.isCommitted && !result.InvalidPageRange? && !Numeric(Requested(range, xMsRange))
      && blob.committedBlocksInOrder == [] && blob.persistency.Some?
  {
    if !blob.isCommitted {
      return BlobNotFound;
    }
    hide Joined, Readable, TotalCount, Payload;
    var refused, first, last := Normalize(blob.contentLength, range, xMsRange);
    if refused {
      return InvalidPageRange;
    }
    if first.Int? && last.Int? {
      result := GetBody(files, blob, first.value, last.value);
    } else {
      result := GetUnranged(files, blob, if first.Int? then first.value else 0);
    }
  }

  /** The interval to serve: the requested one with its end shifted back to the end of the blob. */
  method Normalize(contentLength: nat, range: Option<string>, xMsRange: Option<string>)
      returns (refused: bool, first: Number, last: Number)
    ensures var r := Requested(range, xMsRange);
      && (refused <==> (r.first.Int? && r.first.value > contentLength)
                       || (contentLength == 0 && r.last.Int? && r.last.value != 0))
      && first == r.first && !first.Infinite? && (last.NaN? <==> r.last.NaN?) && !last.Infinite?
      && (!refused && first.Int? ==> 0 <= first.value <= contentLength)
      && (last.Int? ==> last.value == PageDownload.LastServed(contentLength, ToBound(r.last)))
      && (!refused && first.Int? && last.Int? ==> first.value <= last.value + 1 <= contentLength)
  {
    IntervalInOrder(range, xMsRange);
    hide Deserialize;
    var parsed := Deserialize(range, xMsRange);
    first := if parsed.Interval? then parsed.first else Int(0);
    last := if parsed.Interval? then parsed.last else Infinite;
    refused := first.Int? && first.value > contentLength;
    if last.Infinite? || (last.Int? && last.value + 1 >= contentLength) {
      if contentLength == 0 && last.Int? && last.value != 0 {
        refused := true;
      }
      last := Int(contentLength - 1);
    }
  }

  method GetUnranged(files: Files, blob: Blob, from: nat) returns (result: Download)
    requires Stored(files, blob) && from <= blob.contentLength
    ensures result.Unranged? || result.StreamRefused?
    ensures result.StreamRefused? <==> blob.committedBlocksInOrder == [] && blob.persistency.Some?
    ensures result.Unranged? ==>
      && AllReadable(files, result.pieces)
      && |Joined(files, Payload(blob))| == blob.contentLength
      && Joined(files, result.pieces) == Joined(files, Payload(blob))[from..]
  {
    if blob.committedBlocksInOrder == [] {
      if blob.persistency.None? {
        return Unranged([]);
      }
      return StreamRefused;
    }
    var stream := ReadExtents(files, blob.committedBlocksInOrder, from, Unbounded);
    match stream
    case NotEnoughPayload => return BodyFailed;
    case Streams(pieces) => return Unranged(pieces);
  }

  /** The body getters: the one chunk shifted and shortened, or a read over the blocks. */
  method GetBody(files: Files, blob: Blob, rangeStart: nat, rangeEnd: int) returns (result: Download)
    requires Stored(files, blob) && rangeStart <= rangeEnd + 1 <= blob.contentLength
    ensures result.Body? && result.start == rangeStart && result.end == rangeEnd
    ensures AllReadable(files, result.pieces)
    ensures Joined(files, result.pieces) == Joined(files, Payload(blob))[rangeStart..rangeEnd + 1]
  {
    var contentLength := rangeEnd - rangeStart + 1;
    if blob.committedBlocksInOrder == [] {
      if blob.persistency.None? {
        return Body([], rangeStart, rangeEnd);
      }
      var whole := blob.persistency.value;
      var piece := Chunk(whole.id, whole.offset + rangeStart, if whole.count <= contentLength then whole.count else contentLength);
      OneChunk(files, whole, piece, rangeStart, contentLength);
      return Body([piece], rangeStart, rangeEnd);
    }
    hide Joined, Readable, TotalCount;
    var stream := ReadExtents(files, blob.committedBlocksInOrder, rangeStart, Exactly(contentLength));
    match stream
    case NotEnoughPayload => return BodyFailed;
    case Streams(pieces) => return Body(pieces, rangeStart, rangeEnd);
  }

  lemma OneChunk(files: Files, whole: Chunk, piece: Chunk, start: nat, length: nat)
    requires Readable(files, whole) && start + length <= whole.count
    requires piece == Chunk(whole.id, whole.offset + start, if whole.count <= length then whole.count else length)
    ensures AllReadable(files, [piece]) && AllReadable(files, [whole])
    ensures TotalCount([whole]) == whole.count
    ensures Joined(files, [piece]) == Joined(files, [whole])[start..start + length]
  {
    assert [piece][1..] == [] && [whole][1..] == [];
    assert Joined(files, [piece]) == ReadExtent(files, piece) && Joined(files, [whole]) == ReadExtent(files, whole);
  }

  /** A client that prints the range [offset, offset + count - 1] into either header gets exactly
      the bytes from `offset` up to `offset + count` or the end of the blob. */
  method DownloadInterval(files: Files, blob: Blob, offset: nat, count: nat, inXMsRange: bool) returns (result: Download)
    requires Stored(files, blob) && blob.isCommitted && offset < blob.contentLength && count >= 1
    ensures result.Body? && AllReadable(files, result.pieces)
    ensures var upTo := if offset + count <= blob.contentLength then offset + count else blob.contentLength;
      Joined(files, result.pieces) == Joined(files, Payload(blob))[offset..upTo]
  {
    RangeRoundTrip(offset, Some(count), None);
    var text := RangeToString(offset, Some(count));
    if inXMsRange {
      result := DownloadBlockBlobOrAppendBlob(files, blob, None, text);
    } else {
      result := DownloadBlockBlobOrAppendBlob(files, blob, text, None);
    }
  }

  /** Without a header, or with one that is no range, the whole blob: its committed blocks in order,
      or its one chunk if there are none. */
  method DownloadAll(files: Files, blob: Blob, range: Option<string>, xMsRange: Option<string>) returns (result: Download)
    requires Stored(files, blob) && blob.isCommitted && !Deserialize(range, xMsRange).Interval?
    ensures result.Body? && AllReadable(files, result.pieces)
    ensures Joined(files, result.pieces) ==
      if blob.committedBlocksInOrder != [] then Joined(files, blob.committedBlocksInOrder)
      else if blob.persistency.Some? then ReadExtent(files, blob.persistency.value)
      else []
  {
    hide Deserialize;
    if blob.committedBlocksInOrder == [] && blob.persistency.Some? {
      assert Payload(blob)[1..] == [];
    }
    result := DownloadBlockBlobOrAppendBlob(files, blob, range, xMsRange);
  }
}
