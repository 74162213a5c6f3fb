/** Reading a byte interval out of a list of chunks. */
module ExtentReads {
  import opened Extents

  /** The slice requests issued, in order; the payload is their concatenation. */
  datatype Stream = Streams(pieces: seq<Chunk>) | NotEnoughPayload

  /** `Unbounded` is the default count, Infinity. */
  datatype Count = Exactly(n: nat) | Unbounded

  predicate SliceOf(piece: Chunk, chunk: Chunk) {
    && piece.id == chunk.id
    && chunk.offset <= piece.offset
    && piece.offset + piece.count <= chunk.offset + chunk.count
  }

  ghost predicate NoReadOutside(pieces: seq<Chunk>, chunks: seq<Chunk>) {
    forall p :: p in pieces ==> exists c :: c in chunks && SliceOf(p, c)
  }

  /** The bytes of a payload that fall into the requested interval. */
  function Window(bytes: seq<Byte>, start: nat, count: Count): seq<Byte> {
    if |bytes| <= start then []
    else if count.Exactly? && start + count.n < |bytes| then bytes[start..start + count.n]
    else bytes[start..]
  }

  method ReadExtents(files: Files, chunks: seq<Chunk>, offset: nat, count: Count) returns (result: Stream)
    requires AllReadable(files, chunks)
    ensures result.NotEnoughPayload? <==> count.Exactly? && count.n > 0 && TotalCount(chunks) < offset + count.n
    ensures result.Streams? ==>
      && NoReadOutside(result.pieces, chunks)
      && AllReadable(files, result.pieces)
      && Joined(files, result.pieces) == Window(Joined(files, chunks), offset, count)
  {
    if count == Exactly(0) {
      return Streams([]);
    }
    var start := offset;
    var pieces: seq<Chunk> := [];
    var accumulated := 0;
    var i := 0;
    while i < |chunks|
      invariant 0 <= i <= |chunks|
      invariant accumulated == TotalCount(chunks[..i])
      invariant NoReadOutside(pieces, chunks)
      invariant ReadSoFar(files, chunks[..i], start, count, pieces)
    {
      var chunk := chunks[i];
      var next := accumulated + chunk.count;
      assert chunks[..i + 1] == chunks[..i] + [chunk];
      TotalCountAppend(chunks[..i], [chunk]);
      if next <= start {
        SkipChunk(files, chunks[..i], chunk, start, count, pieces);
      } else if count.Exactly? && start + count.n <= accumulated {
        break;
      } else {
        var piece := PieceOf(chunk, accumulated, start, count);
        TakeChunk(files, chunks[..i], chunk, start, count, pieces, piece);
        pieces := pieces + [piece];
      }
      accumulated := next;
      i := i + 1;
    }
    StopReading(files, chunks, i, start, count, pieces);
    if count.Exactly? && accumulated < start + count.n {
      return NotEnoughPayload;
    }
    return Streams(pieces);
  }

  /** The slice of one chunk, whose payload begins at position `accumulated`. */
  method PieceOf(chunk: Chunk, accumulated: nat, start: nat, count: Count) returns (piece: Chunk)
    requires start < accumulated + chunk.count && (count.Exactly? ==> accumulated < start + count.n)
    requires count != Exactly(0)
    ensures IsPiece(piece, chunk, accumulated, start, count)
  {
    var chunkStart, chunkEnd := chunk.offset, chunk.offset + chunk.count;
    if start > accumulated {
      chunkStart := chunkStart + start - accumulated;
    }
    if count.Exactly? && start + count.n <= accumulated + chunk.count {
      chunkEnd := chunkEnd - (accumulated + chunk.count - (start + count.n));
    }
    piece := Chunk(chunk.id, chunkStart, chunkEnd - chunkStart);
  }

  /** The piece starts at the first and stops before the last position both the chunk and the
      request contain. */
  ghost predicate IsPiece(piece: Chunk, chunk: Chunk, accumulated: nat, start: nat, count: Count) {
    && SliceOf(piece, chunk)
    && accumulated + (piece.offset - chunk.offset) == (if start > accumulated then start else accumulated)
    && accumulated + (piece.offset - chunk.offset) + piece.count
    == (if count.Exactly? && start + count.n <= accumulated + chunk.count then start + count.n
        else accumulated + chunk.count)
  }

  ghost predicate ReadSoFar(files: Files, done: seq<Chunk>, start: nat, count: Count, pieces: seq<Chunk>) {
    && AllReadable(files, done) && AllReadable(files, pieces)
    && Joined(files, pieces) == Window(Joined(files, done), start, count)
  }

  lemma SkipChunk(files: Files, done: seq<Chunk>, chunk: Chunk, start: nat, count: Count, pieces: seq<Chunk>)
    requires ReadSoFar(files, done, start, count, pieces) && Readable(files, chunk)
    requires TotalCount(done) + chunk.count <= start
    ensures ReadSoFar(files, done + [chunk], start, count, pieces)
  {
    JoinedSnoc(files, done, chunk);
  }

  lemma JoinedSnoc(files: Files, done: seq<Chunk>, chunk: Chunk)
    requires AllReadable(files, done) && Readable(files, chunk)
    ensures AllReadable(files, done + [chunk])
    ensures Joined(files, done + [chunk]) == Joined(files, done) + ReadExtent(files, chunk)
  {
    JoinedAppend(files, done, [chunk]);
  }

  lemma TakeChunk(files: Files, done: seq<Chunk>, chunk: Chunk, start: nat, count: Count, pieces: seq<Chunk>, piece: Chunk)
    requires ReadSoFar(files, done, start, count, pieces) && Readable(files, chunk)
    requires start < TotalCount(done) + chunk.count && (count.Exactly? ==> TotalCount(done) < start + count.n)
    requires IsPiece(piece, chunk, TotalCount(done), start, count)
    ensures ReadSoFar(files, done + [chunk], start, count, pieces + [piece])
  {
    var k := piece.offset - chunk.offset;
    PieceBytes(files, chunk, piece);
    JoinedSnoc(files, done, chunk);
    JoinedSnoc(files, pieces, piece);
    WindowGrows(Joined(files, done), ReadExtent(files, chunk), start, count, k, piece.count);
  }

  lemma PieceBytes(files: Files, chunk: Chunk, piece: Chunk)
    requires Readable(files, chunk) && SliceOf(piece, chunk)
    ensures Readable(files, piece)
    ensures var k := piece.offset - chunk.offset;
      ReadExtent(files, piece) == ReadExtent(files, chunk)[k..k + piece.count]
  {
  }

  lemma WindowGrows(before: seq<Byte>, added: seq<Byte>, start: nat, count: Count, k: nat, n: nat)
    requires start < |before| + |added| && (count.Exactly? ==> |before| < start + count.n)
    requires |before| + k == (if start > |before| then start else |before|)
    requires |before| + k + n
          == if count.Exactly? && start + count.n <= |before| + |added| then start + count.n else |before| + |added|
    ensures Window(before + added, start, count) == Window(before, start, count) + added[k..k + n]
  {
  }

  lemma WindowStops(bytes: seq<Byte>, rest: seq<Byte>, start: nat, n: nat)
    requires start + n <= |bytes|
    ensures Window(bytes + rest, start, Exactly(n)) == Window(bytes, start, Exactly(n))
  {
  }

  lemma StopReading(files: Files, chunks: seq<Chunk>, i: nat, start: nat, count: Count, pieces: seq<Chunk>)
    requires AllReadable(files, chunks) && i <= |chunks| && ReadSoFar(files, chunks[..i], start, count, pieces)
    requires i == |chunks| || (count.Exactly? && start + count.n <= TotalCount(chunks[..i]))
    ensures ReadSoFar(files, chunks, start, count, pieces)
    ensures count.Exactly? ==> (TotalCount(chunks[..i]) < start + count.n <==> TotalCount(chunks) < start + count.n)
  {
    assert chunks == chunks[..i] + chunks[i..];
    TotalCountAppend(chunks[..i], chunks[i..]);
    if i < |chunks| {
      JoinedAppend(files, chunks[..i], chunks[i..]);
      WindowStops(Joined(files, chunks[..i]), Joined(files, chunks[i..]), start, count.n);
    } else {
      assert chunks[..i] == chunks;
    }
  }
}
