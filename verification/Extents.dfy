/** Extents are append-only files of bytes; a chunk points at a slice of one.
    The reserved zero extent holds no bytes and reads as zeros. */
module Extents {

  newtype Byte = x: int | 0 <= x < 256

  /** `uuid()` never produces the reserved id, so the two kinds are kept apart. */
  datatype ExtentId = ZeroExtent | Uuid(serial: nat)

  datatype Chunk = Chunk(id: ExtentId, offset: nat, count: nat)

  type Files = map<ExtentId, seq<Byte>>

  /** What a read of the chunk needs: the bytes it names are in the file. */
  predicate Readable(files: Files, c: Chunk) {
    c.count == 0 || c.id.ZeroExtent? || (c.id in files && c.offset + c.count <= |files[c.id]|)
  }

  predicate AllReadable(files: Files, chunks: seq<Chunk>) {
    forall c :: c in chunks ==> Readable(files, c)
  }

  /** The stream readExtent opens for a chunk. */
  function ReadExtent(files: Files, c: Chunk): (bytes: seq<Byte>)
    requires Readable(files, c)
    ensures |bytes| == c.count
  {
    if c.count == 0 then []
    else if c.id.ZeroExtent? then seq(c.count, _ => 0)
    else files[c.id][c.offset..c.offset + c.count]
  }

  /** The payload a list of chunks stands for. */
  function Joined(files: Files, chunks: seq<Chunk>): (bytes: seq<Byte>)
    requires AllReadable(files, chunks)
    ensures |bytes| == TotalCount(chunks)
  {
    if chunks == [] then [] else ReadExtent(files, chunks[0]) + Joined(files, chunks[1..])
  }

  function TotalCount(chunks: seq<Chunk>): nat {
    if chunks == [] then 0 else chunks[0].count + TotalCount(chunks[1..])
  }

  lemma {:induction false} TotalCountAppend(a: seq<Chunk>, b: seq<Chunk>)
    ensures TotalCount(a + b) == TotalCount(a) + TotalCount(b)
  {
    if a == [] {
      assert a + b == b;
    } else {
      assert (a + b)[1..] == a[1..] + b;
      TotalCountAppend(a[1..], b);
    }
  }

  lemma {:induction false} JoinedAppend(files: Files, a: seq<Chunk>, b: seq<Chunk>)
    requires AllReadable(files, a) && AllReadable(files, b)
    ensures AllReadable(files, a + b) && Joined(files, a + b) == Joined(files, a) + Joined(files, b)
    decreases |a|
  {
    hide Readable, ReadExtent;
    if a == [] {
      assert a + b == b;
    } else {
      var first, rest := ReadExtent(files, a[0]), Joined(files, a[1..]);
      assert (a + b)[1..] == a[1..] + b;
      JoinedAppend(files, a[1..], b);
      assert Joined(files, a + b) == first + (rest + Joined(files, b));
      assert first + (rest + Joined(files, b)) == (first + rest) + Joined(files, b);
    }
  }
}
