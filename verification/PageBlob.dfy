/** A page blob over the append protocol: uploads, clears and resizes of one blob, interleaved
    with any appends, failures and deletions in the extent store. */
module PageBlob {
  import opened Extents
  import opened PageRanges
  import opened PageRangeLaws
  import opened AppendProtocol

  // ----- The system -----

  datatype System = System(store: State, ranges: seq<PageRange>, length: nat)

  datatype Request =
    | StoreEvent(event: Event)
    | Upload(start: int, end: int, appended: Entry)
    | Clear(from: int, upTo: Bound)
    | Resize(newLength: nat)

  predicate Refers(ranges: seq<PageRange>, id: ExtentId) {
    exists i :: 0 <= i < |ranges| && ranges[i].chunk.id == id
  }

  /** What may happen at a moment. An upload or clear is aligned by the handler's guards, which
      compared its start with a length read earlier: when it is stored, the length may be another
      one. An upload carries a chunk that an append returned and that is not deleted; the store's
      failures are harmless, and it deletes an extent only when this blob does not refer to it. */
  predicate Accepts(s: System, r: Request) {
    match r
    case StoreEvent(e) =>
      Enabled(s.store, e) && Harmless(s.store, e) && (e.Delete? ==> !Refers(s.ranges, e.id))
    case Upload(start, end, x) =>
      && start % PAGE == 0 && (end + 1) % PAGE == 0 && 0 <= start <= end
      && x in s.store.log && x.chunk.count == end - start + 1
    case Clear(start, end) =>
      && start % PAGE == 0 && (end.At? ==> (end.position + 1) % PAGE == 0)
      && 0 <= start && UpTo(start, end)
    case Resize(n) => n % PAGE == 0
  }

  function Serve(s: System, r: Request): System
    requires Accepts(s, r)
  {
    match r
    case StoreEvent(e) => s.(store := Step(s.store, e))
    case Upload(start, end, x) => s.(ranges := Merged(s.ranges, PageRange(start, end, x.chunk)))
    case Clear(start, end) => s.(ranges := Cleared(s.ranges, start, end))
    case Resize(n) =>
      if n < s.length then s.(ranges := Cleared(s.ranges, n, At(s.length - 1)), length := n)
      else s.(length := n)
  }

  predicate CanServe(s: System, rs: seq<Request>)
    decreases |rs|
  {
    rs == [] || (Accepts(s, rs[0]) && CanServe(Serve(s, rs[0]), rs[1..]))
  }

  function ServeAll(s: System, rs: seq<Request>): System
    requires CanServe(s, rs)
    decreases |rs|
  {
    if rs == [] then s else ServeAll(Serve(s, rs[0]), rs[1..])
  }

  function Created(slots: nat, length: nat): System
    requires slots >= 1
  {
    System(Init(slots), [], length)
  }

  // ----- The reference: a flat array that is zero until written, from the requests alone -----

  function LengthAfter(created: nat, done: seq<Request>): nat {
    if done == [] then created
    else
      var last := done[|done| - 1];
      if last.Resize? then last.newLength else LengthAfter(created, done[..|done| - 1])
  }

  /** What one request means for one position of a blob of some length. */
  datatype Effect = Leaves | Empties | Puts(byte: Byte)

  function EffectOn(r: Request, length: nat, p: int): Effect {
    match r
    case StoreEvent(_) => Leaves
    case Upload(start, end, x) =>
      if start <= p <= end && |x.data| == end - start + 1 then Puts(x.data[p - start]) else Leaves
    case Clear(start, end) => if start <= p && UpTo(p, end) then Empties else Leaves
    case Resize(n) => if n <= p < length then Empties else Leaves
  }

  /** What the requests so far say about one position: the last one that touches it decides. */
  datatype Cell = Empty | Stored(value: Byte)

  function Apply(effect: Effect, cell: Cell): Cell {
    match effect
    case Leaves => cell
    case Empties => Empty
    case Puts(b) => Stored(b)
  }

  function CellAfter(created: nat, done: seq<Request>, p: int): Cell {
    if done == [] then Empty
    else
      var before := done[..|done| - 1];
      Apply(EffectOn(done[|done| - 1], LengthAfter(created, before), p), CellAfter(created, before, p))
  }

  function FlatByte(created: nat, done: seq<Request>, p: int): Byte {
    match CellAfter(created, done, p)
    case Empty => 0
    case Stored(b) => b
  }

  /** Uploads among the requests, and requests that clear: clears and shrinks. */
  function Uploads(done: seq<Request>): nat {
    if done == [] then 0
    else Uploads(done[..|done| - 1]) + if done[|done| - 1].Upload? then 1 else 0
  }

  function Clears(created: nat, done: seq<Request>): nat {
    if done == [] then 0
    else
      var before, last := done[..|done| - 1], done[|done| - 1];
      Clears(created, before)
      + if last.Clear? || (last.Resize? && last.newLength < LengthAfter(created, before)) then 1 else 0
  }

  lemma OneMore(created: nat, done: seq<Request>, r: Request, p: int)
    ensures LengthAfter(created, done + [r]) == if r.Resize? then r.newLength else LengthAfter(created, done)
    ensures CellAfter(created, done + [r], p) == Apply(EffectOn(r, LengthAfter(created, done), p), CellAfter(created, done, p))
    ensures Uploads(done + [r]) == Uploads(done) + if r.Upload? then 1 else 0
    ensures Clears(created, done + [r]) == Clears(created, done)
      + if r.Clear? || (r.Resize? && r.newLength < LengthAfter(created, done)) then 1 else 0
  {
    assert (done + [r])[..|done|] == done;
  }

  // ----- The simulation relation -----

  ghost predicate Holds(x: Entry, id: ExtentId, offset: int, b: Byte) {
    && x.chunk.id == id && x.chunk.count == |x.data|
    && x.chunk.offset <= offset < x.chunk.offset + x.chunk.count
    && x.data[offset - x.chunk.offset] == b
  }

  /** The index stores a byte exactly where the requests do, in a chunk the store returned. */
  ghost predicate Agrees(s: System, cell: Cell, p: int) {
    match cell
    case Empty => Lookup(s.ranges, p) == Nowhere
    case Stored(b) =>
      && Lookup(s.ranges, p).In?
      && exists x :: x in s.store.log && Holds(x, Lookup(s.ranges, p).id, Lookup(s.ranges, p).offset, b)
  }

  ghost predicate Sound(s: System) {
    Inv(s.store) && WellFormed(s.ranges)
  }

  /** The system is what the flat array says after these requests. */
  ghost predicate Simulates(s: System, created: nat, done: seq<Request>) {
    && Sound(s) && s.length == LengthAfter(created, done)
    && forall p :: Agrees(s, CellAfter(created, done, p), p)
  }

  lemma LookupRefers(rs: seq<PageRange>, p: int)
    ensures Lookup(rs, p).In? ==> Refers(rs, Lookup(rs, p).id)
  {
    if rs != [] && !Covers(rs[0], p) {
      LookupRefers(rs[1..], p);
      if Lookup(rs, p).In? {
        var i :| 0 <= i < |rs[1..]| && rs[1..][i].chunk.id == Lookup(rs, p).id;
        assert rs[i + 1].chunk.id == Lookup(rs, p).id;
      }
    } else if rs != [] {
      assert rs[0].chunk.id == Lookup(rs, p).id;
    }
  }

  lemma EntryCount(store: State, x: Entry)
    requires Inv(store) && x in store.log
    ensures x.chunk.count == |x.data|
  {
    var k :| 0 <= k < |store.log| && store.log[k] == x;
    assert EntryOk(store, store.log[k]);
  }

  lemma ServeSound(s: System, r: Request)
    requires Sound(s) && Accepts(s, r)
    ensures Sound(Serve(s, r))
  {
    match r
    case StoreEvent(e) => StepInv(s.store, e);
    case Upload(start, end, x) => MergedWellFormed(s.ranges, PageRange(start, end, x.chunk));
    case Clear(start, end) => ClearedWellFormed(s.ranges, start, end);
    case Resize(n) => if n < s.length { ClearedWellFormed(s.ranges, n, At(s.length - 1)); }
  }

  lemma StoreEventAgrees(s: System, e: Event, cell: Cell, p: int)
    requires Sound(s) && Accepts(s, StoreEvent(e)) && Agrees(s, cell, p)
    ensures Agrees(Serve(s, StoreEvent(e)), cell, p)
  {
    StepInv(s.store, e);
    var t := Serve(s, StoreEvent(e));
    if cell.Stored? {
      var ptr := Lookup(s.ranges, p);
      LookupRefers(s.ranges, p);
      var x :| x in s.store.log && Holds(x, ptr.id, ptr.offset, cell.value);
      assert x in t.store.log;
    }
  }

  lemma UploadAgrees(s: System, start: int, end: int, x: Entry, cell: Cell, p: int)
    requires Sound(s) && Accepts(s, Upload(start, end, x)) && Agrees(s, cell, p)
    ensures |x.data| == end - start + 1
    ensures Agrees(Serve(s, Upload(start, end, x)), if start <= p <= end then Stored(x.data[p - start]) else cell, p)
  {
    EntryCount(s.store, x);
    MergeIsPointUpdate(s.ranges, PageRange(start, end, x.chunk), p);
    if start <= p <= end {
      assert Holds(x, x.chunk.id, x.chunk.offset + (p - start), x.data[p - start]);
    }
  }

  lemma ClearAgrees(s: System, start: nat, end: Bound, cell: Cell, p: int)
    requires Sound(s) && UpTo(start, end) && Agrees(s, cell, p)
    ensures Agrees(s.(ranges := Cleared(s.ranges, start, end)), if start <= p && UpTo(p, end) then Empty else cell, p)
  {
    ClearIsPointUpdate(s.ranges, start, end, p);
  }

  lemma ResizeAgrees(s: System, n: nat, cell: Cell, p: int)
    requires Sound(s) && Accepts(s, Resize(n)) && Agrees(s, cell, p)
    ensures Agrees(Serve(s, Resize(n)), if n <= p < s.length then Empty else cell, p)
  {
    if n < s.length {
      hide Sound, Agrees;
      ClearAgrees(s, n, At(s.length - 1), cell, p);
    }
  }

  /** Each request changes the index exactly at the positions where it changes the flat array. */
  lemma ServeAgrees(s: System, r: Request, cell: Cell, p: int)
    requires Sound(s) && Accepts(s, r) && Agrees(s, cell, p)
    ensures Agrees(Serve(s, r), Apply(EffectOn(r, s.length, p), cell), p)
  {
    hide Sound, Agrees;
    match r
    case StoreEvent(e) => StoreEventAgrees(s, e, cell, p);
    case Upload(start, end, x) => UploadAgrees(s, start, end, x, cell, p);
    case Clear(start, end) => ClearAgrees(s, start, end, cell, p);
    case Resize(n) => ResizeAgrees(s, n, cell, p);
  }

  lemma ServeSimulates(s: System, created: nat, done: seq<Request>, r: Request)
    requires Simulates(s, created, done) && Accepts(s, r)
    ensures Simulates(Serve(s, r), created, done + [r])
  {
    ServeSound(s, r);
    OneMore(created, done, r, 0);
    forall p ensures Agrees(Serve(s, r), CellAfter(created, done + [r], p), p) {
      assert Agrees(s, CellAfter(created, done, p), p);
      OneMore(created, done, r, p);
      ServeAgrees(s, r, CellAfter(created, done, p), p);
    }
  }

  lemma {:induction false} RunSimulates(s: System, created: nat, done: seq<Request>, rs: seq<Request>)
    requires Simulates(s, created, done) && CanServe(s, rs)
    ensures Simulates(ServeAll(s, rs), created, done + rs)
    decreases |rs|
  {
    hide Simulates, Accepts, Serve;
    if rs != [] {
      ServeSimulates(s, created, done, rs[0]);
      RunSimulates(Serve(s, rs[0]), created, done + [rs[0]], rs[1..]);
      assert done + rs == (done + [rs[0]]) + rs[1..];
    } else {
      assert done + rs == done;
    }
  }

  /** From creation on, the system is what the flat array of its requests says. */
  lemma CreatedSimulates(slots: nat, length: nat, rs: seq<Request>)
    requires slots >= 1 && CanServe(Created(slots, length), rs)
    ensures Simulates(ServeAll(Created(slots, length), rs), length, rs)
  {
    InitInv(slots);
    RunSimulates(Created(slots, length), length, [], rs);
    assert [] + rs == rs;
  }

  /** A resize, said of the index itself: a shrink empties the cut tail, and nothing else moves. */
  lemma ResizeMovesNothingElse(s: System, n: nat, p: int)
    requires Sound(s) && Accepts(s, Resize(n))
    ensures Serve(s, Resize(n)).length == n
    ensures Lookup(Serve(s, Resize(n)).ranges, p) == if n <= p < s.length then Nowhere else Lookup(s.ranges, p)
  {
    if n < s.length {
      ClearIsPointUpdate(s.ranges, n, At(s.length - 1), p);
    }
  }
}
