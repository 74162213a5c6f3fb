/** The extent store as an object: each method is the code between two awaits of a call, and
    does to the fields what the event of the same name does to the protocol state. */
module FSExtentStores {
  import opened Extents
  import opened AppendProtocol
  import opened ExtentDeletion

  class FSExtentStore {
    var activeWriteExtents: seq<Slot>
    var files: Files
    var jobs: map<nat, Job>
    var nextSerial: nat
    var sizes: map<ExtentId, nat>
    ghost var log: seq<Entry>

    ghost function View(): State
      reads this
    {
      State(activeWriteExtents, files, jobs, nextSerial, sizes, log)
    }

    constructor (maxConcurrency: nat)
      requires maxConcurrency >= 1
      ensures View() == Init(maxConcurrency)
    {
      var i := 0;
      var extents: seq<Slot> := [];
      while i < maxConcurrency
        invariant 0 <= i <= maxConcurrency && |extents| == i
        invariant forall k :: 0 <= k < i ==> extents[k] == Slot(Uuid(k), 0, Idle)
      {
        extents := extents + [Slot(Uuid(i), 0, Idle)];
        i := i + 1;
      }
      activeWriteExtents := extents;
      files, jobs, nextSerial, sizes, log := map[], map[], maxConcurrency, map[], [];
    }

    method Begin(op: nat, data: seq<Byte>)
      requires Enabled(View(), Start(op, data))
      modifies this
      ensures View() == Step(old(View()), Start(op, data))
    {
      var appendExtentIdx := 0;
      var i := 1;
      while i < |activeWriteExtents|
        invariant 1 <= i <= |activeWriteExtents|
        invariant SelectSlot(activeWriteExtents, i) == SelectSlot(activeWriteExtents, 1)
        invariant appendExtentIdx == 0
      {
        if activeWriteExtents[i].status.Idle? {
          appendExtentIdx := i;
          break;
        }
        i := i + 1;
      }
      assert appendExtentIdx == SelectSlot(activeWriteExtents, 1);
      activeWriteExtents := activeWriteExtents[appendExtentIdx :=
        activeWriteExtents[appendExtentIdx].(status := Appending)];
      jobs := jobs[op := Job(appendExtentIdx, data, Selected)];
    }

    /** The slot moves to an extent nobody has: no other slot, no file, and so nothing behind its
        offset. */
    method GetNewExtent(slot: nat)
      requires slot < |activeWriteExtents|
      modifies this`activeWriteExtents, this`nextSerial
      ensures activeWriteExtents
           == old(activeWriteExtents)[slot := Slot(Uuid(old(nextSerial)), 0, old(activeWriteExtents)[slot].status)]
      ensures nextSerial == old(nextSerial) + 1
      ensures old(IdsFresh(View())) ==>
        && IdsFresh(View()) && SlotMatchesFile(View(), slot)
        && activeWriteExtents[slot].id !in files && !IsActiveExtent(old(activeWriteExtents), activeWriteExtents[slot].id)
    {
      activeWriteExtents := activeWriteExtents[slot := Slot(Uuid(nextSerial), 0, activeWriteExtents[slot].status)];
      nextSerial := nextSerial + 1;
    }

    method OpenExtent(op: nat, opens: bool)
      requires Enabled(View(), Open(op)) && IdsFresh(View())
      modifies this
      ensures View() == Step(old(View()), if opens then Open(op) else OpenFails(op))
    {
      var job := jobs[op];
      if activeWriteExtents[job.slot].offset >= MAX_EXTENT_SIZE {
        assert activeWriteExtents[job.slot].id != Uuid(nextSerial);
        GetNewExtent(job.slot);
      }
      var id := activeWriteExtents[job.slot].id;
      if !opens {
        jobs := jobs - {op};
        return;
      }
      if id !in files {
        files := files[id := []];
      }
      jobs := jobs[op := job.(phase := Writing(id, 0))];
    }

    method WriteBytes(op: nat, n: nat)
      requires Enabled(View(), Write(op, n))
      modifies this
      ensures View() == Step(old(View()), Write(op, n))
    {
      var job := jobs[op];
      var id, w := job.phase.id, job.phase.written;
      files := files[id := files[id] + job.data[w..w + n]];
      jobs := jobs[op := job.(phase := Writing(id, w + n))];
    }

    method FinishWriting(op: nat)
      requires Enabled(View(), Written(op))
      modifies this
      ensures View() == Step(old(View()), Written(op))
    {
      var job := jobs[op];
      var extent := activeWriteExtents[job.slot];
      var offset := extent.offset;
      activeWriteExtents := activeWriteExtents[job.slot := extent.(offset := offset + |job.data|)];
      jobs := jobs[op := job.(phase := Recording(job.phase.id, offset))];
    }

    method Return(op: nat) returns (chunk: Chunk)
      requires Enabled(View(), Recorded(op))
      modifies this
      ensures View() == Step(old(View()), Recorded(op))
      ensures log == old(log) + [Entry(chunk, old(jobs)[op].data)]
    {
      var job := jobs[op];
      chunk := Chunk(job.phase.id, job.phase.offset, |job.data|);
      sizes := sizes[chunk.id := chunk.count + chunk.offset];
      activeWriteExtents := activeWriteExtents[job.slot := activeWriteExtents[job.slot].(status := Idle)];
      jobs := jobs - {op};
      log := log + [Entry(chunk, job.data)];
    }

    method Rollback(op: nat, truncates: bool)
      requires Enabled(View(), Fail(op))
      modifies this
      ensures View() == Step(old(View()), if truncates then Fail(op) else FailStuck(op))
    {
      var job := jobs[op];
      jobs := jobs - {op};
      if truncates {
        var extent := activeWriteExtents[job.slot];
        files := files[job.phase.id := Truncated(files[job.phase.id], extent.offset)];
        activeWriteExtents := activeWriteExtents[job.slot := extent.(status := Idle)];
      }
    }

    method IsActive(id: ExtentId) returns (active: bool)
      ensures active <==> IsActiveExtent(activeWriteExtents, id)
    {
      active := false;
      var i := 0;
      while i < |activeWriteExtents|
        invariant 0 <= i <= |activeWriteExtents|
        invariant forall k :: 0 <= k < i ==> activeWriteExtents[k].id != id
      {
        if activeWriteExtents[i].id == id {
          return true;
        }
        i := i + 1;
      }
    }

    /** Skips active extents; drops file and metadata of the others, or only counts them when
        unlinking fails for another reason than a missing file. */
    method DeleteExtents(extents: seq<ExtentId>, unlink: ExtentId -> UnlinkResult) returns (outcome: Outcome)
      modifies this`files, this`sizes, this`log
      ensures Deletion(View(), outcome) == DeleteAll(old(View()), extents, unlink)
    {
      var count := 0;
      var i := 0;
      while i < |extents|
        invariant 0 <= i <= |extents|
        invariant DeleteAll(old(View()), extents, unlink)
               == Plus(DeleteAll(View(), extents[i..], unlink), count)
      {
        var id := extents[i];
        assert extents[i..][1..] == extents[i + 1..];
        i := i + 1;
        var active := IsActive(id);
        if active {
          continue;
        }
        if id !in sizes {
          return MetadataMissing;
        }
        if !unlink(id).OtherError? {
          files := files - {id};
          sizes := sizes - {id};
          log := Without(log, id);
        }
        count := count + 1;
      }
      return Counted(count);
    }
  }

  function Plus(d: Deletion, n: nat): Deletion {
    if d.outcome.Counted? then d.(outcome := Counted(d.outcome.count + n)) else d
  }
}
