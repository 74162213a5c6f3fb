/** Concurrent appends to extent files: an append takes one of a fixed number of write slots,
    streams into the slot's current extent and returns the chunk it wrote. The state machine
    has one event per stretch of code between two awaits. */
module AppendProtocol {
  import opened Extents

  const MAX_EXTENT_SIZE: nat := 64 * 1024 * 1024

  datatype Status = Idle | Appending

  datatype Slot = Slot(id: ExtentId, offset: nat, status: Status)

  /** Where a running append stands, with the values it holds in local variables. */
  datatype Phase = Selected | Writing(id: ExtentId, written: nat) | Recording(id: ExtentId, offset: nat)

  datatype Job = Job(slot: nat, data: seq<Byte>, phase: Phase)

  /** A chunk handed back to a caller, with the payload it was given. */
  datatype Entry = Entry(chunk: Chunk, data: seq<Byte>)

  datatype State = State(
    slots: seq<Slot>,
    files: Files,
    jobs: map<nat, Job>,
    nextSerial: nat,
    sizes: map<ExtentId, nat>,
    log: seq<Entry>)

  datatype Event =
    | Start(op: nat, data: seq<Byte>)  // queue admits the append, a slot is taken
    | Open(op: nat)                    // roll over if the extent is full, open the file
    | OpenFails(op: nat)               // the same, but open throws
    | Write(op: nat, n: nat)           // the next n bytes reach the file
    | Written(op: nat)                 // all bytes are flushed, the slot offset advances
    | Recorded(op: nat)                // the metadata is updated, the chunk is returned
    | Fail(op: nat)                    // write or metadata update throws, the file is truncated
    | FailStuck(op: nat)               // the same, but close or truncate throws too
    | Delete(id: ExtentId)             // the collector unlinks an extent and drops its metadata

  /** First idle slot from `from` on, or slot 0 when there is none. */
  function SelectSlot(slots: seq<Slot>, from: nat): (index: nat)
    requires 1 <= from
    ensures index == 0 || (from <= index < |slots| && slots[index].status.Idle?)
    ensures index == 0 ==> forall i :: from <= i < |slots| ==> slots[i].status.Appending?
    decreases |slots| - from
  {
    if from >= |slots| then 0
    else if slots[from].status.Idle? then from
    else SelectSlot(slots, from + 1)
  }

  function Truncated(file: seq<Byte>, n: nat): seq<Byte> {
    if n <= |file| then file[..n] else file + seq(n - |file|, _ => 0)
  }

  predicate HasJob(s: State, op: nat) {
    op in s.jobs && s.jobs[op].slot < |s.slots|
  }

  predicate Enabled(s: State, e: Event) {
    match e
    case Start(op, _) => |s.jobs| < |s.slots| && op !in s.jobs
    case Open(op) => HasJob(s, op) && s.jobs[op].phase.Selected?
    case OpenFails(op) => HasJob(s, op) && s.jobs[op].phase.Selected?
    case Write(op, n) =>
      && HasJob(s, op) && s.jobs[op].phase.Writing? && s.jobs[op].phase.id in s.files
      && s.jobs[op].phase.written + n <= |s.jobs[op].data|
    case Written(op) => HasJob(s, op) && s.jobs[op].phase.Writing? && s.jobs[op].phase.written == |s.jobs[op].data|
    case Recorded(op) => HasJob(s, op) && s.jobs[op].phase.Recording?
    case Fail(op) => HasJob(s, op) && InFlight(s, op)
    case FailStuck(op) => HasJob(s, op) && InFlight(s, op)
    case Delete(id) => !IsActiveExtent(s.slots, id)
  }

  predicate IsActiveExtent(slots: seq<Slot>, id: ExtentId) {
    exists i :: 0 <= i < |slots| && slots[i].id == id
  }

  /** The entries whose extent is not `id`. */
  function Without(log: seq<Entry>, id: ExtentId): (kept: seq<Entry>)
    ensures forall x :: x in kept <==> x in log && x.chunk.id != id
  {
    if log == [] then []
    else (if log[0].chunk.id == id then [] else [log[0]]) + Without(log[1..], id)
  }

  function Length(files: Files, id: ExtentId): nat {
    if id in files then |files[id]| else 0
  }

  predicate InFlight(s: State, op: nat)
    requires HasJob(s, op)
  {
    !s.jobs[op].phase.Selected? && s.jobs[op].phase.id in s.files
  }

  /** A full extent is left for a fresh one. */
  function RolledOver(s: State, slot: Slot): Slot {
    if slot.offset >= MAX_EXTENT_SIZE then Slot(Uuid(s.nextSerial), 0, slot.status) else slot
  }

  function Step(s: State, e: Event): State
    requires Enabled(s, e)
  {
    match e
    case Start(op, data) =>
      var i := SelectSlot(s.slots, 1);
      s.(slots := s.slots[i := s.slots[i].(status := Appending)],
         jobs := s.jobs[op := Job(i, data, Selected)])
    case Open(op) =>
      var job := s.jobs[op];
      var slot := RolledOver(s, s.slots[job.slot]);
      s.(slots := s.slots[job.slot := slot],
         nextSerial := if slot == s.slots[job.slot] then s.nextSerial else s.nextSerial + 1,
         files := if slot.id in s.files then s.files else s.files[slot.id := []],
         jobs := s.jobs[op := job.(phase := Writing(slot.id, 0))])
    case OpenFails(op) =>
      var job := s.jobs[op];
      var slot := RolledOver(s, s.slots[job.slot]);
      s.(slots := s.slots[job.slot := slot],
         nextSerial := if slot == s.slots[job.slot] then s.nextSerial else s.nextSerial + 1,
         jobs := s.jobs - {op})
    case Write(op, n) =>
      var job := s.jobs[op];
      var id, w := job.phase.id, job.phase.written;
      s.(files := s.files[id := s.files[id] + job.data[w..w + n]],
         jobs := s.jobs[op := job.(phase := Writing(id, w + n))])
    case Written(op) =>
      var job := s.jobs[op];
      var slot := s.slots[job.slot];
      s.(slots := s.slots[job.slot := slot.(offset := slot.offset + |job.data|)],
         jobs := s.jobs[op := job.(phase := Recording(job.phase.id, slot.offset))])
    case Recorded(op) =>
      var job := s.jobs[op];
      var chunk := Chunk(job.phase.id, job.phase.offset, |job.data|);
      s.(slots := s.slots[job.slot := s.slots[job.slot].(status := Idle)],
         sizes := s.sizes[chunk.id := chunk.offset + chunk.count],
         jobs := s.jobs - {op},
         log := s.log + [Entry(chunk, job.data)])
    case Fail(op) =>
      var job := s.jobs[op];
      var id := job.phase.id;
      s.(slots := s.slots[job.slot := s.slots[job.slot].(status := Idle)],
         files := s.files[id := Truncated(s.files[id], s.slots[job.slot].offset)],
         jobs := s.jobs - {op})
    case FailStuck(op) =>
      s.(jobs := s.jobs - {op})
    case Delete(id) =>
      s.(files := s.files - {id}, sizes := s.sizes - {id}, log := Without(s.log, id))
  }

  function Init(n: nat): State
    requires n >= 1
  {
    State(seq(n, i requires 0 <= i < n => Slot(Uuid(i), 0, Idle)), map[], map[], n, map[], [])
  }

  // ----- The invariant -----

  predicate Issued(id: ExtentId, next: nat) {
    id.Uuid? && id.serial < next
  }

  ghost predicate IdsFresh(s: State) {
    && (forall i :: 0 <= i < |s.slots| ==> Issued(s.slots[i].id, s.nextSerial))
    && (forall i, j :: 0 <= i < j < |s.slots| ==> s.slots[i].id != s.slots[j].id)
    && (forall id :: id in s.files ==> Issued(id, s.nextSerial))
  }

  /** Every running append has a slot of its own. */
  ghost predicate Exclusive(s: State) {
    && (forall op :: op in s.jobs ==> s.jobs[op].slot < |s.slots| && s.slots[s.jobs[op].slot].status.Appending?)
    && (forall p, q :: p in s.jobs && q in s.jobs && p != q ==> s.jobs[p].slot != s.jobs[q].slot)
  }

  ghost predicate Occupied(jobs: map<nat, Job>, i: nat) {
    exists op :: op in jobs && jobs[op].slot == i
  }

  /** No slot is marked as appending without a running append. */
  ghost predicate NoLeak(s: State) {
    forall i :: 0 <= i < |s.slots| && s.slots[i].status.Appending? ==> Occupied(s.jobs, i)
  }

  /** A slot marked as appending without a running append: one ended in a failure outside the
      rollback. Only slot 0 is selected while it is marked, and set back by the next append. */
  ghost predicate Leaked(s: State, i: nat) {
    i < |s.slots| && s.slots[i].status.Appending? && !Occupied(s.jobs, i)
  }

  ghost predicate SlotMatchesFile(s: State, i: nat)
    requires i < |s.slots|
  {
    Length(s.files, s.slots[i].id) == s.slots[i].offset
  }

  ghost predicate IdleMatches(s: State) {
    forall i :: 0 <= i < |s.slots| && s.slots[i].status.Idle? ==> SlotMatchesFile(s, i)
  }

  ghost predicate JobOk(s: State, job: Job)
    requires job.slot < |s.slots|
  {
    var slot := s.slots[job.slot];
    match job.phase
    case Selected => SlotMatchesFile(s, job.slot)
    case Writing(id, w) =>
      && id == slot.id && id in s.files && slot.offset < MAX_EXTENT_SIZE && w <= |job.data|
      && |s.files[id]| == slot.offset + w && s.files[id][slot.offset..] == job.data[..w]
    case Recording(id, off) =>
      && id == slot.id && id in s.files && off < MAX_EXTENT_SIZE
      && slot.offset == off + |job.data| == |s.files[id]| && s.files[id][off..] == job.data
  }

  ghost predicate JobsOk(s: State) {
    forall op :: op in s.jobs ==> s.jobs[op].slot < |s.slots| && JobOk(s, s.jobs[op])
  }

  /** The chunk still reads as what was appended, and lies below every byte that a running
      append may yet write or truncate. */
  ghost predicate EntryOk(s: State, entry: Entry) {
    var c := entry.chunk;
    && c.id in s.files && c.count == |entry.data| && c.offset < MAX_EXTENT_SIZE
    && c.offset + c.count <= |s.files[c.id]|
    && s.files[c.id][c.offset..c.offset + c.count] == entry.data
    && (forall i :: 0 <= i < |s.slots| && s.slots[i].id == c.id ==> c.offset + c.count <= s.slots[i].offset)
    && (forall op :: op in s.jobs && s.jobs[op].phase.Recording? && s.jobs[op].phase.id == c.id ==>
          c.offset + c.count <= s.jobs[op].phase.offset)
  }

  ghost predicate LogOk(s: State) {
    forall k :: 0 <= k < |s.log| ==> EntryOk(s, s.log[k])
  }

  /** Chunks of one extent are handed out in order and never overlap. */
  ghost predicate Disjoint(log: seq<Entry>) {
    forall i, j :: 0 <= i < j < |log| && log[i].chunk.id == log[j].chunk.id ==>
      log[i].chunk.offset + log[i].chunk.count <= log[j].chunk.offset
  }

  /** Behind a leaked slot the file may be longer than the offset, by what an append wrote before
      it failed; that append had not found the extent full. */
  ghost predicate LeakOk(s: State, i: nat)
    requires i < |s.slots|
  {
    && s.slots[i].offset <= Length(s.files, s.slots[i].id)
    && (SlotMatchesFile(s, i) || s.slots[i].offset < MAX_EXTENT_SIZE)
  }

  ghost predicate LeaksOk(s: State) {
    forall i :: 0 <= i < |s.slots| && Leaked(s, i) ==> LeakOk(s, i)
  }

  /** What holds whatever fails, as long as appends do not share a slot. */
  ghost predicate Core(s: State) {
    && |s.slots| > 0 && IdsFresh(s) && Exclusive(s)
    && IdleMatches(s) && LeaksOk(s) && JobsOk(s) && LogOk(s) && Disjoint(s.log)
  }

  /** Slot 0, the one taken when no other is idle, may stay marked as appending as long as its
      file ends at its offset; no other slot is leaked. */
  ghost predicate Tidy(s: State) {
    forall i :: 0 <= i < |s.slots| && Leaked(s, i) ==> i == 0 && SlotMatchesFile(s, i)
  }

  ghost predicate Inv(s: State) {
    Core(s) && Tidy(s)
  }

  lemma InitInv(n: nat)
    requires n >= 1
    ensures Inv(Init(n))
  {
  }

  // ----- Slot selection under the queue's bound -----

  lemma {:induction false} EnoughJobs(slots: nat, jobs: map<nat, Job>)
    requires forall i :: 0 <= i < slots ==> Occupied(jobs, i)
    ensures |jobs| >= slots
  {
    if slots > 0 {
      assert Occupied(jobs, slots - 1);
      var op :| op in jobs && jobs[op].slot == slots - 1;
      var rest := jobs - {op};
      forall i | 0 <= i < slots - 1 ensures Occupied(rest, i) {
        assert Occupied(jobs, i);
        var q :| q in jobs && jobs[q].slot == i;
        assert q in rest && rest[q].slot == i;
      }
      EnoughJobs(slots - 1, rest);
      assert jobs.Keys == rest.Keys + {op};
      assert |jobs.Keys| == |rest.Keys| + 1;
    }
  }

  /** With room in the queue and no leaked slot, the selected slot is idle. */
  lemma SelectedIsIdle(s: State)
    requires |s.slots| > 0 && NoLeak(s) && |s.jobs| < |s.slots|
    ensures s.slots[SelectSlot(s.slots, 1)].status.Idle?
  {
    var k := SelectSlot(s.slots, 1);
    if s.slots[k].status.Appending? {
      forall i | 0 <= i < |s.slots| ensures Occupied(s.jobs, i) {
        assert s.slots[i].status.Appending? by {
          assert k == 0;
        }
      }
      EnoughJobs(|s.slots|, s.jobs);
    }
  }

  /** In a tidy state the selected slot is nobody's, and its file ends at its offset. */
  lemma SelectedIsFree(s: State)
    requires Core(s) && Tidy(s) && |s.jobs| < |s.slots|
    ensures var k := SelectSlot(s.slots, 1); !Occupied(s.jobs, k) && SlotMatchesFile(s, k)
  {
    var k := SelectSlot(s.slots, 1);
    if s.slots[k].status.Appending? {
      assert k == 0;
      forall i | 1 <= i < |s.slots| ensures Occupied(s.jobs, i) {
        assert !Leaked(s, i);
      }
      if Occupied(s.jobs, 0) {
        EnoughJobs(|s.slots|, s.jobs);
      } else {
        assert Leaked(s, 0);
      }
    }
  }

  // ----- Preservation, event by event -----

  predicate Clean(e: Event) {
    !e.OpenFails? && !e.FailStuck?
  }

  /** A failure outside the rollback is harmless in slot 0, if the append had left nothing behind
      the slot's offset. */
  predicate Harmless(s: State, e: Event)
    requires Enabled(s, e)
  {
    match e
    case OpenFails(op) => s.jobs[op].slot == 0
    case FailStuck(op) => s.jobs[op].slot == 0 && Length(s.files, s.slots[0].id) == s.slots[0].offset
    case _ => true
  }

  /** From s to t only slot i, the files behind it and append op change. */
  ghost predicate LocalTo(s: State, t: State, i: nat, op: nat) {
    && i < |s.slots| == |t.slots|
    && (forall j :: 0 <= j < |s.slots| && j != i ==> t.slots[j] == s.slots[j])
    && (forall q :: q != op ==> (q in t.jobs <==> q in s.jobs))
    && (forall q :: q != op && q in t.jobs ==> t.jobs[q] == s.jobs[q] && s.jobs[q].slot != i)
    && (forall id :: id != s.slots[i].id && id != t.slots[i].id ==> (id in t.files <==> id in s.files))
    && (forall id :: id != s.slots[i].id && id != t.slots[i].id && id in t.files ==> t.files[id] == s.files[id])
  }

  lemma OtherJobs(s: State, t: State, i: nat, op: nat)
    requires IdsFresh(s) && IdsFresh(t) && Exclusive(s) && JobsOk(s) && LocalTo(s, t, i, op)
    requires op in t.jobs ==> t.jobs[op].slot == i && JobOk(t, t.jobs[op])
    ensures JobsOk(t)
  {
    forall q | q in t.jobs && q != op ensures t.jobs[q].slot < |t.slots| && JobOk(t, t.jobs[q]) {
      assert JobOk(s, s.jobs[q]);
      var j := s.jobs[q].slot;
      assert t.slots[j].id != t.slots[i].id && s.slots[j].id != s.slots[i].id;
    }
  }

  lemma OtherSlots(s: State, t: State, i: nat, op: nat)
    requires IdsFresh(s) && IdsFresh(t) && IdleMatches(s) && LocalTo(s, t, i, op)
    requires t.slots[i].status.Idle? ==> SlotMatchesFile(t, i)
    ensures IdleMatches(t)
  {
    forall j | 0 <= j < |t.slots| && t.slots[j].status.Idle? && j != i ensures SlotMatchesFile(t, j) {
      assert SlotMatchesFile(s, j);
      assert t.slots[j].id != t.slots[i].id && s.slots[j].id != s.slots[i].id;
    }
  }

  /** A local change leaves the entry's bytes alone and keeps it below what is written or
      truncated. */
  ghost predicate Spares(s: State, t: State, i: nat, op: nat, entry: Entry)
    requires i < |s.slots| == |t.slots|
  {
    var c := entry.chunk;
    && (c.id == s.slots[i].id && c.id in s.files ==>
          && c.id in t.files && c.offset + c.count <= |t.files[c.id]| && c.offset + c.count <= |s.files[c.id]|
          && t.files[c.id][..c.offset + c.count] == s.files[c.id][..c.offset + c.count])
    && (t.slots[i].id == c.id ==> s.slots[i].id == c.id && c.offset + c.count <= t.slots[i].offset)
    && (op in t.jobs && t.jobs[op].phase.Recording? && t.jobs[op].phase.id == c.id ==>
          c.offset + c.count <= t.jobs[op].phase.offset)
  }

  lemma EntryKept(s: State, t: State, i: nat, op: nat, entry: Entry)
    requires LocalTo(s, t, i, op) && EntryOk(s, entry) && Spares(s, t, i, op, entry)
    ensures EntryOk(t, entry)
  {
    var c := entry.chunk;
    if c.id == s.slots[i].id {
      assert t.files[c.id][c.offset..c.offset + c.count] == t.files[c.id][..c.offset + c.count][c.offset..];
      assert s.files[c.id][c.offset..c.offset + c.count] == s.files[c.id][..c.offset + c.count][c.offset..];
    }
  }

  lemma EntriesKept(s: State, t: State, i: nat, op: nat)
    requires LogOk(s) && LocalTo(s, t, i, op)
    requires forall e :: 0 <= e < |s.log| ==> Spares(s, t, i, op, s.log[e])
    ensures forall e :: 0 <= e < |s.log| ==> EntryOk(t, s.log[e])
  {
    hide LocalTo, EntryOk, Spares;
    forall e | 0 <= e < |s.log| ensures EntryOk(t, s.log[e]) {
      EntryKept(s, t, i, op, s.log[e]);
    }
  }

  /** Outside the changed slot nothing starts or stops to be leaked, and nothing moves there. */
  lemma OtherLeaks(s: State, t: State, i: nat, op: nat)
    requires IdsFresh(s) && IdsFresh(t) && LocalTo(s, t, i, op)
    requires op in s.jobs ==> s.jobs[op].slot == i
    requires op in t.jobs ==> t.jobs[op].slot == i
    ensures forall j :: 0 <= j < |s.slots| && j != i ==> (Leaked(t, j) <==> Leaked(s, j))
    ensures forall j :: 0 <= j < |s.slots| && j != i ==> Length(t.files, t.slots[j].id) == Length(s.files, s.slots[j].id)
  {
    forall j | 0 <= j < |s.slots| && j != i
      ensures Leaked(t, j) <==> Leaked(s, j)
      ensures Length(t.files, t.slots[j].id) == Length(s.files, s.slots[j].id)
    {
      assert t.slots[j].id != t.slots[i].id && s.slots[j].id != s.slots[i].id;
      if q :| q in s.jobs && s.jobs[q].slot == j {
        assert q in t.jobs && t.jobs[q].slot == j;
      }
      if q :| q in t.jobs && t.jobs[q].slot == j {
        assert q in s.jobs && s.jobs[q].slot == j;
      }
    }
  }

  lemma LeaksKept(s: State, t: State, i: nat, op: nat)
    requires IdsFresh(s) && IdsFresh(t) && LeaksOk(s) && LocalTo(s, t, i, op)
    requires op in s.jobs ==> s.jobs[op].slot == i
    requires op in t.jobs ==> t.jobs[op].slot == i
    requires Leaked(t, i) ==> LeakOk(t, i)
    ensures LeaksOk(t)
    ensures Tidy(s) && (Leaked(t, i) ==> i == 0 && SlotMatchesFile(t, i)) ==> Tidy(t)
  {
    OtherLeaks(s, t, i, op);
    hide Leaked, Length, IdsFresh;
    forall j | 0 <= j < |t.slots| && Leaked(t, j) && j != i ensures LeakOk(t, j) {
      assert LeakOk(s, j) && t.slots[j] == s.slots[j];
    }
    if Tidy(s) {
      forall j | 0 <= j < |t.slots| && Leaked(t, j) && j != i ensures j == 0 && SlotMatchesFile(t, j) {
        assert SlotMatchesFile(s, j) && t.slots[j] == s.slots[j];
      }
    }
  }

  /** A local change keeps the invariant when it leaves its own slot, append and entries in order. */
  lemma LocalCore(s: State, t: State, i: nat, op: nat)
    requires Core(s) && LocalTo(s, t, i, op) && t.log == s.log
    requires IdsFresh(t) && Exclusive(t)
    requires op in s.jobs ==> s.jobs[op].slot == i
    requires op in t.jobs ==> t.jobs[op].slot == i && JobOk(t, t.jobs[op])
    requires t.slots[i].status.Idle? ==> SlotMatchesFile(t, i)
    requires Leaked(t, i) ==> LeakOk(t, i)
    requires forall e :: 0 <= e < |s.log| ==> Spares(s, t, i, op, s.log[e])
    ensures Core(t)
    ensures Tidy(s) && (Leaked(t, i) ==> i == 0 && SlotMatchesFile(t, i)) ==> Tidy(t)
  {
    assert |t.slots| == |s.slots|;
    hide LocalTo, EntryOk, Spares, JobOk, SlotMatchesFile, Disjoint, IdsFresh, Exclusive, Leaked, LeakOk, Tidy;
    OtherJobs(s, t, i, op);
    OtherSlots(s, t, i, op);
    LeaksKept(s, t, i, op);
    EntriesKept(s, t, i, op);
  }

  /** The premises of the entries while a slot only grows. */
  lemma GrowthSpares(s: State, t: State, i: nat, op: nat)
    requires LogOk(s) && i < |s.slots| == |t.slots| && t.slots[i].id == s.slots[i].id
    requires s.slots[i].offset <= t.slots[i].offset
    requires s.slots[i].id in s.files ==>
      s.slots[i].id in t.files && s.files[s.slots[i].id] <= t.files[s.slots[i].id]
    requires op in t.jobs && t.jobs[op].phase.Recording? ==>
      t.jobs[op].phase.id == s.slots[i].id && t.jobs[op].phase.offset == s.slots[i].offset
    ensures forall e :: 0 <= e < |s.log| ==> Spares(s, t, i, op, s.log[e])
  {
    forall e | 0 <= e < |s.log| ensures Spares(s, t, i, op, s.log[e]) {
      assert EntryOk(s, s.log[e]);
      var c := s.log[e].chunk;
      if c.id == s.slots[i].id {
        var was, now := s.files[c.id], t.files[c.id];
        assert now[..|was|] == was && now[..c.offset + c.count] == now[..|was|][..c.offset + c.count];
      }
    }
  }

  /** Starting in a slot that is nobody's and matches its file. */
  lemma StartCore(s: State, op: nat, data: seq<Byte>)
    requires Core(s) && Enabled(s, Start(op, data))
    requires !Occupied(s.jobs, SelectSlot(s.slots, 1)) && SlotMatchesFile(s, SelectSlot(s.slots, 1))
    ensures Core(Step(s, Start(op, data)))
    ensures Tidy(s) ==> Tidy(Step(s, Start(op, data)))
  {
    var t := Step(s, Start(op, data));
    var k := SelectSlot(s.slots, 1);
    StartShape(s, op, data);
    StartJob(s, op, data);
    assert Occupied(t.jobs, k) by {
      assert t.jobs[op].slot == k;
    }
    hide EntryOk, Spares, JobOk, Disjoint, Occupied, LocalTo, IdsFresh, Exclusive, Tidy;
    GrowthSpares(s, t, k, op);
    LocalCore(s, t, k, op);
  }

  lemma StartShape(s: State, op: nat, data: seq<Byte>)
    requires |s.slots| > 0 && IdsFresh(s) && Exclusive(s) && Enabled(s, Start(op, data))
    requires !Occupied(s.jobs, SelectSlot(s.slots, 1))
    ensures var t := Step(s, Start(op, data));
      IdsFresh(t) && Exclusive(t) && LocalTo(s, t, SelectSlot(s.slots, 1), op)
  {
    StartLocal(s, op, data);
    hide LocalTo, Occupied;
  }

  lemma StartLocal(s: State, op: nat, data: seq<Byte>)
    requires |s.slots| > 0 && Enabled(s, Start(op, data)) && !Occupied(s.jobs, SelectSlot(s.slots, 1))
    ensures LocalTo(s, Step(s, Start(op, data)), SelectSlot(s.slots, 1), op)
    ensures forall q :: q in s.jobs ==> s.jobs[q].slot != SelectSlot(s.slots, 1)
  {
    var k := SelectSlot(s.slots, 1);
    assert forall q :: q in s.jobs ==> s.jobs[q].slot != k || Occupied(s.jobs, k);
  }

  lemma StartJob(s: State, op: nat, data: seq<Byte>)
    requires Enabled(s, Start(op, data)) && |s.slots| > 0 && SlotMatchesFile(s, SelectSlot(s.slots, 1))
    ensures var t := Step(s, Start(op, data)); JobOk(t, t.jobs[op])
  {
  }

  lemma StartInv(s: State, op: nat, data: seq<Byte>)
    requires Inv(s) && Enabled(s, Start(op, data))
    ensures Inv(Step(s, Start(op, data)))
  {
    SelectedIsFree(s);
    StartCore(s, op, data);
  }

  /** The slot of a running append is not leaked. */
  lemma OwnSlot(t: State, i: nat, op: nat)
    requires op in t.jobs && t.jobs[op].slot == i
    ensures !Leaked(t, i)
  {
    assert Occupied(t.jobs, i);
  }

  lemma OpenInv(s: State, op: nat)
    requires Core(s) && Enabled(s, Open(op))
    ensures Core(Step(s, Open(op)))
    ensures Tidy(s) ==> Tidy(Step(s, Open(op)))
  {
    var t := Step(s, Open(op));
    var i := s.jobs[op].slot;
    assert SlotMatchesFile(s, i) by {
      assert JobOk(s, s.jobs[op]);
    }
    OpenIds(s, op);
    OpenLocal(s, op);
    OpenSpares(s, op);
    assert op in t.jobs && t.jobs[op].slot == i && t.slots[i].status.Appending? && t.log == s.log;
    hide *;
    OwnSlot(t, i, op);
    LocalCore(s, t, i, op);
  }

  lemma OpenSpares(s: State, op: nat)
    requires IdsFresh(s) && LogOk(s) && Enabled(s, Open(op))
    ensures var t := Step(s, Open(op));
      |t.slots| == |s.slots| && forall e :: 0 <= e < |s.log| ==> Spares(s, t, s.jobs[op].slot, op, s.log[e])
  {
    var t := Step(s, Open(op));
    forall e | 0 <= e < |s.log| ensures Spares(s, t, s.jobs[op].slot, op, s.log[e]) {
      assert EntryOk(s, s.log[e]);
    }
  }

  lemma OpenIds(s: State, op: nat)
    requires IdsFresh(s) && Exclusive(s) && Enabled(s, Open(op))
    ensures IdsFresh(Step(s, Open(op))) && Exclusive(Step(s, Open(op)))
  {
  }

  lemma OpenLocal(s: State, op: nat)
    requires IdsFresh(s) && Exclusive(s) && Enabled(s, Open(op))
    requires SlotMatchesFile(s, s.jobs[op].slot)
    ensures var t := Step(s, Open(op));
      LocalTo(s, t, s.jobs[op].slot, op) && JobOk(t, t.jobs[op])
  {
    var t := Step(s, Open(op));
    var i := s.jobs[op].slot;
    assert t.slots[i] == RolledOver(s, s.slots[i]);
  }

  lemma WriteInv(s: State, op: nat, n: nat)
    requires Core(s) && Enabled(s, Write(op, n))
    ensures Core(Step(s, Write(op, n)))
    ensures Tidy(s) ==> Tidy(Step(s, Write(op, n)))
  {
    hide EntryOk, Spares, Disjoint, LocalTo, IdleMatches, Leaked, Tidy, LeaksOk;
    var t := Step(s, Write(op, n));
    var i := s.jobs[op].slot;
    assert JobOk(s, s.jobs[op]);
    WriteShape(s, op, n);
    WriteBytes(s, op, n);
    GrowthSpares(s, t, i, op);
    OwnSlot(t, i, op);
    LocalCore(s, t, i, op);
  }

  lemma WriteShape(s: State, op: nat, n: nat)
    requires IdsFresh(s) && Exclusive(s) && Enabled(s, Write(op, n)) && JobOk(s, s.jobs[op])
    ensures var t := Step(s, Write(op, n));
      IdsFresh(t) && Exclusive(t) && LocalTo(s, t, s.jobs[op].slot, op)
  {
  }

  lemma WriteBytes(s: State, op: nat, n: nat)
    requires Enabled(s, Write(op, n)) && JobOk(s, s.jobs[op])
    ensures var t := Step(s, Write(op, n)); JobOk(t, t.jobs[op])
  {
    var t := Step(s, Write(op, n));
    var slot, w, data := s.slots[s.jobs[op].slot], s.jobs[op].phase.written, s.jobs[op].data;
    assert t.files[slot.id][slot.offset..] == s.files[slot.id][slot.offset..] + data[w..w + n];
    assert data[..w] + data[w..w + n] == data[..w + n];
  }

  lemma WrittenInv(s: State, op: nat)
    requires Core(s) && Enabled(s, Written(op))
    ensures Core(Step(s, Written(op)))
    ensures Tidy(s) ==> Tidy(Step(s, Written(op)))
  {
    hide EntryOk, Spares, Disjoint, LocalTo, IdleMatches, Leaked, Tidy, LeaksOk;
    var t := Step(s, Written(op));
    var i := s.jobs[op].slot;
    assert JobOk(s, s.jobs[op]);
    WrittenShape(s, op);
    GrowthSpares(s, t, i, op);
    OwnSlot(t, i, op);
    LocalCore(s, t, i, op);
  }

  lemma WrittenShape(s: State, op: nat)
    requires IdsFresh(s) && Exclusive(s) && Enabled(s, Written(op)) && JobOk(s, s.jobs[op])
    ensures var t := Step(s, Written(op));
      IdsFresh(t) && Exclusive(t) && LocalTo(s, t, s.jobs[op].slot, op) && JobOk(t, t.jobs[op])
  {
  }

  /** The last event of an append frees its slot. */
  lemma Released(s: State, t: State, op: nat)
    requires Core(s) && HasJob(s, op) && InFlight(s, op) && t.jobs == s.jobs - {op}
    requires t.slots == s.slots[s.jobs[op].slot := s.slots[s.jobs[op].slot].(status := Idle)]
    requires t.nextSerial == s.nextSerial && t.files.Keys == s.files.Keys
    requires forall id :: id in s.files && id != s.jobs[op].phase.id ==> t.files[id] == s.files[id]
    requires t.files[s.jobs[op].phase.id] == s.files[s.jobs[op].phase.id][..s.slots[s.jobs[op].slot].offset]
    ensures IdsFresh(t) && Exclusive(t) && IdleMatches(t) && JobsOk(t) && LeaksOk(t)
    ensures Tidy(s) ==> Tidy(t)
    ensures forall e :: 0 <= e < |s.log| ==> EntryOk(t, s.log[e])
  {
    var i := s.jobs[op].slot;
    assert JobOk(s, s.jobs[op]);
    ReleaseShape(s, t, op);
    ReleaseSpares(s, t, op);
    hide LocalTo, EntryOk, Spares, IdsFresh, Exclusive, Tidy, LeaksOk;
    OtherJobs(s, t, i, op);
    OtherSlots(s, t, i, op);
    LeaksKept(s, t, i, op);
    EntriesKept(s, t, i, op);
  }

  lemma ReleaseShape(s: State, t: State, op: nat)
    requires IdsFresh(s) && Exclusive(s) && HasJob(s, op) && t.jobs == s.jobs - {op}
    requires t.slots == s.slots[s.jobs[op].slot := s.slots[s.jobs[op].slot].(status := Idle)]
    requires t.nextSerial == s.nextSerial && t.files.Keys == s.files.Keys
    requires forall id :: id in s.files && id != s.slots[s.jobs[op].slot].id ==> t.files[id] == s.files[id]
    ensures IdsFresh(t) && Exclusive(t) && LocalTo(s, t, s.jobs[op].slot, op)
  {
  }

  lemma ReleaseSpares(s: State, t: State, op: nat)
    requires LogOk(s) && HasJob(s, op) && InFlight(s, op) && JobOk(s, s.jobs[op]) && op !in t.jobs
    requires t.slots == s.slots[s.jobs[op].slot := s.slots[s.jobs[op].slot].(status := Idle)]
    requires s.jobs[op].phase.id in t.files
    requires var kept := if s.jobs[op].phase.Recording? then |s.files[s.jobs[op].phase.id]| else s.slots[s.jobs[op].slot].offset;
      t.files[s.jobs[op].phase.id] == s.files[s.jobs[op].phase.id][..kept]
    ensures forall e :: 0 <= e < |s.log| ==> Spares(s, t, s.jobs[op].slot, op, s.log[e])
  {
    forall e | 0 <= e < |s.log| ensures Spares(s, t, s.jobs[op].slot, op, s.log[e]) {
      assert EntryOk(s, s.log[e]);
    }
  }

  lemma RecordedInv(s: State, op: nat)
    requires Core(s) && Enabled(s, Recorded(op))
    ensures Core(Step(s, Recorded(op)))
    ensures Tidy(s) ==> Tidy(Step(s, Recorded(op)))
  {
    var t := Step(s, Recorded(op));
    var job := s.jobs[op];
    assert JobOk(s, job);
    Released(s, t, op);
    NewEntryOk(s, t, op);
    hide IdsFresh, Exclusive, IdleMatches, JobsOk, Leaked, LeakOk, Length;
    forall e | 0 <= e < |s.log| && s.log[e].chunk.id == job.phase.id
      ensures s.log[e].chunk.offset + s.log[e].chunk.count <= job.phase.offset
    {
      assert EntryOk(s, s.log[e]);
    }
  }

  lemma NewEntryOk(s: State, t: State, op: nat)
    requires IdsFresh(s) && Exclusive(s) && JobsOk(s) && Enabled(s, Recorded(op)) && t == Step(s, Recorded(op))
    ensures EntryOk(t, t.log[|t.log| - 1])
  {
    var job := s.jobs[op];
    assert JobOk(s, job);
    forall q | q in t.jobs && t.jobs[q].phase.Recording? ensures t.jobs[q].phase.id != job.phase.id {
      assert JobOk(s, s.jobs[q]);
      assert s.slots[s.jobs[q].slot].id != s.slots[job.slot].id;
    }
  }

  lemma FailInv(s: State, op: nat)
    requires Core(s) && Enabled(s, Fail(op))
    ensures Core(Step(s, Fail(op)))
    ensures Tidy(s) ==> Tidy(Step(s, Fail(op)))
  {
    assert JobOk(s, s.jobs[op]);
    Released(s, Step(s, Fail(op)), op);
  }

  lemma {:induction false} WithoutDisjoint(log: seq<Entry>, id: ExtentId)
    requires Disjoint(log)
    ensures Disjoint(Without(log, id))
  {
    if log != [] {
      var rest := Without(log[1..], id);
      WithoutDisjoint(log[1..], id);
      forall j | 0 <= j < |rest| && rest[j].chunk.id == log[0].chunk.id
        ensures log[0].chunk.offset + log[0].chunk.count <= rest[j].chunk.offset
      {
        assert rest[j] in rest;
        var k :| 0 <= k < |log[1..]| && log[1..][k] == rest[j];
        assert log[k + 1] == rest[j];
      }
    }
  }

  lemma DeleteInv(s: State, id: ExtentId)
    requires Core(s) && Enabled(s, Delete(id))
    ensures Core(Step(s, Delete(id)))
    ensures Tidy(s) ==> Tidy(Step(s, Delete(id)))
  {
    var t := Step(s, Delete(id));
    WithoutDisjoint(s.log, id);
    DeleteJobs(s, id);
    DeleteEntries(s, id);
    DeleteSlots(s, id);
    hide EntryOk, JobOk, Disjoint, IdsFresh, Exclusive, IdleMatches, JobsOk, LogOk, LeaksOk, Tidy;
  }

  lemma DeleteSlots(s: State, id: ExtentId)
    requires IdsFresh(s) && Exclusive(s) && IdleMatches(s) && LeaksOk(s) && Enabled(s, Delete(id))
    ensures var t := Step(s, Delete(id)); IdsFresh(t) && Exclusive(t) && IdleMatches(t) && LeaksOk(t)
    ensures Tidy(s) ==> Tidy(Step(s, Delete(id)))
  {
    var t := Step(s, Delete(id));
    forall i | 0 <= i < |t.slots|
      ensures Length(t.files, t.slots[i].id) == Length(s.files, s.slots[i].id) && (Leaked(t, i) <==> Leaked(s, i))
    {
      assert t.slots[i].id != id;
    }
    hide Leaked, Length;
    forall i | 0 <= i < |t.slots| && t.slots[i].status.Idle? ensures SlotMatchesFile(t, i) {
      assert SlotMatchesFile(s, i);
    }
    forall i | 0 <= i < |t.slots| && Leaked(t, i) ensures LeakOk(t, i) {
      assert LeakOk(s, i);
    }
    if Tidy(s) {
      forall i | 0 <= i < |t.slots| && Leaked(t, i) ensures i == 0 && SlotMatchesFile(t, i) {
        assert SlotMatchesFile(s, i);
      }
    }
  }

  lemma DeleteJobs(s: State, id: ExtentId)
    requires Exclusive(s) && JobsOk(s) && Enabled(s, Delete(id))
    ensures JobsOk(Step(s, Delete(id)))
  {
    var t := Step(s, Delete(id));
    forall q | q in t.jobs ensures JobOk(t, t.jobs[q]) {
      assert JobOk(s, s.jobs[q]);
    }
  }

  lemma DeleteEntries(s: State, id: ExtentId)
    requires LogOk(s) && Enabled(s, Delete(id))
    ensures LogOk(Step(s, Delete(id)))
  {
    var t := Step(s, Delete(id));
    forall e | 0 <= e < |t.log| ensures EntryOk(t, t.log[e]) {
      assert t.log[e] in t.log;
      var k :| 0 <= k < |s.log| && s.log[k] == t.log[e];
      assert EntryOk(s, s.log[k]);
    }
  }

  // ----- Failures outside the rollback -----

  /** Such a failure leaves everything in order except the slot, which stays marked. */
  lemma OpenFailsCore(s: State, op: nat)
    requires Core(s) && Enabled(s, OpenFails(op))
    ensures Core(Step(s, OpenFails(op))) && Leaked(Step(s, OpenFails(op)), s.jobs[op].slot)
    ensures Tidy(s) && s.jobs[op].slot == 0 ==> Tidy(Step(s, OpenFails(op)))
  {
    var t := Step(s, OpenFails(op));
    var i := s.jobs[op].slot;
    assert SlotMatchesFile(s, i) by {
      assert JobOk(s, s.jobs[op]);
    }
    OpenFailsShape(s, op);
    OpenFailsSpares(s, op);
    hide *;
    LocalCore(s, t, i, op);
  }

  lemma OpenFailsShape(s: State, op: nat)
    requires IdsFresh(s) && Exclusive(s) && Enabled(s, OpenFails(op)) && SlotMatchesFile(s, s.jobs[op].slot)
    ensures var t, i := Step(s, OpenFails(op)), s.jobs[op].slot;
      && IdsFresh(t) && Exclusive(t) && LocalTo(s, t, i, op) && t.log == s.log && op in s.jobs && op !in t.jobs
      && i < |t.slots| == |s.slots| && t.slots[i].status.Appending? && Leaked(t, i) && LeakOk(t, i) && SlotMatchesFile(t, i)
  {
    OpenFailsLeaks(s, op);
    OpenFailsIds(s, op);
    hide Leaked, LeakOk, SlotMatchesFile, IdsFresh;
  }

  lemma OpenFailsLeaks(s: State, op: nat)
    requires IdsFresh(s) && Exclusive(s) && Enabled(s, OpenFails(op)) && SlotMatchesFile(s, s.jobs[op].slot)
    ensures var t, i := Step(s, OpenFails(op)), s.jobs[op].slot;
      && i < |t.slots| == |s.slots| && t.slots[i].status.Appending?
      && Leaked(t, i) && LeakOk(t, i) && SlotMatchesFile(t, i)
  {
  }

  lemma OpenFailsIds(s: State, op: nat)
    requires IdsFresh(s) && Enabled(s, OpenFails(op))
    ensures IdsFresh(Step(s, OpenFails(op)))
  {
  }

  lemma OpenFailsSpares(s: State, op: nat)
    requires IdsFresh(s) && LogOk(s) && Enabled(s, OpenFails(op))
    ensures var t := Step(s, OpenFails(op));
      |t.slots| == |s.slots| && forall e :: 0 <= e < |s.log| ==> Spares(s, t, s.jobs[op].slot, op, s.log[e])
  {
    var t := Step(s, OpenFails(op));
    forall e | 0 <= e < |s.log| ensures Spares(s, t, s.jobs[op].slot, op, s.log[e]) {
      assert EntryOk(s, s.log[e]);
    }
  }

  lemma FailStuckCore(s: State, op: nat)
    requires Core(s) && Enabled(s, FailStuck(op))
    ensures Core(Step(s, FailStuck(op))) && Leaked(Step(s, FailStuck(op)), s.jobs[op].slot)
    ensures SlotMatchesFile(Step(s, FailStuck(op)), s.jobs[op].slot) <==> SlotMatchesFile(s, s.jobs[op].slot)
    ensures Tidy(s) && s.jobs[op].slot == 0 && SlotMatchesFile(s, 0) ==> Tidy(Step(s, FailStuck(op)))
  {
    var t := Step(s, FailStuck(op));
    var i := s.jobs[op].slot;
    FailStuckShape(s, op);
    GrowthSpares(s, t, i, op);
    assert SlotMatchesFile(t, i) <==> SlotMatchesFile(s, i);
    hide *;
    LocalCore(s, t, i, op);
  }

  lemma FailStuckShape(s: State, op: nat)
    requires IdsFresh(s) && Exclusive(s) && JobsOk(s) && Enabled(s, FailStuck(op))
    ensures var t, i := Step(s, FailStuck(op)), s.jobs[op].slot;
      && IdsFresh(t) && Exclusive(t) && LocalTo(s, t, i, op) && t.log == s.log && op in s.jobs && op !in t.jobs
      && i < |t.slots| == |s.slots| && t.slots == s.slots && t.files == s.files
      && t.slots[i].status.Appending? && Leaked(t, i) && LeakOk(t, i)
  {
    assert JobOk(s, s.jobs[op]);
  }

  /** Exactly the harmless failures keep the invariant. */
  lemma HarmlessExactly(s: State, e: Event)
    requires Inv(s) && Enabled(s, e)
    ensures Core(Step(s, e))
    ensures Inv(Step(s, e)) <==> Harmless(s, e)
  {
    match e
    case Start(op, data) => StartInv(s, op, data);
    case Open(op) => OpenInv(s, op);
    case OpenFails(op) => OpenFailsCore(s, op);
    case Write(op, n) => WriteInv(s, op, n);
    case Written(op) => WrittenInv(s, op);
    case Recorded(op) => RecordedInv(s, op);
    case Fail(op) => FailInv(s, op);
    case FailStuck(op) => FailStuckCore(s, op);
    case Delete(id) => DeleteInv(s, id);
  }

  /** The central step: whatever event happens, harmless failures included, the invariant holds
      on, and nothing already returned is forgotten. */
  lemma StepInv(s: State, e: Event)
    requires Inv(s) && Enabled(s, e) && Harmless(s, e)
    ensures Inv(Step(s, e))
    ensures forall x :: x in s.log && e != Delete(x.chunk.id) ==> x in Step(s, e).log
  {
    HarmlessExactly(s, e);
  }
}
