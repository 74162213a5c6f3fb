/** What one append gives its caller, and what the store records about an extent. */
module AppendReturns {
  import opened Extents
  import opened AppendProtocol
  import opened AppendRuns

  /** The events that end append op. */
  predicate Ends(e: Event, op: nat) {
    match e
    case OpenFails(o) => o == op
    case Recorded(o) => o == op
    case Fail(o) => o == op
    case FailStuck(o) => o == op
    case _ => false
  }

  ghost predicate StillRunning(es: seq<Event>, op: nat) {
    forall i :: 0 <= i < |es| ==> !Ends(es[i], op)
  }

  lemma {:induction false} KeepsItsPayload(s: State, es: seq<Event>, op: nat)
    requires op in s.jobs && CanRun(s, es) && StillRunning(es, op)
    ensures op in RunFrom(s, es).jobs && RunFrom(s, es).jobs[op].data == s.jobs[op].data
    decreases |es|
  {
    if es != [] {
      assert !Ends(es[0], op);
      KeepsItsPayload(Step(s, es[0]), es[1..], op);
    }
  }

  /** An append that runs to its end, whatever else happens in between, returns a chunk that
      reads as the payload it was started with, and the extent's recorded size is the length of
      its file. */
  lemma AppendReturnsItsPayload(s: State, op: nat, data: seq<Byte>, es: seq<Event>)
    requires Inv(s) && Enabled(s, Start(op, data))
    requires var t := Step(s, Start(op, data)); CanRun(t, es) && AllHarmless(t, es) && StillRunning(es, op)
    requires Enabled(RunFrom(Step(s, Start(op, data)), es), Recorded(op))
    ensures var t := RunFrom(Step(s, Start(op, data)), es);
      var u := Step(t, Recorded(op));
      && |u.log| == |t.log| + 1 && u.log[..|t.log|] == t.log
      && var chunk := u.log[|t.log|].chunk;
      && chunk.count == |data| && Readable(u.files, chunk) && ReadExtent(u.files, chunk) == data
      && chunk.id in u.files && u.sizes == t.sizes[chunk.id := |u.files[chunk.id]|]
  {
    StartInv(s, op, data);
    var t0 := Step(s, Start(op, data));
    RunInv(t0, es);
    KeepsItsPayload(t0, es, op);
    Returns(RunFrom(t0, es), op);
  }

  lemma Returns(t: State, op: nat)
    requires Inv(t) && Enabled(t, Recorded(op))
    ensures var u, data := Step(t, Recorded(op)), t.jobs[op].data;
      && |u.log| == |t.log| + 1 && u.log[..|t.log|] == t.log
      && var chunk := u.log[|t.log|].chunk;
      && chunk.count == |data| && Readable(u.files, chunk) && ReadExtent(u.files, chunk) == data
      && chunk.id in u.files && u.sizes == t.sizes[chunk.id := |u.files[chunk.id]|]
  {
    var u := Step(t, Recorded(op));
    RecordedInv(t, op);
    ReturnsSize(t, op);
    assert LogOk(u) && IdsFresh(u);
    hide Inv, Core;
    EntryReads(u, u.log[|t.log|]);
  }

  lemma ReturnsSize(t: State, op: nat)
    requires JobsOk(t) && Enabled(t, Recorded(op))
    ensures var u, chunk := Step(t, Recorded(op)), Step(t, Recorded(op)).log[|t.log|].chunk;
      chunk.id in u.files && u.sizes == t.sizes[chunk.id := |u.files[chunk.id]|]
  {
    assert JobOk(t, t.jobs[op]);
  }

  /** The events of one append that nothing fails. */
  function WholeAppend(op: nat, data: seq<Byte>): seq<Event> {
    [Start(op, data), Open(op), Write(op, |data|), Written(op), Recorded(op)]
  }

  ghost predicate ReadsBack(s: State, x: Entry) {
    Readable(s.files, x.chunk) && ReadExtent(s.files, x.chunk) == x.data
  }

  /** These events can happen, and then append op is over and has returned its payload. */
  ghost predicate Finishes(s: State, es: seq<Event>, op: nat, data: seq<Byte>) {
    CanRun(s, es) &&
    var u := RunFrom(s, es);
    && Inv(u) && u.jobs == s.jobs - {op} && |u.log| == |s.log| + 1 && u.log[..|s.log|] == s.log
    && u.log[|s.log|].data == data && ReadsBack(u, u.log[|s.log|])
  }

  lemma FinishesCons(s: State, e: Event, es: seq<Event>, op: nat, data: seq<Byte>)
    requires Enabled(s, e) && Finishes(Step(s, e), es, op, data)
    requires Step(s, e).log == s.log && Step(s, e).jobs - {op} == s.jobs - {op}
    ensures Finishes(s, [e] + es, op, data)
  {
    RunCons(s, e, es);
    hide Inv, Step, Enabled;
  }

  lemma RecordedFinishes(s: State, op: nat)
    requires Inv(s) && op in s.jobs && s.jobs[op].phase.Recording?
    ensures Finishes(s, [Recorded(op)], op, s.jobs[op].data)
  {
    var t := Step(s, Recorded(op));
    RecordedInv(s, op);
    EntryReads(t, t.log[|s.log|]);
    hide Inv;
    assert CanRun(t, []) && RunFrom(t, []) == t;
    RunCons(s, Recorded(op), []);
    assert [Recorded(op)] + [] == [Recorded(op)];
  }

  lemma HasItsJob(s: State, op: nat)
    requires Inv(s) && op in s.jobs
    ensures HasJob(s, op) && (s.jobs[op].phase.Writing? ==> s.jobs[op].phase.id in s.files)
  {
    assert JobOk(s, s.jobs[op]);
  }

  lemma OpensAsWriting(s: State, op: nat)
    requires Enabled(s, Open(op))
    ensures var t := Step(s, Open(op));
      && op in t.jobs && t.jobs[op].phase.Writing? && t.jobs[op].phase.written == 0 && t.jobs[op].data == s.jobs[op].data
      && t.jobs - {op} == s.jobs - {op} && t.log == s.log
  {
  }

  lemma WrittenFinishes(s: State, op: nat)
    requires Inv(s) && op in s.jobs && s.jobs[op].phase.Writing? && s.jobs[op].phase.written == |s.jobs[op].data|
    ensures Finishes(s, [Written(op), Recorded(op)], op, s.jobs[op].data)
  {
    hide Finishes, Inv;
    HasItsJob(s, op);
    StepInv(s, Written(op));
    RecordedFinishes(Step(s, Written(op)), op);
    FinishesCons(s, Written(op), [Recorded(op)], op, s.jobs[op].data);
    assert [Written(op)] + [Recorded(op)] == [Written(op), Recorded(op)];
  }

  lemma WriteFinishes(s: State, op: nat)
    requires Inv(s) && op in s.jobs && s.jobs[op].phase.Writing? && s.jobs[op].phase.written == 0
    ensures var data := s.jobs[op].data; Finishes(s, [Write(op, |data|), Written(op), Recorded(op)], op, data)
  {
    hide Finishes, Inv;
    HasItsJob(s, op);
    var data := s.jobs[op].data;
    StepInv(s, Write(op, |data|));
    WrittenFinishes(Step(s, Write(op, |data|)), op);
    FinishesCons(s, Write(op, |data|), [Written(op), Recorded(op)], op, data);
    assert [Write(op, |data|)] + [Written(op), Recorded(op)] == [Write(op, |data|), Written(op), Recorded(op)];
  }

  lemma OpenFinishes(s: State, op: nat)
    requires Inv(s) && op in s.jobs && s.jobs[op].phase.Selected?
    ensures var data := s.jobs[op].data; Finishes(s, [Open(op), Write(op, |data|), Written(op), Recorded(op)], op, data)
  {
    hide Finishes, Inv, Step;
    HasItsJob(s, op);
    var data := s.jobs[op].data;
    StepInv(s, Open(op));
    OpensAsWriting(s, op);
    WriteFinishes(Step(s, Open(op)), op);
    FinishesCons(s, Open(op), [Write(op, |data|), Written(op), Recorded(op)], op, data);
    assert [Open(op)] + [Write(op, |data|), Written(op), Recorded(op)] == [Open(op), Write(op, |data|), Written(op), Recorded(op)];
  }

  /** An admitted append can run to its end in every state, and then returns its payload. */
  lemma AppendsCanFinish(s: State, op: nat, data: seq<Byte>)
    requires Inv(s) && Enabled(s, Start(op, data))
    ensures Finishes(s, WholeAppend(op, data), op, data)
  {
    hide Finishes, Inv;
    var t := Step(s, Start(op, data));
    StepInv(s, Start(op, data));
    OpenFinishes(t, op);
    FinishesCons(s, Start(op, data), [Open(op), Write(op, |data|), Written(op), Recorded(op)], op, data);
    assert WholeAppend(op, data) == [Start(op, data)] + [Open(op), Write(op, |data|), Written(op), Recorded(op)];
  }

  /** Opening moves to another extent exactly when the present one is full; the other one is new,
      and either way the append starts where the file ends. */
  lemma RollsOverExactly(s: State, op: nat)
    requires Core(s) && Enabled(s, Open(op))
    ensures var t, i := Step(s, Open(op)), s.jobs[op].slot;
      && (t.slots[i].id != s.slots[i].id <==> s.slots[i].offset >= MAX_EXTENT_SIZE)
      && (t.slots[i].id != s.slots[i].id ==>
            t.slots[i].id !in s.files && !IsActiveExtent(s.slots, t.slots[i].id) && t.slots[i].offset == 0)
      && (t.slots[i].id == s.slots[i].id ==> t.slots[i] == s.slots[i])
      && t.slots[i].id in t.files && |t.files[t.slots[i].id]| == t.slots[i].offset
      && t.jobs == s.jobs[op := Job(i, s.jobs[op].data, Writing(t.slots[i].id, 0))]
  {
    assert JobOk(s, s.jobs[op]);
  }

  // ----- Recorded sizes -----

  ghost predicate Reaches(log: seq<Entry>, id: ExtentId, end: nat) {
    exists x :: x in log && x.chunk.id == id && x.chunk.offset + x.chunk.count == end
  }

  /** A size is recorded exactly for the extents with a returned chunk, and it is the end of the
      one that lies furthest back. */
  ghost predicate SizesRecorded(s: State) {
    && (forall id :: id in s.sizes ==> Reaches(s.log, id, s.sizes[id]))
    && (forall x :: x in s.log ==> x.chunk.id in s.sizes && x.chunk.offset + x.chunk.count <= s.sizes[x.chunk.id])
  }

  lemma StepRecords(s: State, e: Event)
    requires LogOk(s) && SizesRecorded(s) && Enabled(s, e)
    ensures SizesRecorded(Step(s, e))
  {
    if e.Recorded? {
      RecordRecords(s, e.op);
    } else if e.Delete? {
      DeleteRecords(s, e.id);
    } else {
      assert Step(s, e).log == s.log && Step(s, e).sizes == s.sizes;
    }
  }

  lemma RecordRecords(s: State, op: nat)
    requires LogOk(s) && SizesRecorded(s) && Enabled(s, Recorded(op))
    ensures SizesRecorded(Step(s, Recorded(op)))
  {
    var t := Step(s, Recorded(op));
    var last := t.log[|s.log|];
    forall id | id in t.sizes ensures Reaches(t.log, id, t.sizes[id]) {
      if id == last.chunk.id {
        assert last in t.log;
      } else {
        var x :| x in s.log && x.chunk.id == id && x.chunk.offset + x.chunk.count == s.sizes[id];
        assert x in t.log;
      }
    }
    forall x | x in t.log ensures x.chunk.id in t.sizes && x.chunk.offset + x.chunk.count <= t.sizes[x.chunk.id] {
      if x in s.log {
        var k :| 0 <= k < |s.log| && s.log[k] == x;
        assert EntryOk(s, s.log[k]);
      }
    }
  }

  lemma DeleteRecords(s: State, id: ExtentId)
    requires SizesRecorded(s) && Enabled(s, Delete(id))
    ensures SizesRecorded(Step(s, Delete(id)))
  {
    var t := Step(s, Delete(id));
    forall other | other in t.sizes ensures Reaches(t.log, other, t.sizes[other]) {
      var x :| x in s.log && x.chunk.id == other && x.chunk.offset + x.chunk.count == s.sizes[other];
      assert x in t.log;
    }
  }

  lemma {:induction false} SizesStayRecorded(s: State, es: seq<Event>)
    requires Inv(s) && SizesRecorded(s) && CanRun(s, es) && AllHarmless(s, es)
    ensures SizesRecorded(RunFrom(s, es))
    decreases |es|
  {
    if es != [] {
      StepRecords(s, es[0]);
      StepInv(s, es[0]);
      SizesStayRecorded(Step(s, es[0]), es[1..]);
    }
  }

  lemma SizesAreRecorded(n: nat, es: seq<Event>)
    requires n >= 1 && CanRun(Init(n), es) && AllHarmless(Init(n), es)
    ensures SizesRecorded(RunFrom(Init(n), es))
  {
    InitInv(n);
    SizesStayRecorded(Init(n), es);
  }
}
