/** Failures outside the rollback of an append: exactly which of them leave the payload of every
    chunk intact, whatever is appended later. */
module AppendFailures {
  import opened Extents
  import opened AppendProtocol
  import opened AppendRuns

  /** Every chunk handed out, and not deleted since, reads as the payload it was given. */
  ghost predicate LogReads(s: State) {
    forall x :: x in s.log ==> Readable(s.files, x.chunk) && ReadExtent(s.files, x.chunk) == x.data
  }

  /** Whatever happens from here on without further failures, all chunks read right. */
  ghost predicate SafeFromHere(s: State) {
    forall es :: CanRun(s, es) && AllClean(es) ==> LogReads(RunFrom(s, es))
  }

  lemma InvReads(s: State)
    requires Inv(s)
    ensures LogReads(s)
  {
    forall x | x in s.log ensures Readable(s.files, x.chunk) && ReadExtent(s.files, x.chunk) == x.data {
      EntryReads(s, x);
    }
  }

  lemma {:induction false} RunAppend(s: State, a: seq<Event>, b: seq<Event>)
    requires CanRun(s, a) && CanRun(RunFrom(s, a), b)
    ensures CanRun(s, a + b) && RunFrom(s, a + b) == RunFrom(RunFrom(s, a), b)
    decreases |a|
  {
    hide Step, Enabled;
    if a == [] {
      assert a + b == b;
    } else {
      assert (a + b)[1..] == a[1..] + b && (a + b)[0] == a[0];
      RunAppend(Step(s, a[0]), a[1..], b);
    }
  }

  lemma RunOne(s: State, e: Event)
    requires Enabled(s, e)
    ensures CanRun(s, [e]) && RunFrom(s, [e]) == Step(s, e)
  {
    assert [e][1..] == [];
  }

  // ----- Getting rid of running appends -----

  ghost predicate KeepsLeak(s: State, t: State, i: nat) {
    && i < |s.slots| == |t.slots|
    && Leaked(t, i) && t.slots[i] == s.slots[i]
    && Length(t.files, t.slots[i].id) == Length(s.files, s.slots[i].id)
  }

  ghost predicate KeepsLeaks(s: State, t: State) {
    |s.slots| == |t.slots| && forall i :: 0 <= i < |s.slots| && Leaked(s, i) ==> KeepsLeak(s, t, i)
  }

  lemma OpenKeepsLeaks(s: State, op: nat)
    requires Core(s) && Enabled(s, Open(op))
    ensures KeepsLeaks(s, Step(s, Open(op)))
  {
    var t, i := Step(s, Open(op)), s.jobs[op].slot;
    assert JobOk(s, s.jobs[op]);
    OpenIds(s, op);
    OpenLocal(s, op);
    OwnSlot(s, i, op);
    OtherLeaks(s, t, i, op);
  }

  lemma FailKeepsLeaks(s: State, op: nat)
    requires Core(s) && Enabled(s, Fail(op))
    ensures KeepsLeaks(s, Step(s, Fail(op)))
  {
    var t, i := Step(s, Fail(op)), s.jobs[op].slot;
    assert JobOk(s, s.jobs[op]);
    ReleaseShape(s, t, op);
    OwnSlot(s, i, op);
    OtherLeaks(s, t, i, op);
  }

  lemma FailNow(s: State, op: nat)
    requires Core(s) && op in s.jobs && !s.jobs[op].phase.Selected?
    ensures Enabled(s, Fail(op))
    ensures var t := Step(s, Fail(op)); Core(t) && t.jobs == s.jobs - {op} && KeepsLeaks(s, t)
  {
    assert JobOk(s, s.jobs[op]);
    FailInv(s, op);
    FailKeepsLeaks(s, op);
  }

  lemma OpenFirst(s: State, op: nat)
    requires Core(s) && op in s.jobs && s.jobs[op].phase.Selected?
    ensures Enabled(s, Open(op))
    ensures var t := Step(s, Open(op));
      && Core(t) && op in t.jobs && t.jobs - {op} == s.jobs - {op} && !t.jobs[op].phase.Selected? && KeepsLeaks(s, t)
  {
    OpenInv(s, op);
    OpenKeepsLeaks(s, op);
  }

  /** A running append can be brought to a failure that rolls back. */
  lemma EndAppend(s: State, op: nat) returns (es: seq<Event>)
    requires Core(s) && op in s.jobs
    ensures CanRun(s, es) && AllClean(es)
    ensures Core(RunFrom(s, es)) && RunFrom(s, es).jobs == s.jobs - {op} && KeepsLeaks(s, RunFrom(s, es))
  {
    hide Core, Step, Enabled, KeepsLeaks, CanRun, RunFrom;
    if s.jobs[op].phase.Selected? {
      OpenFirst(s, op);
      var t := Step(s, Open(op));
      FailNow(t, op);
      RunOne(t, Fail(op));
      RunCons(s, Open(op), [Fail(op)]);
      LeaksTransitive(s, t, Step(t, Fail(op)));
      es := [Open(op)] + [Fail(op)];
    } else {
      FailNow(s, op);
      RunOne(s, Fail(op));
      es := [Fail(op)];
    }
  }

  lemma LeaksTransitive(s: State, t: State, u: State)
    requires KeepsLeaks(s, t) && KeepsLeaks(t, u)
    ensures KeepsLeaks(s, u)
  {
    forall i | 0 <= i < |s.slots| && Leaked(s, i) ensures KeepsLeak(s, u, i) {
      assert KeepsLeak(s, t, i) && KeepsLeak(t, u, i);
    }
  }

  lemma FewerJobs(jobs: map<nat, Job>, op: nat)
    requires op in jobs
    ensures |jobs - {op}| < |jobs|
  {
    var rest := jobs - {op};
    assert jobs.Keys == rest.Keys + {op};
    assert |jobs.Keys| == |rest.Keys| + 1;
  }

  lemma {:induction false} Drain(s: State) returns (es: seq<Event>)
    requires Core(s)
    ensures CanRun(s, es) && AllClean(es)
    ensures Core(RunFrom(s, es)) && RunFrom(s, es).jobs == map[] && KeepsLeaks(s, RunFrom(s, es))
    decreases |s.jobs|
  {
    hide Core, Step, Leaked;
    if s.jobs == map[] {
      es := [];
    } else {
      var op :| op in s.jobs;
      var first := EndAppend(s, op);
      var t := RunFrom(s, first);
      hide KeepsLeaks, CanRun, RunFrom;
      FewerJobs(s.jobs, op);
      var rest := Drain(t);
      RunAppend(s, first, rest);
      LeaksTransitive(s, t, RunFrom(t, rest));
      es := first + rest;
    }
  }

  // ----- Taking every slot but the first -----

  ghost predicate NoneInFirst(s: State) {
    forall op :: op in s.jobs ==> s.jobs[op].slot >= 1
  }

  lemma RoomBesides(s: State, k: nat)
    requires Exclusive(s) && NoneInFirst(s) && k < |s.slots| && !Occupied(s.jobs, k)
    ensures |s.jobs| <= |s.slots| - if k == 0 then 1 else 2
  {
    var all, free: set<int> := Numbers(|s.slots|), {0, k};
    forall op | op in s.jobs ensures s.jobs[op].slot in all - free {
      assert s.jobs[op].slot == k ==> Occupied(s.jobs, k);
    }
    JobsFitSlots(s.jobs, all - free);
    hide Exclusive, NoneInFirst, Occupied;
    assert all == (all - free) + free;
    assert |free| == if k == 0 then 1 else 2;
  }

  lemma StartKeepsLeaks(s: State, op: nat, data: seq<Byte>)
    requires Core(s) && Enabled(s, Start(op, data)) && SelectSlot(s.slots, 1) >= 1
    ensures Core(Step(s, Start(op, data))) && KeepsLeaks(s, Step(s, Start(op, data)))
  {
    var t, k := Step(s, Start(op, data)), SelectSlot(s.slots, 1);
    assert !Occupied(s.jobs, k);
    assert SlotMatchesFile(s, k);
    StartCore(s, op, data);
    StartShape(s, op, data);
    OtherLeaks(s, t, k, op);
  }

  lemma TakeOne(s: State, op: nat)
    requires Core(s) && NoneInFirst(s) && SelectSlot(s.slots, 1) >= 1 && op !in s.jobs && |s.jobs| < |s.slots|
    ensures var t := Step(s, Start(op, []));
      && Core(t) && NoneInFirst(t) && |t.slots| == |s.slots| && |t.jobs| == |s.jobs| + 1
      && t.slots[0] == s.slots[0] && t.files == s.files && KeepsLeaks(s, t)
  {
    StartKeepsLeaks(s, op, []);
    StartCounts(s, op);
    hide *;
  }

  lemma StartCounts(s: State, op: nat)
    requires |s.slots| > 0 && NoneInFirst(s) && SelectSlot(s.slots, 1) >= 1 && Enabled(s, Start(op, []))
    ensures var t := Step(s, Start(op, []));
      && NoneInFirst(t) && |t.slots| == |s.slots| && |t.jobs| == |s.jobs| + 1
      && t.slots[0] == s.slots[0] && t.files == s.files
  {
    var t := Step(s, Start(op, []));
    assert t.jobs.Keys == s.jobs.Keys + {op};
    assert |t.jobs.Keys| == |s.jobs.Keys| + 1;
  }

  lemma {:induction false} TakeTheOthers(s: State) returns (es: seq<Event>)
    requires Core(s) && NoneInFirst(s)
    ensures CanRun(s, es) && AllClean(es)
    ensures var t := RunFrom(s, es);
      && Core(t) && NoneInFirst(t) && |t.slots| > 0 && SelectSlot(t.slots, 1) == 0
      && t.slots[0] == s.slots[0] && t.files == s.files && KeepsLeaks(s, t)
    decreases |s.slots| - |s.jobs|
  {
    assert |s.slots| > 0 && Exclusive(s) && !Occupied(s.jobs, 0);
    RoomBesides(s, 0);
    if SelectSlot(s.slots, 1) == 0 {
      es := [];
    } else {
      var op := FreshOp(s.jobs);
      hide Core, Step, KeepsLeaks, NoneInFirst, SelectSlot, RunFrom, CanRun;
      TakeOne(s, op);
      var t := Step(s, Start(op, []));
      var rest := TakeTheOthers(t);
      RunOne(s, Start(op, []));
      RunAppend(s, [Start(op, [])], rest);
      LeaksTransitive(s, t, RunFrom(t, rest));
      es := [Start(op, [])] + rest;
    }
  }

  // ----- Two ways to a wrong chunk -----

  ghost predicate WrongAfter(s: State, es: seq<Event>) {
    CanRun(s, es) && AllClean(es) && !LogReads(RunFrom(s, es))
  }

  lemma WrongFrom(s: State, first: seq<Event>, rest: seq<Event>)
    requires CanRun(s, first) && AllClean(first) && WrongAfter(RunFrom(s, first), rest)
    ensures WrongAfter(s, first + rest)
  {
    RunAppend(s, first, rest);
  }

  lemma WrongCons(s: State, e: Event, rest: seq<Event>)
    requires Enabled(s, e) && Clean(e) && WrongAfter(Step(s, e), rest)
    ensures WrongAfter(s, [e] + rest)
  {
    RunCons(s, e, rest);
  }

  /** Appended and flushed, the payload is about to be handed out at the slot's offset. */
  lemma WrongChunk(s: State, op: nat, b: Byte)
    requires Enabled(s, Written(op)) && s.jobs[op].data == [b]
    requires var slot := s.slots[s.jobs[op].slot];
      && s.jobs[op].phase.id == slot.id && slot.id.Uuid? && slot.id in s.files
      && slot.offset < |s.files[slot.id]| && s.files[slot.id][slot.offset] != b
    ensures WrongAfter(s, [Written(op), Recorded(op)])
  {
    var slot := s.slots[s.jobs[op].slot];
    var t := Step(s, Written(op));
    var u := Step(t, Recorded(op));
    var x := Entry(Chunk(slot.id, slot.offset, 1), [b]);
    assert u.log[|u.log| - 1] == x;
    assert x in u.log && Readable(u.files, x.chunk) && ReadExtent(u.files, x.chunk)[0] != b;
    RunOne(t, Recorded(op));
    WrongCons(t, Recorded(op), []);
    WrongCons(s, Written(op), [Recorded(op)]);
    assert [Written(op)] + [Recorded(op)] == [Written(op), Recorded(op)];
    assert [Recorded(op)] + [] == [Recorded(op)];
  }

  /** Slot 0 is taken with bytes behind its offset: the next append is handed a chunk over them. */
  lemma StaleBytes(s: State, op: nat) returns (es: seq<Event>)
    requires Core(s) && SelectSlot(s.slots, 1) == 0 && |s.jobs| < |s.slots| && op !in s.jobs
    requires Leaked(s, 0) && !SlotMatchesFile(s, 0)
    ensures WrongAfter(s, es)
  {
    assert LeakOk(s, 0);
    var id, at := s.slots[0].id, s.slots[0].offset;
    var b: Byte := if s.files[id][at] == 0 then 1 else 0;
    var t := Step(s, Start(op, [b]));
    var u := Step(t, Open(op));
    assert u.slots[0].id == id && u.slots[0].offset == at && u.files == s.files;
    assert u.jobs[op] == Job(0, [b], Writing(id, 0));
    var v := Step(u, Write(op, 1));
    assert v.files[id][at] == s.files[id][at] && v.jobs[op] == Job(0, [b], Writing(id, 1));
    WrongChunk(v, op, b);
    es := [Written(op), Recorded(op)];
    WrongCons(u, Write(op, 1), es);
    es := [Write(op, 1)] + es;
    WrongCons(t, Open(op), es);
    es := [Open(op)] + es;
    WrongCons(s, Start(op, [b]), es);
    es := [Start(op, [b])] + es;
  }

  /** Two appends opened slot 0; the one that writes second is finished first. */
  lemma Interleaved(s: State, a: nat, b: nat) returns (es: seq<Event>)
    requires |s.slots| > 0 && a != b && a in s.jobs && b in s.jobs
    requires var id := s.slots[0].id;
      && id.Uuid? && id in s.files && |s.files[id]| == s.slots[0].offset
      && s.jobs[a] == Job(0, [1], Writing(id, 0)) && s.jobs[b] == Job(0, [2], Writing(id, 0))
    ensures WrongAfter(s, es)
  {
    var id, at := s.slots[0].id, s.slots[0].offset;
    var t := Step(s, Write(a, 1));
    assert t.files[id] == s.files[id] + [1] && t.jobs[b] == s.jobs[b];
    var u := Step(t, Write(b, 1));
    assert u.files[id] == (s.files[id] + [1]) + [2];
    assert u.files[id][at] == 1 && u.jobs[b] == Job(0, [2], Writing(id, 1));
    WrongChunk(u, b, 2);
    es := [Written(b), Recorded(b)];
    WrongCons(t, Write(b, 1), es);
    es := [Write(b, 1)] + es;
    WrongCons(s, Write(a, 1), es);
    es := [Write(a, 1)] + es;
  }

  /** Every other slot is taken and there is room for two: both end up in slot 0. */
  lemma Collision(s: State, a: nat, b: nat) returns (es: seq<Event>)
    requires Core(s) && SelectSlot(s.slots, 1) == 0 && |s.jobs| + 2 <= |s.slots| && a !in s.jobs && b !in s.jobs && a != b
    requires SlotMatchesFile(s, 0)
    ensures WrongAfter(s, es)
  {
    var t := Step(s, Start(a, [1]));
    TakenSlotStays(s, a, [1]);
    var u := Step(t, Start(b, [2]));
    TakenSlotStays(t, b, [2]);
    assert u.jobs[a] == Job(0, [1], Selected) && u.jobs[b] == Job(0, [2], Selected);
    var v := Step(u, Open(a));
    BothOpen(u, a, b);
    var w := Step(v, Open(b));
    es := Interleaved(w, a, b);
    WrongCons(v, Open(b), es);
    es := [Open(b)] + es;
    WrongCons(u, Open(a), es);
    es := [Open(a)] + es;
    WrongCons(t, Start(b, [2]), es);
    es := [Start(b, [2])] + es;
    WrongCons(s, Start(a, [1]), es);
    es := [Start(a, [1])] + es;
  }

  lemma TakenSlotStays(s: State, op: nat, data: seq<Byte>)
    requires |s.slots| > 0 && SelectSlot(s.slots, 1) == 0 && Enabled(s, Start(op, data))
    ensures var t := Step(s, Start(op, data));
      && SelectSlot(t.slots, 1) == 0 && |t.slots| == |s.slots| && |t.jobs| == |s.jobs| + 1
      && t.slots[0].id == s.slots[0].id && t.slots[0].offset == s.slots[0].offset
      && t.jobs == s.jobs[op := Job(0, data, Selected)] && t.files == s.files && t.nextSerial == s.nextSerial
  {
    var t := Step(s, Start(op, data));
    assert t.jobs.Keys == s.jobs.Keys + {op};
    assert |t.jobs.Keys| == |s.jobs.Keys| + 1;
  }

  lemma BothOpen(s: State, a: nat, b: nat)
    requires |s.slots| > 0 && a != b && a in s.jobs && b in s.jobs
    requires s.jobs[a] == Job(0, [1], Selected) && s.jobs[b] == Job(0, [2], Selected)
    requires Issued(s.slots[0].id, s.nextSerial) && Uuid(s.nextSerial) !in s.files
    requires Length(s.files, s.slots[0].id) == s.slots[0].offset
    ensures Enabled(s, Open(a)) && Enabled(Step(s, Open(a)), Open(b))
    ensures var w := Step(Step(s, Open(a)), Open(b));
      var id := w.slots[0].id;
      && |w.slots| > 0 && a in w.jobs && b in w.jobs
      && id.Uuid? && id in w.files && |w.files[id]| == w.slots[0].offset
      && w.jobs[a] == Job(0, [1], Writing(id, 0)) && w.jobs[b] == Job(0, [2], Writing(id, 0))
  {
    var v := Step(s, Open(a));
    assert v.slots[0].offset < MAX_EXTENT_SIZE;
    assert v.slots[0].id in v.files && |v.files[v.slots[0].id]| == v.slots[0].offset;
  }

  // ----- Exactly -----

  lemma UntidyGoesWrong(s: State) returns (es: seq<Event>)
    requires Core(s) && !Tidy(s)
    ensures WrongAfter(s, es)
  {
    var i :| 0 <= i < |s.slots| && Leaked(s, i) && !(i == 0 && SlotMatchesFile(s, i));
    var drained := Drain(s);
    var t := RunFrom(s, drained);
    var taken := TakeTheOthers(t);
    var u := RunFrom(t, taken);
    LeaksTransitive(s, t, u);
    assert KeepsLeak(s, u, i);
    RoomBesides(u, i);
    var a := FreshOp(u.jobs);
    var rest;
    if SlotMatchesFile(u, 0) {
      var b := FreshOp(u.jobs[a := Job(0, [], Selected)]);
      rest := Collision(u, a, b);
    } else {
      FirstIsLeaked(u);
      RoomBesides(u, 0);
      rest := StaleBytes(u, a);
    }
    WrongFrom(t, taken, rest);
    WrongFrom(s, drained, taken + rest);
    es := drained + (taken + rest);
  }

  lemma FirstIsLeaked(s: State)
    requires Core(s) && NoneInFirst(s) && !SlotMatchesFile(s, 0)
    ensures Leaked(s, 0)
  {
  }

  /** Whatever failed before, the chunks read right over every later run if and only if no slot is
      leaked but slot 0, and that one only with a file that ends at its offset. */
  lemma SafeExactly(s: State)
    requires Core(s)
    ensures SafeFromHere(s) <==> Tidy(s)
  {
    if Tidy(s) {
      forall es | CanRun(s, es) && AllClean(es) ensures LogReads(RunFrom(s, es)) {
        CleanIsHarmless(s, es);
        RunInv(s, es);
        InvReads(RunFrom(s, es));
      }
    } else {
      var es := UntidyGoesWrong(s);
      assert CanRun(s, es) && AllClean(es) && !LogReads(RunFrom(s, es));
    }
  }

  /** At every moment of the run, all chunks read right whatever follows. */
  ghost predicate SafeThroughout(s: State, es: seq<Event>)
    requires CanRun(s, es)
    decreases |es|
  {
    SafeFromHere(s) && (es == [] || SafeThroughout(Step(s, es[0]), es[1..]))
  }

  lemma {:induction false} HarmlessFrom(s: State, es: seq<Event>)
    requires Inv(s) && CanRun(s, es)
    ensures AllHarmless(s, es) <==> SafeThroughout(s, es)
    decreases |es|
  {
    SafeExactly(s);
    if es != [] {
      HarmlessExactly(s, es[0]);
      if Harmless(s, es[0]) {
        HarmlessFrom(Step(s, es[0]), es[1..]);
      } else {
        SafeExactly(Step(s, es[0]));
      }
    }
  }

  /** Over every run from the start, with any failures: payloads are safe throughout if and only
      if each failure of an open, a close or a truncate hits an append in slot 0 that has left no
      bytes behind the slot's offset. */
  lemma FailuresAreSafeExactly(n: nat, es: seq<Event>)
    requires n >= 1 && CanRun(Init(n), es)
    ensures AllHarmless(Init(n), es) <==> SafeThroughout(Init(n), es)
  {
    InitInv(n);
    HarmlessFrom(Init(n), es);
  }
}
