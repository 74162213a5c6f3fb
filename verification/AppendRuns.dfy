/** Runs of the append protocol: what callers may rely on, and exactly when they may not. */
module AppendRuns {
  import opened Extents
  import opened AppendProtocol

  predicate CanRun(s: State, es: seq<Event>)
    decreases |es|
  {
    es == [] || (Enabled(s, es[0]) && CanRun(Step(s, es[0]), es[1..]))
  }

  function RunFrom(s: State, es: seq<Event>): State
    requires CanRun(s, es)
    decreases |es|
  {
    if es == [] then s else RunFrom(Step(s, es[0]), es[1..])
  }

  /** No file open, close or truncate fails. */
  ghost predicate AllClean(es: seq<Event>) {
    forall i :: 0 <= i < |es| ==> Clean(es[i])
  }

  /** Whatever open, close or truncate fails, fails harmlessly. */
  predicate AllHarmless(s: State, es: seq<Event>)
    requires CanRun(s, es)
    decreases |es|
  {
    es == [] || (Harmless(s, es[0]) && AllHarmless(Step(s, es[0]), es[1..]))
  }

  lemma {:induction false} CleanIsHarmless(s: State, es: seq<Event>)
    requires CanRun(s, es) && AllClean(es)
    ensures AllHarmless(s, es)
    decreases |es|
  {
    if es != [] {
      assert Clean(es[0]);
      CleanIsHarmless(Step(s, es[0]), es[1..]);
    }
  }

  lemma {:induction false} RunInv(s: State, es: seq<Event>)
    requires Inv(s) && CanRun(s, es) && AllHarmless(s, es)
    ensures Inv(RunFrom(s, es))
    decreases |es|
  {
    if es != [] {
      StepInv(s, es[0]);
      RunInv(Step(s, es[0]), es[1..]);
    }
  }

  /** Over every run whose failures are harmless: running appends never share a slot; an idle
      slot's file is exactly as long as its offset; chunks handed out are pairwise disjoint. */
  lemma AppendsAreSafe(n: nat, es: seq<Event>)
    requires n >= 1 && CanRun(Init(n), es) && AllHarmless(Init(n), es)
    ensures var t := RunFrom(Init(n), es);
      && (forall p, q :: p in t.jobs && q in t.jobs && p != q ==> t.jobs[p].slot != t.jobs[q].slot)
      && (forall i :: 0 <= i < |t.slots| && t.slots[i].status.Idle? ==>
            Length(t.files, t.slots[i].id) == t.slots[i].offset)
      && (forall i, j :: 0 <= i < j < |t.log| && t.log[i].chunk.id == t.log[j].chunk.id ==>
            t.log[i].chunk.offset + t.log[i].chunk.count <= t.log[j].chunk.offset)
  {
    InitInv(n);
    RunInv(Init(n), es);
    var t := RunFrom(Init(n), es);
    forall i | 0 <= i < |t.slots| && t.slots[i].status.Idle?
      ensures Length(t.files, t.slots[i].id) == t.slots[i].offset
    {
      assert SlotMatchesFile(t, i);
    }
  }

  /** A chunk once returned reads as the appended payload until its extent is deleted: no
      later append, and no truncation of a failed one, touches it. */
  lemma {:induction false} ReturnedChunksStay(s: State, es: seq<Event>, x: Entry)
    requires Inv(s) && CanRun(s, es) && AllHarmless(s, es) && x in s.log && Delete(x.chunk.id) !in es
    ensures var t := RunFrom(s, es);
      && x in t.log && Readable(t.files, x.chunk) && ReadExtent(t.files, x.chunk) == x.data
    decreases |es|
  {
    if es == [] {
      EntryReads(s, x);
    } else {
      assert es[0] in es;
      StepInv(s, es[0]);
      ReturnedChunksStay(Step(s, es[0]), es[1..], x);
    }
  }

  lemma EntryReads(s: State, x: Entry)
    requires LogOk(s) && IdsFresh(s) && x in s.log
    ensures Readable(s.files, x.chunk) && ReadExtent(s.files, x.chunk) == x.data
    ensures x.chunk.id in s.files && x.chunk.offset + x.chunk.count <= |s.files[x.chunk.id]|
  {
    var k :| 0 <= k < |s.log| && s.log[k] == x;
    assert EntryOk(s, s.log[k]);
    assert Issued(x.chunk.id, s.nextSerial);
  }

  // ----- Extents outgrow the limit by less than one append -----

  ghost predicate AppendsUpTo(es: seq<Event>, largest: nat) {
    forall i :: 0 <= i < |es| && es[i].Start? ==> |es[i].data| <= largest
  }

  ghost predicate SizesOk(s: State, largest: nat) {
    && (forall id :: id in s.files ==> |s.files[id]| < MAX_EXTENT_SIZE + largest)
    && (forall op :: op in s.jobs ==> |s.jobs[op].data| <= largest)
  }

  lemma StepSizes(s: State, e: Event, largest: nat)
    requires Inv(s) && Enabled(s, e) && SizesOk(s, largest)
    requires e.Start? ==> |e.data| <= largest
    ensures SizesOk(Step(s, e), largest)
  {
    if e.Write? || e.Fail? {
      assert JobOk(s, s.jobs[e.op]);
    }
    hide Inv, Core, JobOk;
  }

  lemma {:induction false} ExtentsStaySmall(s: State, es: seq<Event>, largest: nat)
    requires Inv(s) && CanRun(s, es) && AllHarmless(s, es) && AppendsUpTo(es, largest) && SizesOk(s, largest)
    ensures forall id :: id in RunFrom(s, es).files ==> |RunFrom(s, es).files[id]| < MAX_EXTENT_SIZE + largest
    decreases |es|
  {
    if es != [] {
      StepSizes(s, es[0], largest);
      StepInv(s, es[0]);
      ExtentsStaySmall(Step(s, es[0]), es[1..], largest);
    }
  }

  // ----- Leaked slots -----

  ghost predicate NoLeakAfterZero(s: State) {
    forall i :: 1 <= i < |s.slots| ==> !Leaked(s, i)
  }

  /** With room in the queue the selected slot is nobody's. */
  lemma SelectedIsNobodys(s: State)
    requires |s.slots| > 0 && NoLeakAfterZero(s) && |s.jobs| < |s.slots|
    ensures !Occupied(s.jobs, SelectSlot(s.slots, 1)) || s.slots[SelectSlot(s.slots, 1)].status.Idle?
  {
    var k := SelectSlot(s.slots, 1);
    if k == 0 && Occupied(s.jobs, k) {
      forall i | 0 <= i < |s.slots| ensures Occupied(s.jobs, i) {
        if i > 0 {
          assert !Leaked(s, i) && s.slots[i].status.Appending?;
        }
      }
      EnoughJobs(|s.slots|, s.jobs);
      assert false;
    }
  }

  lemma ExclusiveStart(s: State, op: nat, data: seq<Byte>)
    requires |s.slots| > 0 && Exclusive(s) && NoLeakAfterZero(s) && Enabled(s, Start(op, data))
    ensures Exclusive(Step(s, Start(op, data))) && NoLeakAfterZero(Step(s, Start(op, data)))
  {
    var t := Step(s, Start(op, data));
    var k := SelectSlot(s.slots, 1);
    SelectedIsNobodys(s);
    assert forall q :: q in s.jobs && s.jobs[q].slot == k ==> Occupied(s.jobs, k);
    forall i | 1 <= i < |t.slots| && t.slots[i].status.Appending? ensures Occupied(t.jobs, i) {
      if i == k {
        assert t.jobs[op].slot == i;
      } else {
        assert !Leaked(s, i);
        var q :| q in s.jobs && s.jobs[q].slot == i;
        assert t.jobs[q].slot == i;
      }
    }
  }

  /** The other events keep every append in its slot, or remove it and free the slot. */
  ghost predicate KeepsOrFrees(s: State, t: State) {
    && |t.slots| == |s.slots|
    && (forall q :: q in t.jobs ==> q in s.jobs && t.jobs[q].slot == s.jobs[q].slot)
    && (forall q :: q in s.jobs && q !in t.jobs && s.jobs[q].slot < |s.slots| ==> t.slots[s.jobs[q].slot].status.Idle?)
    && (forall i :: 0 <= i < |s.slots| && t.slots[i].status.Appending? ==> s.slots[i].status.Appending?)
    && (forall i :: 0 <= i < |s.slots| && t.slots[i].status.Idle? ==>
          s.slots[i].status.Idle? || exists q :: q in s.jobs && q !in t.jobs && s.jobs[q].slot == i)
  }

  lemma OtherKeepsOrFrees(s: State, e: Event)
    requires Enabled(s, e) && Clean(e) && !e.Start?
    ensures KeepsOrFrees(s, Step(s, e))
  {
  }

  lemma ExclusiveOther(s: State, t: State)
    requires Exclusive(s) && NoLeakAfterZero(s) && KeepsOrFrees(s, t)
    ensures Exclusive(t) && NoLeakAfterZero(t)
  {
    forall i | 1 <= i < |t.slots| && t.slots[i].status.Appending? ensures Occupied(t.jobs, i) {
      assert !Leaked(s, i);
      var q :| q in s.jobs && s.jobs[q].slot == i;
      assert q in t.jobs && t.jobs[q].slot == i;
    }
  }

  lemma ExclusiveStep(s: State, e: Event)
    requires |s.slots| > 0 && Exclusive(s) && NoLeakAfterZero(s) && Enabled(s, e) && Clean(e)
    ensures |Step(s, e).slots| > 0 && Exclusive(Step(s, e)) && NoLeakAfterZero(Step(s, e))
  {
    if e.Start? {
      ExclusiveStart(s, e.op, e.data);
    } else {
      OtherKeepsOrFrees(s, e);
      ExclusiveOther(s, Step(s, e));
    }
  }

  lemma {:induction false} ExclusiveRun(s: State, es: seq<Event>)
    requires |s.slots| > 0 && Exclusive(s) && NoLeakAfterZero(s) && CanRun(s, es) && AllClean(es)
    ensures Exclusive(RunFrom(s, es))
    decreases |es|
  {
    if es != [] {
      assert Clean(es[0]);
      ExclusiveStep(s, es[0]);
      ExclusiveRun(Step(s, es[0]), es[1..]);
    }
  }

  lemma FreshOp(jobs: map<nat, Job>) returns (op: nat)
    ensures op !in jobs
  {
    op := 0;
    var left := jobs.Keys;
    while left != {}
      invariant left <= jobs.Keys
      invariant forall k :: k in jobs && k !in left ==> k < op
      decreases |left|
    {
      var k :| k in left;
      left := left - {k};
      op := if k < op then op else k + 1;
    }
  }

  /** With slot k leaked, admitting appends until the queue is full puts two into one slot. */
  lemma {:induction false} FillUp(s: State, k: nat) returns (es: seq<Event>)
    requires |s.slots| > 0 && 1 <= k && Leaked(s, k) && |s.jobs| <= |s.slots|
    ensures CanRun(s, es) && AllClean(es)
    ensures !Exclusive(RunFrom(s, es))
    decreases |s.slots| - |s.jobs|
  {
    if |s.jobs| == |s.slots| {
      es := [];
      if Exclusive(s) {
        JobsFitSlots(s.jobs, Numbers(|s.slots|) - {k});
        assert false;
      }
    } else {
      var op := FreshOp(s.jobs);
      var e := Start(op, []);
      AdmitKeepsLeak(s, k, op);
      var rest := FillUp(Step(s, e), k);
      es := [e] + rest;
      assert es[1..] == rest;
    }
  }

  lemma AdmitKeepsLeak(s: State, k: nat, op: nat)
    requires |s.slots| > 0 && 1 <= k && Leaked(s, k) && Enabled(s, Start(op, []))
    ensures var t := Step(s, Start(op, []));
      Leaked(t, k) && |t.slots| == |s.slots| && |t.jobs| == |s.jobs| + 1
  {
    var t := Step(s, Start(op, []));
    assert t.jobs.Keys == s.jobs.Keys + {op};
    var i := SelectSlot(s.slots, 1);
    assert i != k && t.slots[k] == s.slots[k];
    forall q | q in t.jobs ensures t.jobs[q].slot != k {
      assert q in s.jobs && s.jobs[q].slot == k ==> Occupied(s.jobs, k);
    }
  }

  function Numbers(n: nat): (ns: set<int>)
    ensures |ns| == n && forall i :: i in ns <==> 0 <= i < n
  {
    if n == 0 then {} else Numbers(n - 1) + {n - 1}
  }

  lemma {:induction false} JobsFitSlots(jobs: map<nat, Job>, slots: set<int>)
    requires forall op :: op in jobs ==> jobs[op].slot in slots
    requires forall p, q :: p in jobs && q in jobs && p != q ==> jobs[p].slot != jobs[q].slot
    ensures |jobs| <= |slots|
  {
    if jobs != map[] {
      var op :| op in jobs;
      var rest := jobs - {op};
      JobsFitSlots(rest, slots - {jobs[op].slot});
      assert jobs.Keys == rest.Keys + {op};
      assert |jobs.Keys| == |rest.Keys| + 1;
    }
  }

  /** Exactly when appends are safe from sharing a slot: a leak of any slot but the first
      breaks exclusion in some run, and without one no run breaks it. */
  lemma ExclusionExactly(s: State)
    requires |s.slots| > 0 && Exclusive(s) && |s.jobs| <= |s.slots|
    ensures (forall es :: CanRun(s, es) && AllClean(es) ==> Exclusive(RunFrom(s, es))) <==> NoLeakAfterZero(s)
  {
    if NoLeakAfterZero(s) {
      forall es | CanRun(s, es) && AllClean(es) ensures Exclusive(RunFrom(s, es)) {
        ExclusiveRun(s, es);
      }
    } else {
      var k :| 1 <= k < |s.slots| && Leaked(s, k);
      var es := FillUp(s, k);
      assert CanRun(s, es) && AllClean(es) && !Exclusive(RunFrom(s, es));
    }
  }

  /** The open outside the try block is such a leak: two slots, one failed open, then two
      concurrent appends in slot 0. */
  lemma FailedOpenLetsAppendsCollide()
    ensures var es := [Start(0, []), OpenFails(0), Start(1, []), Start(2, [])];
      && CanRun(Init(2), es)
      && var t := RunFrom(Init(2), es);
      && t.jobs.Keys == {1, 2} && t.jobs[1].slot == t.jobs[2].slot
  {
    var e0, e1, e2, e3 := Start(0, []), OpenFails(0), Start(1, []), Start(2, []);
    CollisionEnds(2);
    var s2 := AfterFailedOpen(2);
    var s3 := Step(s2, e2);
    var s4 := Step(s3, e3);
    assert CanRun(s4, []) && RunFrom(s4, []) == s4;
    RunCons(s3, e3, []);
    RunCons(s2, e2, [e3]);
    RunCons(Step(Init(2), e0), e1, [e2, e3]);
    RunCons(Init(2), e0, [e1, e2, e3]);
    assert [e0] + [e1, e2, e3] == [e0, e1, e2, e3];
    assert [e1] + [e2, e3] == [e1, e2, e3] && [e2] + [e3] == [e2, e3] && [e3] + [] == [e3];
  }

  function AfterFailedOpen(n: nat): State
    requires n == 2
  {
    assert SelectSlot(Init(n).slots, 1) == 1;
    Step(Step(Init(n), Start(0, [])), OpenFails(0))
  }

  lemma CollisionEnds(n: nat)
    requires n == 2
    ensures Enabled(AfterFailedOpen(n), Start(1, []))
    ensures var s := Step(AfterFailedOpen(n), Start(1, []));
      && Enabled(s, Start(2, []))
      && var t := Step(s, Start(2, [])); t.jobs.Keys == {1, 2} && t.jobs[1].slot == t.jobs[2].slot
  {
    var s := AfterFailedOpen(n);
    assert s.jobs == map[] && s.slots[1].status.Appending? && SelectSlot(s.slots, 1) == 0;
    var t := Step(s, Start(1, []));
    assert t.jobs.Keys == {1} && SelectSlot(t.slots, 1) == 0;
  }

  lemma RunCons(s: State, e: Event, es: seq<Event>)
    requires Enabled(s, e) && CanRun(Step(s, e), es)
    ensures CanRun(s, [e] + es) && RunFrom(s, [e] + es) == RunFrom(Step(s, e), es)
  {
    assert ([e] + es)[1..] == es;
  }
}
