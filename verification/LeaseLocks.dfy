/** How long a lease locks its blob, and what each accepted request does to that. */
module LeaseLocks {
  import opened Options
  import opened Leases
  import opened LeaseLaws
  import opened LeaseRuns

  /** When the lock ends by itself. */
  datatype End = Unlocked | Until(time: int) | Never

  function LockEnd(l: Lease): End {
    match l.state
    case Some(Leased) => if l.expireTime.Some? then Until(l.expireTime.value) else Never
    case Some(Breaking) => if l.breakTime.Some? then Until(l.breakTime.value) else Never
    case _ => End.Unlocked
  }

  predicate LockedAt(l: Lease, now: int) {
    match LockEnd(l)
    case Unlocked => false
    case Until(time) => now < time
    case Never => true
  }

  lemma Aged(l: Lease, now: int)
    requires WellFormed(l)
    ensures Build(Adapt(l), now).Ok?
    ensures var aged := Build(l, now).lease;
      && WellFormed(aged) && Build(Adapt(aged), now) == Ok(aged)
      && LockedAt(aged, now) == LockedAt(l, now) && (aged.status == Some(Locked) <==> LockedAt(l, now))
      && (LockedAt(l, now) ==> aged == l)
  {
    BuildWellFormed(l, now);
    BuildWellFormed(Build(l, now).lease, now);
    AgeingIsConfluent(l, now, now);
  }

  predicate Given(leaseId: Option<string>) {
    leaseId.Some? && leaseId.value != ""
  }

  /** A write is accepted in exactly two cases: the blob is locked and the write carries the
      lease's id in any case, or it is not locked and the write carries none. It keeps a lease that
      locks and gives up any other. */
  lemma WriteAcceptedExactly(l: Lease, now: int, leaseId: Option<string>, keep: bool)
    requires WellFormed(l)
    ensures Handle(l, now, WriteBlob(leaseId), keep).outcome.Ok?
      <==> if LockedAt(l, now) then Given(leaseId) && LowerCase(leaseId.value) == LowerCase(l.id.value)
           else !Given(leaseId)
    ensures Handle(l, now, WriteBlob(leaseId), keep).outcome.Ok? ==>
      Handle(l, now, WriteBlob(leaseId), keep).stored == if LockedAt(l, now) then l else NO_LEASE
  {
    Aged(l, now);
  }

  /** An acquire locks the blob for exactly its duration: other ids can acquire again, and writes
      without an id are accepted, from that moment on and not before. */
  lemma AcquireLocksExactly(l: Lease, now: int, duration: int, proposed: string, uuid: string, keep: bool, t: int, other: string)
    requires WellFormed(l) && Handle(l, now, AcquireLease(duration, proposed, uuid), keep).outcome.Ok?
    requires now <= t && other != IdFor(proposed, uuid)
    ensures var held := Handle(l, now, AcquireLease(duration, proposed, uuid), keep).stored;
      var free := duration != -1 && t >= now + duration * 1000;
      && (Handle(held, t, AcquireLease(15, other, uuid), keep).outcome.Ok? <==> free)
      && (Handle(held, t, WriteBlob(None), keep).outcome.Ok? <==> free)
  {
    Aged(l, now);
    var held := LeaseFor(IdFor(proposed, uuid), duration, now);
    assert Handle(l, now, AcquireLease(duration, proposed, uuid), keep).stored == held;
    Aged(held, t);
    WriteAcceptedExactly(held, t, None, keep);
  }

  /** Who can acquire: anyone while the blob is not locked, the holder again while it is leased. */
  lemma AcquireSucceedsExactly(l: Lease, now: int, duration: int, proposed: string, uuid: string, keep: bool)
    requires WellFormed(l)
    ensures Handle(l, now, AcquireLease(duration, proposed, uuid), keep).outcome.Ok?
      <==> (duration == -1 || 15 <= duration <= 60)
           && (LockedAt(l, now) ==> l.state == Some(Leased) && l.id == Some(proposed))
  {
    Aged(l, now);
  }

  /** A renewal succeeds for the holder of a running lease, and for anyone on one that has
      expired: that state does not look at the id. */
  lemma RenewSucceedsExactly(l: Lease, now: int, id: string, keep: bool)
    requires WellFormed(l)
    ensures Handle(l, now, RenewLease(id), keep).outcome.Ok?
      <==> if LockedAt(l, now) then l.state == Some(Leased) && l.id == Some(id)
           else l.state in {Some(Leased), Some(Expired)}
  {
    Aged(l, now);
  }

  /** A renewal starts the duration anew and keeps the id; an infinite lease stays as it is. */
  lemma RenewLocksAnew(l: Lease, now: int, id: string, keep: bool)
    requires WellFormed(l) && Handle(l, now, RenewLease(id), keep).outcome.Ok?
    ensures var renewed := Handle(l, now, RenewLease(id), keep).stored;
      && renewed.id == l.id && renewed.durationSeconds == l.durationSeconds && renewed.state == Some(Leased)
      && LockEnd(renewed) == if l.durationSeconds.Some? then Until(now + l.durationSeconds.value * 1000) else Never
  {
    Aged(l, now);
  }

  /** A break of a running lease is accepted unless a fixed lease is given a period outside
      0 to 60, or an infinite one a negative one; the lock then ends exactly at the break deadline. */
  lemma BreakUnlocksExactly(l: Lease, now: int, period: Option<int>, keep: bool, t: int)
    requires WellFormed(l) && l.state == Some(Leased) && LockedAt(l, now) && now <= t
    ensures Handle(l, now, BreakLease(period), keep).outcome.Ok?
      <==> period.None? || (0 <= period.value && (l.expireTime.Some? ==> period.value <= 60))
    ensures Handle(l, now, BreakLease(period), keep).outcome.Ok? ==>
      var broken := Handle(l, now, BreakLease(period), keep).stored;
      (Handle(broken, t, WriteBlob(None), keep).outcome.Ok? <==> t >= BreakDeadline(l, now, period))
  {
    Aged(l, now);
    HandleWellFormed(l, now, BreakLease(period), keep);
    var response := Handle(l, now, BreakLease(period), keep);
    if response.outcome.Ok? {
      WriteAcceptedExactly(response.stored, t, None, keep);
    }
  }

  /** A second break can only bring the end forward, to the earlier of the two. */
  lemma SecondBreakTakesTheEarlier(l: Lease, now: int, period: Option<int>, keep: bool)
    requires WellFormed(l) && l.state == Some(Breaking) && LockedAt(l, now)
    ensures Handle(l, now, BreakLease(period), keep).outcome.Ok? <==> period.None? || 0 <= period.value <= 60
    ensures Handle(l, now, BreakLease(period), keep).outcome.Ok? ==>
      var again := Handle(l, now, BreakLease(period), keep).stored;
      again.id == l.id && LockEnd(again) ==
        if period.None? then LockEnd(l)
        else if period.value == 0 then End.Unlocked
        else Until(MinDate(l.breakTime.value, now + period.value * 1000))
  {
    Aged(l, now);
  }

  /** A change hands the running lease over: same end, and from then on only the new id counts. */
  lemma ChangeHandsOver(l: Lease, now: int, id: string, newId: string, keep: bool, t: int, later: seq<Step>)
    requires WellFormed(l)
    ensures Handle(l, now, ChangeLease(id, newId), keep).outcome.Ok?
      <==> l.state == Some(Leased) && LockedAt(l, now) && (l.id == Some(id) || l.id == Some(newId))
    ensures Handle(l, now, ChangeLease(id, newId), keep).outcome.Ok? ==>
      var changed := Handle(l, now, ChangeLease(id, newId), keep).stored;
      && changed == l.(id := Some(newId))
      && (StrangersAndWrites(later, newId, l.expireTime) ==> Run(changed, later) == changed)
      && (LockedAt(changed, t) ==> Handle(changed, t, RenewLease(newId), keep).outcome.Ok?)
  {
    Aged(l, now);
    var changed := Handle(l, now, ChangeLease(id, newId), keep).stored;
    if !Handle(l, now, ChangeLease(id, newId), keep).outcome.Ok? {
      return;
    }
    if StrangersAndWrites(later, newId, l.expireTime) {
      HeldAgainstStrangers(changed, newId, later);
    }
    Aged(changed, t);
  }

  /** Only the id on record releases, in every state but available, and nothing of the lease is left. */
  lemma ReleaseFreesExactly(l: Lease, now: int, id: string, keep: bool)
    requires WellFormed(l)
    ensures Handle(l, now, ReleaseLease(id), keep).outcome.Ok? <==> l.state != Some(Available) && l.id == Some(id)
    ensures Handle(l, now, ReleaseLease(id), keep).outcome.Ok? ==>
      Handle(l, now, ReleaseLease(id), keep).stored == NO_LEASE
  {
    Aged(l, now);
  }

  // ----- Breaking for good -----

  /** A break is accepted unless there is no lease, or the lease still locks and is given a period
      outside 0 to 60 (below 0, if it is infinite). It keeps the id and ends the lease: one that no
      longer locks is broken at once, with any period. */
  lemma BreakEndsTheLease(l: Lease, now: int, period: Option<int>, keep: bool)
    requires WellFormed(l)
    ensures Handle(l, now, BreakLease(period), keep).outcome.Ok?
      <==> l.state != Some(Available)
           && (LockedAt(l, now) && period.Some? ==> 0 <= period.value && (LockEnd(l) != Never ==> period.value <= 60))
    ensures Handle(l, now, BreakLease(period), keep).outcome.Ok? ==>
      var broken := Handle(l, now, BreakLease(period), keep).stored;
      && broken.id == l.id && IsOver(broken) && broken != NO_LEASE
      && (!LockedAt(l, now) ==> broken == BrokenLease(l.id))
  {
    Aged(l, now);
    HandleWellFormed(l, now, BreakLease(period), keep);
  }

  /** Nobody can renew or change such a lease any more. */
  predicate IsOver(l: Lease) {
    WellFormed(l) && l.state in {Some(Breaking), Some(Broken), Some(Available)}
  }

  predicate IsFinal(l: Lease, r: Request, outcome: Outcome) {
    && (r.RenewLease? || r.ChangeLease? ==> outcome.Refused?)
    && (r.ReleaseLease? && outcome.Ok? ==> l.id == Some(r.id))
  }

  lemma OverStep(l: Lease, s: Step)
    requires IsOver(l) && !SuccessfulAcquire(l, s)
    ensures var response := Handle(l, s.now, s.request, s.keepsAge);
      && IsOver(response.stored) && (response.stored.id == l.id || response.stored == NO_LEASE)
      && IsFinal(l, s.request, response.outcome)
  {
    Aged(l, s.now);
    HandleWellFormed(l, s.now, s.request, s.keepsAge);
    hide LowerCase;
  }

  lemma {:induction false} OverUntilAcquired(l: Lease, steps: seq<Step>)
    requires IsOver(l) && NoAcquireSucceeds(l, steps)
    ensures |Outcomes(l, steps)| == |steps|
    ensures forall i :: 0 <= i < |steps| ==> IsFinal(l, steps[i].request, Outcomes(l, steps)[i])
    ensures IsOver(Run(l, steps)) && (Run(l, steps).id == l.id || Run(l, steps) == NO_LEASE)
    decreases |steps|
  {
    if steps != [] {
      hide Handle, WellFormed;
      OverStep(l, steps[0]);
      OverUntilAcquired(Handle(l, steps[0].now, steps[0].request, steps[0].keepsAge).stored, steps[1..]);
    }
  }

  /** A break is final: whether it ended a running lease, an expired or a broken one, over every run
      up to the next successful acquire each renewal and change is refused, and only the id on
      record releases. */
  lemma BreakIsFinal(l: Lease, now: int, period: Option<int>, keep: bool, steps: seq<Step>)
    requires WellFormed(l) && Handle(l, now, BreakLease(period), keep).outcome.Ok?
    requires NoAcquireSucceeds(Handle(l, now, BreakLease(period), keep).stored, steps)
    ensures var broken := Handle(l, now, BreakLease(period), keep).stored;
      && |Outcomes(broken, steps)| == |steps|
      && forall i :: 0 <= i < |steps| ==> IsFinal(l, steps[i].request, Outcomes(broken, steps)[i])
  {
    BreakEndsTheLease(l, now, period, keep);
    OverUntilAcquired(Handle(l, now, BreakLease(period), keep).stored, steps);
  }
}
