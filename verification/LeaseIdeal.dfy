/** A lease as its holders see it: held from a moment for a time, or ended at a moment. Nothing is
    aged and there are no expired, breaking and broken states; the clock alone decides. The stored
    five-state lease answers every run of requests as this one does. */
module LeaseIdeal {
  import opened Options
  import opened Leases
  import opened LeaseIds
  import opened LeaseLaws
  import opened LeaseRuns

  datatype Ideal =
    | Free
    | Held(id: string, seconds: Option<int>, since: int)
    | Ended(id: string, at: int)

  /** The moment up to which the blob is locked, if there is one. */
  function LockedUntil(i: Ideal): Option<int>
    requires !i.Free?
  {
    match i
    case Held(_, seconds, since) => if seconds.Some? then Some(since + seconds.value * 1000) else None
    case Ended(_, at) => Some(at)
  }

  predicate Locks(i: Ideal, now: int) {
    !i.Free? && (LockedUntil(i).Some? ==> now < LockedUntil(i).value)
  }

  datatype Answer = Granted | Denied(error: Error) | Failed

  datatype Turn = Turn(next: Ideal, answer: Answer)

  function Deny(i: Ideal, error: Error): Turn {
    Turn(i, Denied(error))
  }

  function Ask(i: Ideal, now: int, r: Request): Turn {
    match r
    case AcquireLease(duration, proposed, uuid) => AskAcquire(i, now, duration, proposed, uuid)
    case BreakLease(period) => AskBreak(i, now, period)
    case RenewLease(id) =>
      if i.Held? && (i.id == id || !Locks(i, now)) then Turn(i.(since := now), Granted)
      else Deny(i, if i.Ended? && i.id == id then LeaseIsBrokenAndCannotBeRenewed else LeaseIdMismatch)
    case ChangeLease(id, newId) =>
      if !Locks(i, now) then Deny(i, LeaseNotPresent)
      else if i.Held? && i.id in {id, newId} then Turn(Held(newId, i.seconds, i.since), Granted)
      else Deny(i, if i.Ended? && i.id == id then LeaseIsBreakingAndCannotBeChanged else LeaseIdMismatch)
    case ReleaseLease(id) =>
      if !i.Free? && i.id == id then Turn(Free, Granted) else Deny(i, LeaseIdMismatch)
    case WriteBlob(leaseId) =>
      if !Locks(i, now) then
        if leaseId in {None, Some("")} then Turn(Free, Granted) else Deny(i, BlobLeaseLost)
      else if leaseId in {None, Some("")} then Deny(i, BlobLeaseIdMissing)
      else if SameButCase(leaseId.value, i.id) then Turn(i, Granted)
      else Deny(i, BlobLeaseIdMismatch)
    case Observe => Turn(i, Granted)
  }

  /** Only the holder acquires a locked blob, for a duration from 15 to 60 seconds or for ever. */
  function AskAcquire(i: Ideal, now: int, duration: int, proposed: string, uuid: string): Turn {
    if Locks(i, now) && i.id != proposed then Deny(i, LeaseAlreadyPresent)
    else if Locks(i, now) && i.Ended? then Deny(i, LeaseIsBreakingAndCannotBeAcquired)
    else if duration == -1 then Turn(Held(if proposed != "" then proposed else uuid, None, now), Granted)
    else if 15 <= duration <= 60 then Turn(Held(if proposed != "" then proposed else uuid, Some(duration), now), Granted)
    else Deny(i, InvalidLeaseDuration)
  }

  /** A break ends the lock at the asked time, but never later than it would have ended. Without a
      period it ends when it would have, or now if it never would. A lease that no longer locks is
      broken by then, with any period. */
  function AskBreak(i: Ideal, now: int, period: Option<int>): Turn {
    if i.Free? then Deny(i, LeaseNotPresent)
    else if !Locks(i, now) then Turn(Ended(i.id, if i.Ended? then i.at else now), Granted)
    else
      match LockedUntil(i)
      case None =>
        if period.None? then Turn(Ended(i.id, now), Granted)
        else if period.value < 0 then Turn(i, Failed)
        else Turn(Ended(i.id, now + period.value * 1000), Granted)
      case Some(until) =>
        if period.None? then Turn(Ended(i.id, until), Granted)
        else if !(0 <= period.value <= 60) then Deny(i, InvalidLeaseBreakPeriod)
        else Turn(Ended(i.id, if now + period.value * 1000 <= until then now + period.value * 1000 else until), Granted)
  }

  // ----- The stored lease and the ideal one -----

  /** The stored forms of an ideal lease by a moment: the one written when it was last changed, or
      the aged one if it no longer locks. */
  predicate Stores(l: Lease, i: Ideal, now: int) {
    match i
    case Free => l == NO_LEASE
    case Held(id, seconds, since) =>
      && (seconds.Some? ==> 15 <= seconds.value <= 60)
      && (|| l == Lease(Some(id), Some(Leased), Some(Locked), Some(if seconds.Some? then Fixed else Infinite),
                        seconds, LockedUntil(i), None)
          || (!Locks(i, now) && l == Lease(Some(id), Some(Expired), Some(Unlocked), None, seconds, None, None)))
    case Ended(id, at) =>
      || l == Lease(Some(id), Some(Breaking), Some(Locked), None, None, None, Some(at))
      || (at <= now && l == Lease(Some(id), Some(Broken), Some(Unlocked), None, None, None, None))
  }

  /** Every well-formed stored lease stores some ideal one. */
  function IdealOf(l: Lease, now: int): (i: Ideal)
    requires WellFormed(l)
    ensures Stores(l, i, now)
  {
    match l.state
    case Some(Leased) =>
      Held(l.id.value, l.durationSeconds,
           if l.expireTime.Some? then l.expireTime.value - l.durationSeconds.value * 1000 else now)
    case Some(Expired) => Held(l.id.value, l.durationSeconds, now - l.durationSeconds.value * 1000)
    case Some(Breaking) => Ended(l.id.value, l.breakTime.value)
    case Some(Broken) => Ended(l.id.value, now)
    case _ => Free
  }

  function AnswerOf(outcome: Outcome): Answer {
    match outcome
    case Ok(_) => Granted
    case Refused(error) => Denied(error)
    case RangeError => Failed
  }

  /** A stored lease that building the state leaves as it is. */
  predicate UpToDate(l: Lease, i: Ideal, now: int) {
    && Stores(l, i, now) && Build(Adapt(l), now) == Ok(l)
    && (l.state in {Some(Leased), Some(Breaking)} <==> Locks(i, now))
  }

  lemma AgedStores(l: Lease, i: Ideal, t: int, now: int)
    requires t <= now && Stores(l, i, t)
    ensures WellFormed(l) && Stores(l, i, now)
    ensures Build(Adapt(l), now).Ok?
    ensures var aged := Build(Adapt(l), now).lease;
      WellFormed(aged) && UpToDate(aged, i, now)
  {
  }

  predicate AnswersAlike(outcome: Outcome, i: Ideal, turn: Turn, now: int) {
    && AnswerOf(outcome) == turn.answer
    && (if outcome.Ok? then Stores(outcome.lease, turn.next, now) else turn.next == i)
  }

  lemma AcquireAsIdeal(l: Lease, i: Ideal, now: int, duration: int, proposed: string, uuid: string)
    requires UpToDate(l, i, now)
    ensures AnswersAlike(Acquire(l, now, duration, proposed, uuid), i, AskAcquire(i, now, duration, proposed, uuid), now)
  {
  }

  lemma BreakAsIdeal(l: Lease, i: Ideal, now: int, period: Option<int>)
    requires UpToDate(l, i, now)
    ensures AnswersAlike(Break(l, now, period), i, AskBreak(i, now, period), now)
  {
  }

  lemma WriteAsIdeal(l: Lease, i: Ideal, now: int, leaseId: Option<string>)
    requires UpToDate(l, i, now)
    ensures AnswersAlike(Operate(l, now, WriteBlob(leaseId)), i, Ask(i, now, WriteBlob(leaseId)), now)
  {
    hide LowerCase, SameButCase;
    if leaseId.Some? && !i.Free? {
      LowerCaseExactly(leaseId.value, i.id);
    }
  }

  /** One request on an aged lease: the ideal lease answers alike, and stays the one stored. */
  lemma OperateAsIdeal(l: Lease, i: Ideal, now: int, r: Request)
    requires UpToDate(l, i, now)
    ensures AnswersAlike(Operate(l, now, r), i, Ask(i, now, r), now)
  {
    match r
    case AcquireLease(duration, proposed, uuid) => AcquireAsIdeal(l, i, now, duration, proposed, uuid);
    case BreakLease(period) => BreakAsIdeal(l, i, now, period);
    case WriteBlob(leaseId) => WriteAsIdeal(l, i, now, leaseId);
    case _ =>
  }

  lemma HandleAsIdeal(l: Lease, i: Ideal, t: int, now: int, r: Request, keep: bool)
    requires t <= now && Stores(l, i, t)
    ensures AnswerOf(Handle(l, now, r, keep).outcome) == Ask(i, now, r).answer
    ensures Stores(Handle(l, now, r, keep).stored, Ask(i, now, r).next, now)
    ensures var outcome := Handle(l, now, r, keep).outcome; outcome.Ok? ==> Stores(outcome.lease, Ask(i, now, r).next, now)
  {
    AgedStores(l, i, t, now);
    var aged := Build(Adapt(l), now).lease;
    OperateAsIdeal(aged, i, now, r);
  }

  function AskAll(i: Ideal, steps: seq<Step>): Ideal
    decreases |steps|
  {
    if steps == [] then i else AskAll(Ask(i, steps[0].now, steps[0].request).next, steps[1..])
  }

  function IdealAnswers(i: Ideal, steps: seq<Step>): seq<Answer>
    decreases |steps|
  {
    if steps == [] then []
    else
      var turn := Ask(i, steps[0].now, steps[0].request);
      [turn.answer] + IdealAnswers(turn.next, steps[1..])
  }

  function AnswersOf(outcomes: seq<Outcome>): seq<Answer> {
    if outcomes == [] then [] else [AnswerOf(outcomes[0])] + AnswersOf(outcomes[1..])
  }

  /** The refinement: over any run of requests at times that do not go back, with any observations
      and whether or not a store keeps an ageing, every answer is the ideal lease's, errors and all. */
  lemma {:induction false} LeasesAreIdeal(l: Lease, i: Ideal, t: int, steps: seq<Step>)
    requires Stores(l, i, t) && TimesFrom(steps, t)
    ensures AnswersOf(Outcomes(l, steps)) == IdealAnswers(i, steps)
    ensures steps != [] ==> Stores(Run(l, steps), AskAll(i, steps), steps[|steps| - 1].now)
    decreases |steps|
  {
    if steps != [] {
      var s, later := steps[0], steps[1..];
      hide Handle, Ask, Stores;
      HandleAsIdeal(l, i, t, s.now, s.request, s.keepsAge);
      assert TimesFrom(later, s.now);
      LeasesAreIdeal(Handle(l, s.now, s.request, s.keepsAge).stored, Ask(i, s.now, s.request).next, s.now, later);
      var outcomes := Outcomes(l, steps);
      assert outcomes[1..] == Outcomes(Handle(l, s.now, s.request, s.keepsAge).stored, later);
    }
  }

  /** So it is from a fresh blob, and from every well-formed lease found in a store. */
  lemma StoredLeasesAreIdeal(l: Lease, t: int, steps: seq<Step>)
    requires WellFormed(l) && TimesFrom(steps, t)
    ensures AnswersOf(Outcomes(l, steps)) == IdealAnswers(IdealOf(l, t), steps)
    ensures IdealOf(NO_LEASE, t) == Free
  {
    LeasesAreIdeal(l, IdealOf(l, t), t, steps);
  }
}
