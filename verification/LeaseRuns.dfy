/** Properties of whole sequences of lease requests. */
module LeaseRuns {
  import opened Options
  import opened Leases
  import opened LeaseLaws

  datatype Step = Step(now: int, request: Request, keepsAge: bool)

  function Run(stored: Lease, steps: seq<Step>): Lease
    decreases |steps|
  {
    if steps == [] then stored
    else Run(Handle(stored, steps[0].now, steps[0].request, steps[0].keepsAge).stored, steps[1..])
  }

  function Outcomes(stored: Lease, steps: seq<Step>): seq<Outcome>
    decreases |steps|
  {
    if steps == [] then []
    else
      var response := Handle(stored, steps[0].now, steps[0].request, steps[0].keepsAge);
      [response.outcome] + Outcomes(response.stored, steps[1..])
  }

  ghost predicate NoBadBreak(steps: seq<Step>) {
    forall i :: 0 <= i < |steps| ==>
      !(steps[i].request.BreakLease? && steps[i].request.period.Some? && steps[i].request.period.value < 0)
  }

  /** Every lease reachable from a fresh blob is well formed, and with break periods >= 0 every
      refusal is a storage error: no constructor check ever fails. */
  lemma {:induction false} ReachableLeases(stored: Lease, steps: seq<Step>)
    requires WellFormed(stored)
    ensures WellFormed(Run(stored, steps))
    ensures NoBadBreak(steps) ==> RangeError !in Outcomes(stored, steps)
    decreases |steps|
  {
    if steps != [] {
      HandleWellFormed(stored, steps[0].now, steps[0].request, steps[0].keepsAge);
      ReachableLeases(Handle(stored, steps[0].now, steps[0].request, steps[0].keepsAge).stored, steps[1..]);
      if NoBadBreak(steps) {
        assert !BreaksInfiniteNegatively(stored, steps[0].now, steps[0].request);
        assert forall i :: 0 <= i < |steps[1..]| ==> steps[1..][i] == steps[i + 1];
        assert NoBadBreak(steps[1..]);
      }
    }
  }

  // ----- Observations do not matter -----

  /** The two records are in the same state at every time from t on. */
  ghost predicate SameFrom(a: Lease, b: Lease, t: int) {
    WellFormed(a) && WellFormed(b) && forall u :: t <= u ==> Build(a, u) == Build(b, u)
  }

  ghost predicate TimesFrom(steps: seq<Step>, t: int) {
    && (forall i :: 0 <= i < |steps| ==> t <= steps[i].now)
    && (forall i, j :: 0 <= i < j < |steps| ==> steps[i].now <= steps[j].now)
  }

  lemma HandleSame(a: Lease, b: Lease, now: int, r: Request, keepA: bool, keepB: bool)
    requires SameFrom(a, b, now)
    ensures Handle(a, now, r, keepA).outcome == Handle(b, now, r, keepB).outcome
    ensures SameFrom(Handle(a, now, r, keepA).stored, Handle(b, now, r, keepB).stored, now)
  {
    HandleWellFormed(a, now, r, keepA);
    HandleWellFormed(b, now, r, keepB);
    BuildWellFormed(a, now);
    BuildWellFormed(b, now);
    assert Build(a, now) == Build(b, now);
    var aged := Build(a, now).lease;
    BuildWellFormed(aged, now);
    AgeingIsConfluent(a, now, now);
    forall u | now <= u ensures Build(aged, u) == Build(a, u) == Build(b, u) {
      AgeingIsConfluent(a, now, u);
    }
  }

  lemma ObserveSame(a: Lease, b: Lease, now: int, keep: bool)
    requires SameFrom(a, b, now)
    ensures SameFrom(Handle(a, now, Observe, keep).stored, b, now)
  {
    BuildWellFormed(a, now);
    var aged := Build(a, now).lease;
    BuildWellFormed(aged, now);
    AgeingIsConfluent(a, now, now);
    forall u | now <= u ensures Build(aged, u) == Build(b, u) {
      AgeingIsConfluent(a, now, u);
    }
  }

  function WithoutObservations(steps: seq<Step>): seq<Step> {
    if steps == [] then []
    else (if steps[0].request.Observe? then [] else [steps[0]]) + WithoutObservations(steps[1..])
  }

  /** The answers to the requests that are not mere observations. */
  function Answers(stored: Lease, steps: seq<Step>): seq<Outcome>
    decreases |steps|
  {
    if steps == [] then []
    else
      var response := Handle(stored, steps[0].now, steps[0].request, steps[0].keepsAge);
      (if steps[0].request.Observe? then [] else [response.outcome]) + Answers(response.stored, steps[1..])
  }

  /** The same requests at the same times; the stores may differ in what they keep. */
  predicate SameRequests(a: seq<Step>, b: seq<Step>) {
    |a| == |b| && forall i :: 0 <= i < |a| ==> a[i].now == b[i].now && a[i].request == b[i].request
  }

  /** Extra observations, and whether a store keeps an ageing when it refuses, never change the
      answer to any later request. */
  lemma {:induction false} ObservationsDoNotMatter(a: Lease, b: Lease, t: int, observed: seq<Step>, plain: seq<Step>)
    requires SameFrom(a, b, t) && TimesFrom(observed, t)
    requires SameRequests(WithoutObservations(observed), plain)
    ensures Answers(a, observed) == Outcomes(b, plain)
    decreases |observed|
  {
    if observed != [] {
      var s, later := observed[0], observed[1..];
      assert SameFrom(a, b, s.now) && TimesFrom(later, s.now);
      var nextA := Handle(a, s.now, s.request, s.keepsAge).stored;
      if s.request.Observe? {
        ObserveSame(a, b, s.now, s.keepsAge);
        SkipObservation(observed);
        ObservationsDoNotMatter(nextA, b, s.now, later, plain);
      } else {
        var p, rest := plain[0], plain[1..];
        SkipRequest(observed, plain);
        HandleSame(a, b, s.now, s.request, s.keepsAge, p.keepsAge);
        ObservationsDoNotMatter(nextA, Handle(b, s.now, s.request, p.keepsAge).stored, s.now, later, rest);
      }
    }
  }

  lemma SkipObservation(observed: seq<Step>)
    requires observed != [] && observed[0].request.Observe?
    ensures WithoutObservations(observed) == WithoutObservations(observed[1..])
  {
  }

  lemma SkipRequest(observed: seq<Step>, plain: seq<Step>)
    requires observed != [] && !observed[0].request.Observe?
    requires SameRequests(WithoutObservations(observed), plain)
    ensures plain != [] && plain[0].now == observed[0].now && plain[0].request == observed[0].request
    ensures SameRequests(WithoutObservations(observed[1..]), plain[1..])
  {
    assert WithoutObservations(observed)[0] == observed[0];
    assert WithoutObservations(observed)[1..] == WithoutObservations(observed[1..]);
    forall i | 0 <= i < |plain| - 1
      ensures WithoutObservations(observed[1..])[i].now == plain[1..][i].now
           && WithoutObservations(observed[1..])[i].request == plain[1..][i].request
    {
      assert WithoutObservations(observed)[i + 1] == WithoutObservations(observed[1..])[i];
    }
  }

  // ----- Exclusivity -----

  /** A lease held under this id that has not expired yet. */
  predicate HeldAt(l: Lease, id: string, now: int) {
    WellFormed(l) && l.state == Some(Leased) && l.id == Some(id)
    && (l.expireTime.Some? ==> now < l.expireTime.value)
  }

  /** The request does not carry the holder's id and is no break. */
  predicate Stranger(r: Request, id: string) {
    match r
    case AcquireLease(_, proposed, _) => proposed != id
    case BreakLease(_) => false
    case RenewLease(other) => other != id
    case ChangeLease(other, newId) => other != id && newId != id
    case ReleaseLease(other) => other != id
    case WriteBlob(leaseId) => leaseId.None? || leaseId.value == "" || LowerCase(leaseId.value) != LowerCase(id)
    case Observe => true
  }

  function Refusal(r: Request): Outcome {
    match r
    case AcquireLease(_, _, _) => Refused(LeaseAlreadyPresent)
    case WriteBlob(leaseId) =>
      if leaseId.None? || leaseId.value == "" then Refused(BlobLeaseIdMissing) else Refused(BlobLeaseIdMismatch)
    case _ => Refused(LeaseIdMismatch)
  }

  /** A write that carries the holder's id. */
  predicate OwnWrite(r: Request, id: string) {
    r.WriteBlob? && r.leaseId.Some? && r.leaseId.value != "" && LowerCase(r.leaseId.value) == LowerCase(id)
  }

  /** What a request gets while the lease is held. */
  function AnswerWhileHeld(l: Lease, r: Request, id: string): Outcome {
    if OwnWrite(r, id) || r.Observe? then Ok(l) else Refusal(r)
  }

  lemma HeldStep(l: Lease, id: string, s: Step)
    requires HeldAt(l, id, s.now) && (Stranger(s.request, id) || OwnWrite(s.request, id))
    ensures Handle(l, s.now, s.request, s.keepsAge) == Response(l, AnswerWhileHeld(l, s.request, id))
  {
    hide LowerCase;
    assert Build(Adapt(l), s.now) == Ok(l);
  }

  /** Requests of strangers and writes of the holder, all before the expiry. */
  ghost predicate StrangersAndWrites(steps: seq<Step>, id: string, expiry: Option<int>) {
    forall i :: 0 <= i < |steps| ==>
      && (Stranger(steps[i].request, id) || OwnWrite(steps[i].request, id))
      && (expiry.Some? ==> steps[i].now < expiry.value)
  }

  lemma {:induction false} HeldAgainstStrangers(l: Lease, id: string, steps: seq<Step>)
    requires WellFormed(l) && l.state == Some(Leased) && l.id == Some(id)
    requires StrangersAndWrites(steps, id, l.expireTime)
    ensures Run(l, steps) == l
    ensures |Outcomes(l, steps)| == |steps|
    ensures forall i :: 0 <= i < |steps| ==> Outcomes(l, steps)[i] == AnswerWhileHeld(l, steps[i].request, id)
  {
    if steps != [] {
      HeldStep(l, id, steps[0]);
      hide Handle, AnswerWhileHeld, Stranger, OwnWrite;
      HeldAgainstStrangers(l, id, steps[1..]);
    }
  }

  /** From a successful acquire until its expiry: whatever strangers do and however often the
      holder writes, in any order and at any times, the lease stays as it is, the writes are
      accepted and each stranger is refused with the same error. */
  lemma AcquireExcludes(stored: Lease, now: int, duration: int, proposed: string, uuid: string, keep: bool, steps: seq<Step>)
    requires WellFormed(stored)
    requires Handle(stored, now, AcquireLease(duration, proposed, uuid), keep).outcome.Ok?
    requires StrangersAndWrites(steps, IdFor(proposed, uuid), if duration == -1 then None else Some(now + duration * 1000))
    ensures var held := Handle(stored, now, AcquireLease(duration, proposed, uuid), keep).stored;
      var id := if proposed != "" then proposed else uuid;
      && held == LeaseFor(id, duration, now) && held.id == Some(id)
      && Run(held, steps) == held
      && |Outcomes(held, steps)| == |steps|
      && forall i :: 0 <= i < |steps| ==> Outcomes(held, steps)[i] == AnswerWhileHeld(held, steps[i].request, id)
  {
    BuildWellFormed(stored, now);
    AgeingIsConfluent(stored, now, now);
    BuildWellFormed(Build(stored, now).lease, now);
    HeldAgainstStrangers(LeaseFor(IdFor(proposed, uuid), duration, now), IdFor(proposed, uuid), steps);
  }

  // ----- Deadlines after a break -----

  /** The lock, if any, ends by the deadline. */
  predicate LockEndsBy(l: Lease, deadline: int) {
    && WellFormed(l)
    && (l.state == Some(Breaking) ==> l.breakTime.value <= deadline)
    && l.state != Some(Leased) && l.state != Some(Expired)
  }

  predicate SuccessfulAcquire(l: Lease, s: Step) {
    s.request.AcquireLease? && Handle(l, s.now, s.request, s.keepsAge).outcome.Ok?
  }

  lemma DeadlineStep(l: Lease, s: Step, deadline: int)
    requires LockEndsBy(l, deadline) && !SuccessfulAcquire(l, s)
    ensures var t := Handle(l, s.now, s.request, s.keepsAge).stored;
      && LockEndsBy(t, deadline)
      && (t.state == Some(Breaking) ==> l.state == Some(Breaking) && t.breakTime.value <= l.breakTime.value)
  {
    HandleWellFormed(l, s.now, s.request, s.keepsAge);
    BuildWellFormed(l, s.now);
    AgeingIsConfluent(l, s.now, s.now);
    var aged := Build(l, s.now).lease;
    BuildWellFormed(aged, s.now);
    assert LockEndsBy(aged, deadline);
  }

  ghost predicate NoAcquireSucceeds(l: Lease, steps: seq<Step>)
    decreases |steps|
  {
    steps == [] || (!SuccessfulAcquire(l, steps[0])
                    && NoAcquireSucceeds(Handle(l, steps[0].now, steps[0].request, steps[0].keepsAge).stored, steps[1..]))
  }

  lemma {:induction false} DeadlineNeverLater(l: Lease, steps: seq<Step>, deadline: int)
    requires LockEndsBy(l, deadline) && NoAcquireSucceeds(l, steps)
    ensures LockEndsBy(Run(l, steps), deadline)
    decreases |steps|
  {
    if steps != [] {
      DeadlineStep(l, steps[0], deadline);
      DeadlineNeverLater(Handle(l, steps[0].now, steps[0].request, steps[0].keepsAge).stored, steps[1..], deadline);
    }
  }

  /** When the lock of a lease will end once this break is accepted. */
  function BreakDeadline(l: Lease, now: int, period: Option<int>): int
    requires WellFormed(l) && l.state == Some(Leased)
  {
    var asked := match period case None => now case Some(p) => now + p * 1000;
    match l.expireTime
    case None => asked
    case Some(expiry) => if period.None? then expiry else MinDate(expiry, asked)
  }

  /** From the first break of a running lease until the next successful acquire the end of the
      lock never moves later, over any run; for a fixed lease it is at or before its expiry. */
  lemma BreakEndsTheLock(l: Lease, now: int, period: Option<int>, keep: bool, steps: seq<Step>)
    requires WellFormed(l) && l.state == Some(Leased) && (l.expireTime.Some? ==> now < l.expireTime.value)
    requires Handle(l, now, BreakLease(period), keep).outcome.Ok?
    requires NoAcquireSucceeds(Handle(l, now, BreakLease(period), keep).stored, steps)
    ensures LockEndsBy(Run(Handle(l, now, BreakLease(period), keep).stored, steps), BreakDeadline(l, now, period))
    ensures l.expireTime.Some? ==> BreakDeadline(l, now, period) <= l.expireTime.value
  {
    assert Build(Adapt(l), now) == Ok(l);
    HandleWellFormed(l, now, BreakLease(period), keep);
    DeadlineNeverLater(Handle(l, now, BreakLease(period), keep).stored, steps, BreakDeadline(l, now, period));
  }

  // ----- A lease given up by a write -----

  /** The requests by which a former holder could get back to its lease. */
  predicate NeedsLease(r: Request) {
    r.RenewLease? || r.ChangeLease? || r.BreakLease? || r.ReleaseLease?
  }

  lemma {:induction false} AvailableStaysAvailable(steps: seq<Step>)
    requires NoAcquireSucceeds(NO_LEASE, steps)
    ensures Run(NO_LEASE, steps) == NO_LEASE
    ensures |Outcomes(NO_LEASE, steps)| == |steps|
    ensures forall i :: 0 <= i < |steps| && NeedsLease(steps[i].request) ==> Outcomes(NO_LEASE, steps)[i].Refused?
  {
    if steps != [] {
      assert Handle(NO_LEASE, steps[0].now, steps[0].request, steps[0].keepsAge).stored == NO_LEASE;
      AvailableStaysAvailable(steps[1..]);
    }
  }

  /** Once a write is accepted on a lease that has run out, renew, change, break and release
      fail with any id until the next successful acquire, whatever happens in between. */
  lemma WriteGivesUpTheLease(stored: Lease, now: int, leaseId: Option<string>, keep: bool, steps: seq<Step>)
    requires WellFormed(stored)
    requires Build(stored, now).Ok? && Build(stored, now).lease.state in {Some(Expired), Some(Broken)}
    requires Handle(stored, now, WriteBlob(leaseId), keep).outcome.Ok?
    requires NoAcquireSucceeds(Handle(stored, now, WriteBlob(leaseId), keep).stored, steps)
    ensures var after := Handle(stored, now, WriteBlob(leaseId), keep).stored;
      && after == NO_LEASE && Run(after, steps) == NO_LEASE
      && |Outcomes(after, steps)| == |steps|
      && forall i :: 0 <= i < |steps| && NeedsLease(steps[i].request) ==> Outcomes(after, steps)[i].Refused?
  {
    BuildWellFormed(stored, now);
    AgeingIsConfluent(stored, now, now);
    BuildWellFormed(Build(stored, now).lease, now);
    assert Handle(stored, now, WriteBlob(leaseId), keep).stored == NO_LEASE;
    AvailableStaysAvailable(steps);
  }
}
