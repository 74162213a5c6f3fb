/** Properties of single lease requests. */
module LeaseLaws {
  import opened Options
  import opened Leases

  /** The shapes a stored lease can have. */
  predicate WellFormed(l: Lease) {
    match l.state
    case None => false
    case Some(Available) => l == NO_LEASE
    case Some(Leased) =>
      && l.id.Some? && l.status == Some(Locked) && l.breakTime.None?
      && (match l.durationType
          case None => false
          case Some(Infinite) => l.durationSeconds.None? && l.expireTime.None?
          case Some(Fixed) => l.durationSeconds.Some? && 15 <= l.durationSeconds.value <= 60 && l.expireTime.Some?)
    case Some(Expired) =>
      && l.id.Some? && l.durationSeconds.Some? && 15 <= l.durationSeconds.value <= 60
      && l == Lease(l.id, Some(Expired), Some(Unlocked), None, l.durationSeconds, None, None)
    case Some(Breaking) => l.id.Some? && l.breakTime.Some? && l == BreakingLease(l.id, l.breakTime)
    case Some(Broken) => l.id.Some? && l == BrokenLease(l.id)
  }

  /** Ageing never fails on a well-formed lease. */
  lemma BuildWellFormed(l: Lease, now: int)
    requires WellFormed(l)
    ensures Adapt(l) == l
    ensures Build(l, now).Ok? && WellFormed(Build(l, now).lease)
  {
  }

  /** Ageing is confluent: an observation at t1 that is stored changes nothing at t2. */
  lemma AgeingIsConfluent(l: Lease, t1: int, t2: int)
    requires t1 <= t2 && Build(l, t1).Ok?
    ensures Build(Build(l, t1).lease, t2) == Build(l, t2)
  {
  }

  /** The one request that reaches an internal error: a negative break period on an infinite
      lease, whose branch does not check the period. */
  predicate BreaksInfiniteNegatively(l: Lease, now: int, r: Request) {
    && r.BreakLease? && r.period.Some? && r.period.value < 0
    && l.state == Some(Leased) && l.durationType == Some(Infinite)
  }

  lemma HandleWellFormed(stored: Lease, now: int, r: Request, keepsAge: bool)
    requires WellFormed(stored)
    ensures WellFormed(Handle(stored, now, r, keepsAge).stored)
    ensures Handle(stored, now, r, keepsAge).outcome.RangeError? <==> BreaksInfiniteNegatively(stored, now, r)
  {
    BuildWellFormed(stored, now);
    var aged := Build(stored, now).lease;
    BuildWellFormed(aged, now);
    AgeingIsConfluent(stored, now, now);
    OperateWellFormed(aged, now, r);
  }

  lemma OperateWellFormed(l: Lease, now: int, r: Request)
    requires WellFormed(l) && Build(l, now) == Ok(l)
    ensures Operate(l, now, r).Ok? ==> WellFormed(Operate(l, now, r).lease)
    ensures Operate(l, now, r).RangeError? <==> BreaksInfiniteNegatively(l, now, r)
  {
  }

  /** The failing family made concrete: any negative period on a lease acquired with duration -1. */
  lemma NegativeBreakThrows(id: string, period: int, now: int, keepsAge: bool)
    requires period < 0
    ensures WellFormed(LeaseFor(id, -1, now))
    ensures Handle(LeaseFor(id, -1, now), now, BreakLease(Some(period)), keepsAge).outcome.RangeError?
  {
    var l := LeaseFor(id, -1, now);
    assert Build(Adapt(l), now) == Ok(l);
  }
}
