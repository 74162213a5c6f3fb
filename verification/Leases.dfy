/** The blob lease protocol: five states that age lazily with the time of each request. */
module Leases {
  import opened Options

  datatype LeaseState = Available | Leased | Expired | Breaking | Broken

  datatype LeaseStatus = Locked | Unlocked

  datatype DurationType = Fixed | Infinite

  /** Times are milliseconds; `None` is JavaScript's undefined. */
  datatype Lease = Lease(
    id: Option<string>,
    state: Option<LeaseState>,
    status: Option<LeaseStatus>,
    durationType: Option<DurationType>,
    durationSeconds: Option<int>,
    expireTime: Option<int>,
    breakTime: Option<int>)

  datatype Error =
    | LeaseAlreadyPresent
    | InvalidLeaseDuration
    | InvalidLeaseBreakPeriod
    | LeaseIdMismatch
    | LeaseNotPresent
    | LeaseIsBreakingAndCannotBeAcquired
    | LeaseIsBreakingAndCannotBeChanged
    | LeaseIsBrokenAndCannotBeRenewed
    | BlobLeaseIdMissing
    | BlobLeaseIdMismatch
    | BlobLeaseLost

  /** A storage error is an answer to the client; a RangeError is an internal failure. */
  datatype Outcome = Ok(lease: Lease) | Refused(error: Error) | RangeError

  // ----- Constructors of the states -----

  const NO_LEASE := Lease(None, Some(Available), Some(Unlocked), None, None, None, None)

  function NewAvailable(l: Lease): Outcome {
    if l.state.None? then Ok(Lease(None, None, None, None, None, None, None))
    else if l == NO_LEASE then Ok(l)
    else RangeError
  }

  function NewLeased(l: Lease, now: int): Outcome {
    if l.state != Some(Leased) || l.status != Some(Locked) || l.id.None? then RangeError
    else if l.expireTime.Some? && now >= l.expireTime.value then RangeError
    else if l.durationType.None? || l.breakTime.Some? then RangeError
    else Ok(l)
  }

  function NewBreaking(l: Lease, now: int): Outcome {
    if l.state != Some(Breaking) || l.status != Some(Locked) || l.id.None? then RangeError
    else if l.expireTime.Some? || l.durationSeconds.Some? || l.durationType.Some? then RangeError
    else if l.breakTime.None? || now >= l.breakTime.value then RangeError
    else Ok(l)
  }

  function NewExpired(l: Lease, now: int): Outcome {
    if l.state == Some(Expired) then
      if l.status != Some(Unlocked) || l.id.None? || l.expireTime.Some? then RangeError
      else if l.durationSeconds.None? || l.durationSeconds == Some(-1) then RangeError
      else if l.durationType.Some? || l.breakTime.Some? then RangeError
      else Ok(l)
    else if l.state == Some(Leased) then
      if l.status != Some(Locked) || l.id.None? then RangeError
      else if l.expireTime.None? || now < l.expireTime.value then RangeError
      else if l.durationSeconds.None? || l.durationSeconds == Some(-1) then RangeError
      else if l.durationType != Some(Fixed) || l.breakTime.Some? then RangeError
      else Ok(Lease(l.id, Some(Expired), Some(Unlocked), None, l.durationSeconds, None, None))
    else RangeError
  }

  function BrokenLease(id: Option<string>): Lease {
    Lease(id, Some(Broken), Some(Unlocked), None, None, None, None)
  }

  function NewBroken(l: Lease, now: int): Outcome {
    if l.state == Some(Broken) then
      if l.id.None? || l != BrokenLease(l.id) then RangeError else Ok(l)
    else if l.state == Some(Breaking) then
      if l.status != Some(Locked) || l.id.None? then RangeError
      else if l.expireTime.Some? || l.durationSeconds.Some? || l.durationType.Some? then RangeError
      else if l.breakTime.None? || now < l.breakTime.value then RangeError
      else Ok(BrokenLease(l.id))
    else RangeError
  }

  /** LeaseFactory.createLeaseState: the state a stored lease is in at this time. */
  function Build(l: Lease, now: int): Outcome {
    match l.state
    case None => NewAvailable(l)
    case Some(Available) => NewAvailable(l)
    case Some(Leased) =>
      if l.expireTime.None? || now < l.expireTime.value then NewLeased(l, now) else NewExpired(l, now)
    case Some(Expired) => NewExpired(l, now)
    case Some(Breaking) =>
      if l.breakTime.None? then RangeError
      else if now < l.breakTime.value then NewBreaking(l, now)
      else NewBroken(l, now)
    case Some(Broken) => NewBroken(l, now)
  }

  // ----- Operations on a built state -----

  function LeaseFor(id: string, duration: int, now: int): Lease {
    if duration == -1 then Lease(Some(id), Some(Leased), Some(Locked), Some(Infinite), None, None, None)
    else Lease(Some(id), Some(Leased), Some(Locked), Some(Fixed), Some(duration), Some(now + duration * 1000), None)
  }

  /** `proposed || uuid()` */
  function IdFor(proposed: string, uuid: string): string {
    if proposed == "" then uuid else proposed
  }

  predicate BadDuration(duration: int) {
    (duration < 15 || duration > 60) && duration != -1
  }

  function Acquire(l: Lease, now: int, duration: int, proposed: string, uuid: string): Outcome {
    match l.state
    case Some(Leased) =>
      if Some(proposed) != l.id then Refused(LeaseAlreadyPresent)
      else if BadDuration(duration) then Refused(InvalidLeaseDuration)
      else NewLeased(LeaseFor(IdFor(proposed, uuid), duration, now), now)
    case Some(Breaking) =>
      if Some(proposed) == l.id then Refused(LeaseIsBreakingAndCannotBeAcquired)
      else Refused(LeaseAlreadyPresent)
    case _ =>
      if BadDuration(duration) then Refused(InvalidLeaseDuration)
      else NewLeased(LeaseFor(IdFor(proposed, uuid), duration, now), now)
  }

  function BreakingLease(id: Option<string>, breakTime: Option<int>): Lease {
    Lease(id, Some(Breaking), Some(Locked), None, None, None, breakTime)
  }

  function MinDate(a: int, b: int): int {
    if a > b then b else a
  }

  /** A missing expiry would make an invalid date. */
  function EarlierThan(limit: Option<int>, time: int): Option<int> {
    match limit
    case None => None
    case Some(t) => Some(MinDate(t, time))
  }

  function Break(l: Lease, now: int, period: Option<int>): Outcome {
    match l.state
    case Some(Leased) =>
      if l.durationType == Some(Infinite) then
        if period == Some(0) || period.None? then NewBroken(BrokenLease(l.id), now)
        else NewBreaking(BreakingLease(l.id, Some(now + period.value * 1000)), now)
      else if period == Some(0) then NewBroken(BrokenLease(l.id), now)
      else if period.None? then NewBreaking(BreakingLease(l.id, l.expireTime), now)
      else if period.value < 0 || period.value > 60 then Refused(InvalidLeaseBreakPeriod)
      else NewBreaking(BreakingLease(l.id, EarlierThan(l.expireTime, now + period.value * 1000)), now)
    case Some(Breaking) =>
      if period.None? then Ok(l)
      else if period.value == 0 then NewBroken(BrokenLease(l.id), now)
      else if 0 < period.value <= 60 then
        NewBreaking(BreakingLease(l.id, EarlierThan(l.breakTime, now + period.value * 1000)), now)
      else Refused(InvalidLeaseBreakPeriod)
    case Some(Expired) => NewBroken(BrokenLease(l.id), now)
    case Some(Broken) => Ok(l)
    case _ => Refused(LeaseNotPresent)
  }

  function RenewedLease(l: Lease, now: int): Lease {
    Lease(l.id, Some(Leased), Some(Locked), Some(Fixed), l.durationSeconds,
          match l.durationSeconds case None => None case Some(d) => Some(now + d * 1000), None)
  }

  /** An expired lease is renewed whatever id is given. */
  function Renew(l: Lease, now: int, id: string): Outcome {
    match l.state
    case Some(Leased) =>
      if l.id != Some(id) then Refused(LeaseIdMismatch)
      else if l.durationType == Some(Infinite) then Ok(l)
      else NewLeased(RenewedLease(l, now), now)
    case Some(Expired) => NewLeased(RenewedLease(l, now), now)
    case Some(Breaking) =>
      if Some(id) == l.id then Refused(LeaseIsBrokenAndCannotBeRenewed) else Refused(LeaseIdMismatch)
    case Some(Broken) =>
      if Some(id) == l.id then Refused(LeaseIsBrokenAndCannotBeRenewed) else Refused(LeaseIdMismatch)
    case _ => Refused(LeaseIdMismatch)
  }

  function Change(l: Lease, now: int, id: string, proposed: string): Outcome {
    match l.state
    case Some(Leased) =>
      if l.id != Some(id) && l.id != Some(proposed) then Refused(LeaseIdMismatch)
      else NewLeased(Lease(Some(proposed), Some(Leased), Some(Locked), l.durationType, l.durationSeconds, l.expireTime, None), now)
    case Some(Breaking) =>
      if Some(id) == l.id then Refused(LeaseIsBreakingAndCannotBeChanged) else Refused(LeaseIdMismatch)
    case _ => Refused(LeaseNotPresent)
  }

  function Release(l: Lease, id: string): Outcome {
    match l.state
    case None => Refused(LeaseIdMismatch)
    case Some(Available) => Refused(LeaseIdMismatch)
    case _ => if l.id != Some(id) then Refused(LeaseIdMismatch) else NewAvailable(NO_LEASE)
  }

  // ----- Writes -----

  function LowerCase(s: string): string {
    seq(|s|, i requires 0 <= i < |s| => if 'A' <= s[i] <= 'Z' then (s[i] as int + 32) as char else s[i])
  }

  /** BlobWriteLeaseValidator.validate. */
  function Validate(l: Lease, leaseId: Option<string>): Outcome {
    var given := leaseId.Some? && leaseId.value != "";
    if l.status == Some(Locked) then
      if !given then Refused(BlobLeaseIdMissing)
      else if l.id.Some? && LowerCase(leaseId.value) != LowerCase(l.id.value) then Refused(BlobLeaseIdMismatch)
      else Ok(l)
    else if given then Refused(BlobLeaseLost)
    else Ok(l)
  }

  /** What BlobWriteLeaseSyncer stores. */
  function AfterWrite(l: Lease): Lease {
    if l.state == Some(Expired) || l.state == Some(Broken) then NO_LEASE else l
  }

  // ----- One request -----

  datatype Request =
    | AcquireLease(duration: int, proposed: string, uuid: string)
    | BreakLease(period: Option<int>)
    | RenewLease(id: string)
    | ChangeLease(id: string, newId: string)
    | ReleaseLease(id: string)
    | WriteBlob(leaseId: Option<string>)
    | Observe

  /** BlobLeaseAdapter: missing state and status get their defaults. */
  function Adapt(stored: Lease): Lease {
    stored.(state := if stored.state.None? then Some(Available) else stored.state,
            status := if stored.status.None? then Some(Unlocked) else stored.status)
  }

  function Operate(l: Lease, now: int, r: Request): Outcome {
    match r
    case AcquireLease(duration, proposed, uuid) => Acquire(l, now, duration, proposed, uuid)
    case BreakLease(period) => Break(l, now, period)
    case RenewLease(id) => Renew(l, now, id)
    case ChangeLease(id, newId) => Change(l, now, id, newId)
    case ReleaseLease(id) => Release(l, id)
    case WriteBlob(leaseId) => (match Validate(l, leaseId) case Ok(_) => Ok(AfterWrite(l)) case e => e)
    case Observe => Ok(l)
  }

  datatype Response = Response(stored: Lease, outcome: Outcome)

  /** Look the blob up (which ages its lease), build the state, operate, store the result. A
      refused request stores at most the ageing: `keepsAge` says whether the store keeps it. */
  function Handle(stored: Lease, now: int, r: Request, keepsAge: bool): Response {
    match Build(Adapt(stored), now)
    case Ok(aged) =>
      (match Build(Adapt(aged), now)
       case Ok(l) =>
         (match Operate(l, now, r)
          case Ok(next) => Response(if r.Observe? && !keepsAge then stored else next, Ok(next))
          case refusal => Response(if keepsAge then aged else stored, refusal))
       case failure => Response(if keepsAge then aged else stored, failure))
    case failure => Response(stored, failure)
  }
}
