/** The lease fields of a stored blob, and the code that reads and assigns them in place. */
module LeaseStore {
  import opened Options
  import opened Leases
  import opened LeaseLaws

  class BlobDoc {
    var leaseId: Option<string>
    var leaseExpireTime: Option<int>
    var leaseDurationSeconds: Option<int>
    var leaseBreakTime: Option<int>
    var leaseDuration: Option<DurationType>
    var leaseState: Option<LeaseState>
    var leaseStatus: Option<LeaseStatus>

    constructor ()
      ensures Stored() == Lease(None, None, None, None, None, None, None)
      ensures Adapt(Stored()) == NO_LEASE && WellFormed(Adapt(Stored()))
    {
      leaseId, leaseExpireTime, leaseDurationSeconds, leaseBreakTime := None, None, None, None;
      leaseDuration, leaseState, leaseStatus := None, None, None;
    }

    ghost function Stored(): Lease
      reads this
    {
      Lease(leaseId, leaseState, leaseStatus, leaseDuration, leaseDurationSeconds, leaseExpireTime, leaseBreakTime)
    }
  }

  /** BlobLeaseAdapter: fills missing properties on the blob itself, then copies. */
  method AdaptBlob(blob: BlobDoc) returns (lease: Lease)
    modifies blob
    ensures blob.Stored() == Adapt(old(blob.Stored())) && lease == blob.Stored()
  {
    if blob.leaseState.None? {
      blob.leaseState := Some(Available);
    }
    if blob.leaseStatus.None? {
      blob.leaseStatus := Some(Unlocked);
    }
    lease := Lease(blob.leaseId, blob.leaseState, blob.leaseStatus, blob.leaseDuration,
                   blob.leaseDurationSeconds, blob.leaseExpireTime, blob.leaseBreakTime);
  }

  /** BlobLeaseSyncer. */
  method SyncLease(blob: BlobDoc, lease: Lease)
    modifies blob
    ensures blob.Stored() == lease
  {
    blob.leaseId := lease.id;
    blob.leaseExpireTime := lease.expireTime;
    blob.leaseDurationSeconds := lease.durationSeconds;
    blob.leaseBreakTime := lease.breakTime;
    blob.leaseDuration := lease.durationType;
    blob.leaseState := lease.state;
    blob.leaseStatus := lease.status;
  }

  /** BlobWriteLeaseSyncer: a write resets a lease that has run out. */
  method SyncWrite(blob: BlobDoc, lease: Lease)
    modifies blob
    ensures blob.Stored() == AfterWrite(lease)
  {
    SyncLease(blob, lease);
    if lease.state == Some(Expired) || lease.state == Some(Broken) {
      blob.leaseState := Some(Available);
      blob.leaseStatus := Some(Unlocked);
      blob.leaseDuration := None;
      blob.leaseDurationSeconds := None;
      blob.leaseId := None;
      blob.leaseExpireTime := None;
      blob.leaseBreakTime := None;
    }
  }

  /** A lease or write request on a document that lives in memory: the lookup already stores
      the aged lease, so a refused request leaves that much behind. */
  method HandleRequest(blob: BlobDoc, now: int, r: Request) returns (outcome: Outcome)
    requires WellFormed(Adapt(blob.Stored()))
    modifies blob
    ensures blob.Stored() == Handle(Adapt(old(blob.Stored())), now, r, true).stored
    ensures outcome == Handle(Adapt(old(blob.Stored())), now, r, true).outcome
    ensures WellFormed(blob.Stored())
  {
    ghost var before := Adapt(blob.Stored());
    BuildWellFormed(before, now);
    HandleWellFormed(before, now, r, true);
    AgeingIsConfluent(before, now, now);
    // getBlobWithLeaseUpdated
    var found := AdaptBlob(blob);
    var state := Build(found, now);
    SyncLease(blob, state.lease);
    BuildWellFormed(blob.Stored(), now);
    var lease := AdaptBlob(blob);
    match r
    case WriteBlob(leaseId) =>
      outcome := Validate(lease, leaseId);
      if outcome.Ok? {
        SyncWrite(blob, lease);
        outcome := Ok(AfterWrite(lease));
      }
    case _ =>
      state := Build(lease, now);
      outcome := Operate(state.lease, now, r);
      if outcome.Ok? {
        SyncLease(blob, outcome.lease);
      }
  }
}
