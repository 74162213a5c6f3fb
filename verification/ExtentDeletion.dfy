/** What deleting a list of extents does to the store. */
module ExtentDeletion {
  import opened Extents
  import opened AppendProtocol

  /** How unlinking the file ends. A missing file still drops the metadata; any other error keeps it. */
  datatype UnlinkResult = Unlinked | NoSuchFile | OtherError

  /** Asking for the location of an id without metadata throws. */
  datatype Outcome = Counted(count: nat) | MetadataMissing

  datatype Deletion = Deletion(state: State, outcome: Outcome)

  function DeleteAll(s: State, ids: seq<ExtentId>, unlink: ExtentId -> UnlinkResult): (d: Deletion)
    ensures d.state.slots == s.slots && d.state.jobs == s.jobs
    decreases |ids|
  {
    if ids == [] then Deletion(s, Counted(0))
    else if IsActiveExtent(s.slots, ids[0]) then DeleteAll(s, ids[1..], unlink)
    else if ids[0] !in s.sizes then Deletion(s, MetadataMissing)
    else
      var next := if unlink(ids[0]).OtherError? then s else Step(s, Delete(ids[0]));
      var rest := DeleteAll(next, ids[1..], unlink);
      if rest.outcome.Counted? then rest.(outcome := Counted(rest.outcome.count + 1)) else rest
  }

  ghost predicate Distinct(ids: seq<ExtentId>) {
    forall i, j :: 0 <= i < j < |ids| ==> ids[i] != ids[j]
  }

  ghost predicate AllRecorded(s: State, ids: seq<ExtentId>) {
    forall i :: 0 <= i < |ids| ==> IsActiveExtent(s.slots, ids[i]) || ids[i] in s.sizes
  }

  predicate Dies(s: State, id: ExtentId, unlink: ExtentId -> UnlinkResult) {
    !IsActiveExtent(s.slots, id) && !unlink(id).OtherError?
  }

  /** The extents among the ids that are inactive and whose unlinking did not fail. */
  ghost function Dead(s: State, ids: seq<ExtentId>, unlink: ExtentId -> UnlinkResult): set<ExtentId> {
    set id | id in ids && Dies(s, id, unlink)
  }

  function AfterFirst(s: State, ids: seq<ExtentId>, unlink: ExtentId -> UnlinkResult): State
    requires ids != []
  {
    if Dies(s, ids[0], unlink) then Step(s, Delete(ids[0])) else s
  }

  /** The first deletion leaves the other ids distinct, recorded, and as dead or alive as before. */
  lemma FirstDeletion(s: State, ids: seq<ExtentId>, unlink: ExtentId -> UnlinkResult)
    requires ids != [] && Distinct(ids) && AllRecorded(s, ids)
    ensures var next := AfterFirst(s, ids, unlink);
      && Distinct(ids[1..]) && AllRecorded(next, ids[1..])
      && Dead(next, ids[1..], unlink) == Dead(s, ids[1..], unlink)
      && DeleteAll(s, ids, unlink).state == DeleteAll(next, ids[1..], unlink).state
    ensures Dead(s, ids, unlink) == (if Dies(s, ids[0], unlink) then {ids[0]} else {}) + Dead(s, ids[1..], unlink)
    ensures ids[0] !in Dead(s, ids[1..], unlink)
  {
    var next, rest := AfterFirst(s, ids, unlink), ids[1..];
    assert ids == [ids[0]] + rest;
    forall i | 0 <= i < |rest| ensures rest[i] != ids[0] && (IsActiveExtent(next.slots, rest[i]) || rest[i] in next.sizes) {
      assert rest[i] == ids[i + 1];
    }
  }

  /** Deleting distinct, recorded ids removes exactly the dead ones, files and metadata alike. */
  lemma {:induction false} DeletesExactly(s: State, ids: seq<ExtentId>, unlink: ExtentId -> UnlinkResult)
    requires Distinct(ids) && AllRecorded(s, ids)
    ensures DeleteAll(s, ids, unlink).state.files == s.files - Dead(s, ids, unlink)
    ensures DeleteAll(s, ids, unlink).state.sizes == s.sizes - Dead(s, ids, unlink)
    decreases |ids|
  {
    if ids == [] {
      assert Dead(s, ids, unlink) == {};
    } else {
      FirstDeletion(s, ids, unlink);
      DeletesExactly(AfterFirst(s, ids, unlink), ids[1..], unlink);
    }
  }

  /** The i-th id has no metadata when its turn comes: it had none, or an earlier occurrence of the
      id was deleted. */
  ghost predicate Misses(s: State, ids: seq<ExtentId>, unlink: ExtentId -> UnlinkResult, i: nat)
    requires i < |ids|
  {
    && !IsActiveExtent(s.slots, ids[i])
    && (ids[i] !in s.sizes || exists j :: 0 <= j < i && ids[j] == ids[i] && Dies(s, ids[j], unlink))
  }

  lemma MissesShift(s: State, ids: seq<ExtentId>, unlink: ExtentId -> UnlinkResult, i: nat)
    requires i + 1 < |ids| && !Misses(s, ids, unlink, 0)
    ensures Misses(s, ids, unlink, i + 1) <==> Misses(AfterFirst(s, ids, unlink), ids[1..], unlink, i)
  {
    var next, rest := AfterFirst(s, ids, unlink), ids[1..];
    assert next.slots == s.slots;
    if j :| 0 <= j < i + 1 && ids[j] == ids[i + 1] && Dies(s, ids[j], unlink) {
      if j > 0 {
        assert rest[j - 1] == rest[i] && Dies(next, rest[j - 1], unlink);
      }
    }
    if j :| 0 <= j < i && rest[j] == rest[i] && Dies(next, rest[j], unlink) {
      assert ids[j + 1] == ids[i + 1] && Dies(s, ids[j + 1], unlink);
    }
  }

  /** Any list of ids, with repetitions and unknown ones: the deletion stops with an error exactly
      at the first id that then has no metadata, and by then has removed exactly the dead among
      the ids before it, files and metadata alike. */
  lemma {:induction false} StopsAtTheFirstMissing(s: State, ids: seq<ExtentId>, unlink: ExtentId -> UnlinkResult, k: nat)
    requires k <= |ids| && (forall i :: 0 <= i < k ==> !Misses(s, ids, unlink, i))
    requires k < |ids| ==> Misses(s, ids, unlink, k)
    ensures DeleteAll(s, ids, unlink).outcome.MetadataMissing? <==> k < |ids|
    ensures DeleteAll(s, ids, unlink).state.files == s.files - Dead(s, ids[..k], unlink)
    ensures DeleteAll(s, ids, unlink).state.sizes == s.sizes - Dead(s, ids[..k], unlink)
    decreases |ids|
  {
    hide Dead;
    if k == 0 {
      NoneDead(s, unlink);
      assert ids[..k] == [];
    } else {
      hide Misses;
      var next, rest := AfterFirst(s, ids, unlink), ids[1..];
      FirstGoesOn(s, ids, unlink);
      forall i | 0 <= i < k - 1 ensures !Misses(next, rest, unlink, i) {
        MissesShift(s, ids, unlink, i);
      }
      if k < |ids| {
        MissesShift(s, ids, unlink, k - 1);
      }
      StopsAtTheFirstMissing(next, rest, unlink, k - 1);
      DeadSplits(s, ids, unlink, k);
      hide DeleteAll, Dies;
    }
  }

  lemma NoneDead(s: State, unlink: ExtentId -> UnlinkResult)
    ensures Dead(s, [], unlink) == {}
  {
  }

  lemma FirstGoesOn(s: State, ids: seq<ExtentId>, unlink: ExtentId -> UnlinkResult)
    requires ids != [] && !Misses(s, ids, unlink, 0)
    ensures var next := AfterFirst(s, ids, unlink);
      var whole, rest := DeleteAll(s, ids, unlink), DeleteAll(next, ids[1..], unlink);
      && whole.state == rest.state && (whole.outcome.MetadataMissing? <==> rest.outcome.MetadataMissing?)
      && next.files == s.files - (if Dies(s, ids[0], unlink) then {ids[0]} else {})
      && next.sizes == s.sizes - (if Dies(s, ids[0], unlink) then {ids[0]} else {})
  {
  }

  lemma DeadSplits(s: State, ids: seq<ExtentId>, unlink: ExtentId -> UnlinkResult, k: nat)
    requires 0 < k <= |ids|
    ensures var next := AfterFirst(s, ids, unlink);
      Dead(s, ids[..k], unlink) == (if Dies(s, ids[0], unlink) then {ids[0]} else {}) + Dead(next, ids[1..][..k - 1], unlink)
  {
    assert ids[..k] == [ids[0]] + ids[1..][..k - 1];
  }

  /** The returned number counts the files that could not be unlinked as well: it is the number
      of extents deleted if and only if no unlinking failed. */
  lemma {:induction false} CountIsTheDeleted(s: State, ids: seq<ExtentId>, unlink: ExtentId -> UnlinkResult)
    requires Distinct(ids) && AllRecorded(s, ids)
    ensures DeleteAll(s, ids, unlink).outcome.Counted?
    ensures DeleteAll(s, ids, unlink).outcome.count >= |Dead(s, ids, unlink)|
    ensures DeleteAll(s, ids, unlink).outcome.count == |Dead(s, ids, unlink)|
      <==> forall id :: id in ids && !IsActiveExtent(s.slots, id) ==> !unlink(id).OtherError?
    decreases |ids|
  {
    if ids == [] {
      assert Dead(s, ids, unlink) == {};
    } else {
      FirstDeletion(s, ids, unlink);
      CountIsTheDeleted(AfterFirst(s, ids, unlink), ids[1..], unlink);
      assert forall id :: id in ids <==> id == ids[0] || id in ids[1..];
    }
  }

  /** Deletion is a run of the protocol's own delete steps, so its invariant stays. */
  lemma {:induction false} DeletionInv(s: State, ids: seq<ExtentId>, unlink: ExtentId -> UnlinkResult)
    requires Inv(s)
    ensures Inv(DeleteAll(s, ids, unlink).state)
    decreases |ids|
  {
    if ids != [] {
      if !IsActiveExtent(s.slots, ids[0]) && ids[0] in s.sizes && !unlink(ids[0]).OtherError? {
        DeleteInv(s, ids[0]);
        DeletionInv(Step(s, Delete(ids[0])), ids[1..], unlink);
      } else {
        DeletionInv(s, ids[1..], unlink);
      }
    }
  }
}
