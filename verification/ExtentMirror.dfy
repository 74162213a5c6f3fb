/** The extent collection along a run of the store: it records exactly the sizes the store does. */
module ExtentMirror {
  import opened Options
  import opened Extents
  import opened AppendProtocol
  import opened AppendRuns
  import EL = ExtentListing

  /** The documents and the next key the database hands out. */
  datatype Collection = Collection(rows: seq<EL.Row>, next: nat)

  ghost predicate Mirrors(rows: seq<EL.Row>, sizes: map<ExtentId, nat>) {
    forall id :: EL.SizeOf(rows, id) == if id in sizes then Some(sizes[id]) else None
  }

  /** What an event of the store does to the collection: an append that is recorded updates its
      extent, a deletion removes it. */
  function Follow(c: Collection, s: State, e: Event, time: int): Collection
    requires Enabled(s, e)
  {
    match e
    case Recorded(op) =>
      var id, size := s.jobs[op].phase.id, s.jobs[op].phase.offset + |s.jobs[op].data|;
      Collection(EL.Upsert(c.rows, c.next, id, size, time), c.next + if EL.Find(c.rows, id).None? then 1 else 0)
    case Delete(id) => Collection(EL.Removed(c.rows, id), c.next)
    case _ => c
  }

  function RowsAfter(c: Collection, s: State, es: seq<Event>, times: seq<int>): Collection
    requires CanRun(s, es) && |times| == |es|
    decreases |es|
  {
    if es == [] then c else RowsAfter(Follow(c, s, es[0], times[0]), Step(s, es[0]), es[1..], times[1..])
  }

  lemma FollowMirrors(c: Collection, s: State, e: Event, time: int)
    requires Enabled(s, e) && Mirrors(c.rows, s.sizes)
    ensures Mirrors(Follow(c, s, e, time).rows, Step(s, e).sizes)
  {
    var rows, sizes := Follow(c, s, e, time).rows, Step(s, e).sizes;
    forall id ensures EL.SizeOf(rows, id) == if id in sizes then Some(sizes[id]) else None {
      match e
      case Recorded(op) =>
        EL.UpsertSizes(c.rows, c.next, s.jobs[op].phase.id, s.jobs[op].phase.offset + |s.jobs[op].data|, time, id);
      case Delete(gone) => EL.RemovedSizes(c.rows, gone, id);
      case _ =>
    }
  }

  /** Over every run, with any failures, the collection and the store agree on which extents
      there are and how long they are. */
  lemma {:induction false} RunMirrors(c: Collection, s: State, es: seq<Event>, times: seq<int>)
    requires CanRun(s, es) && |times| == |es| && Mirrors(c.rows, s.sizes)
    ensures Mirrors(RowsAfter(c, s, es, times).rows, RunFrom(s, es).sizes)
    decreases |es|
  {
    if es != [] {
      FollowMirrors(c, s, es[0], times[0]);
      RunMirrors(Follow(c, s, es[0], times[0]), Step(s, es[0]), es[1..], times[1..]);
    }
  }
}
