/** Order, progress and exclusion of the mutex over whole runs. */
module MutexLaws {
  import opened Options
  import opened Mutexes

  /** What somebody sees who watches the calls and which promises resolve, and does not know the
      mutex: how many callers hold each key, who called and was not resolved at once, and whom
      the event loop resolved. */
  datatype Seen = Seen(held: map<string, nat>, queued: seq<Request>, served: seq<Request>)

  /** Callers left holding a key after an unlock, which is taken to come from one of them if there
      is any. */
  function Fewer(held: nat): nat {
    if held == 0 then 0 else held - 1
  }

  function HeldIn(seen: Seen, key: string): nat {
    if key in seen.held then seen.held[key] else 0
  }

  function Watch(seen: Seen, e: Event, resolved: Option<Request>): Seen {
    match e
    case Unlock(key) => seen.(held := seen.held[key := Fewer(HeldIn(seen, key))])
    case Lock(r) =>
      if resolved == Some(r) then seen.(held := seen.held[r.key := HeldIn(seen, r.key) + 1])
      else seen.(queued := seen.queued + [r])
    case Fire =>
      if resolved.None? then seen
      else
        var r := resolved.value;
        seen.(held := seen.held[r.key := HeldIn(seen, r.key) + 1], served := seen.served + [r])
  }

  /** The mutex with somebody watching it. */
  datatype World = World(mutex: State, seen: Seen)

  const START := World(INITIAL, Seen(map[], [], []))

  function Next(s: World, e: Event): World
    requires Enabled(s.mutex, e)
  {
    World(Step(s.mutex, e), Watch(s.seen, e, Resolves(s.mutex, e)))
  }

  function Held(s: World, key: string): nat {
    HeldIn(s.seen, key)
  }

  function Queue(s: World, key: string): seq<nat> {
    Waiting(s.mutex, key)
  }

  /** The callers of the requests for one key, in order. */
  function For(key: string, rs: seq<Request>): seq<nat> {
    if rs == [] then []
    else (if rs[0].key == key then [rs[0].caller] else []) + For(key, rs[1..])
  }

  lemma {:induction false} ForAppend(key: string, a: seq<Request>, b: seq<Request>)
    ensures For(key, a + b) == For(key, a) + For(key, b)
    decreases |a|
  {
    if a == [] {
      assert a + b == b;
    } else {
      assert (a + b)[1..] == a[1..] + b;
      ForAppend(key, a[1..], b);
      var first := if a[0].key == key then [a[0].caller] else [];
      assert first + (For(key, a[1..]) + For(key, b)) == (first + For(key, a[1..])) + For(key, b);
    }
  }

  lemma ForOne(key: string, rs: seq<Request>, r: Request)
    ensures For(key, rs + [r]) == For(key, rs) + if r.key == key then [r.caller] else []
  {
    ForAppend(key, rs, [r]);
    assert [r][1..] == [];
  }

  function Pending(s: World, key: string): seq<nat> {
    For(key, s.mutex.immediates)
  }

  /** The waiters of a key, split in order into the resolved, the deferred and the waiting. */
  ghost predicate InOrder(s: World, key: string) {
    For(key, s.seen.served) + Pending(s, key) + Queue(s, key) == For(key, s.seen.queued)
  }

  /** Whoever waits is waiting for a holder or for a pending hand-over. */
  ghost predicate Inv(s: World, key: string) {
    && InOrder(s, key)
    && (key in s.mutex.locked ==> Held(s, key) > 0)
    && (Queue(s, key) != [] ==> key in s.mutex.locked || Pending(s, key) != [])
  }

  function About(s: World, e: Event): string
    requires Enabled(s.mutex, e)
  {
    match e
    case Lock(r) => r.key
    case Unlock(key) => key
    case Fire => s.mutex.immediates[0].key
  }

  /** What one event does to each key: the part of the queue it moves from one stage to the next. */
  lemma StepProjects(s: World, e: Event, key: string)
    requires Enabled(s.mutex, e)
    ensures About(s, e) != key ==>
      && Pending(Next(s, e), key) == Pending(s, key)
      && For(key, Next(s, e).seen.served) == For(key, s.seen.served)
      && For(key, Next(s, e).seen.queued) == For(key, s.seen.queued)
    ensures e.Lock? && About(s, e) == key ==>
      For(key, Next(s, e).seen.queued) == For(key, s.seen.queued) + if key in s.mutex.locked then [e.r.caller] else []
    ensures e.Unlock? && About(s, e) == key ==>
      Pending(Next(s, e), key) == Pending(s, key)
        + if key in s.mutex.locked && Queue(s, key) != [] then Queue(s, key)[..1] else []
    ensures e.Fire? && About(s, e) == key ==>
      && [s.mutex.immediates[0].caller] + Pending(Next(s, e), key) == Pending(s, key)
      && For(key, Next(s, e).seen.served) == For(key, s.seen.served) + [s.mutex.immediates[0].caller]
  {
    match e
    case Lock(r) => ForOne(key, s.seen.queued, r);
    case Unlock(k) => if Queue(s, k) != [] { ForOne(key, s.mutex.immediates, Request(k, Queue(s, k)[0])); }
    case Fire => ForOne(key, s.seen.served, s.mutex.immediates[0]);
  }

  lemma Regroup(a: seq<nat>, b: seq<nat>, c: seq<nat>, d: seq<nat>)
    ensures a + (b + c) + d == a + b + (c + d)
    ensures (a + b) + c + d == a + (b + c) + d
    ensures a + b + (c + d) == (a + b + c) + d
  {
  }

  lemma StepInOrder(s: World, e: Event, key: string)
    requires Enabled(s.mutex, e) && InOrder(s, key)
    ensures InOrder(Next(s, e), key)
  {
    StepProjects(s, e, key);
    var served, pending, waiting := For(key, s.seen.served), Pending(s, key), Queue(s, key);
    if About(s, e) != key {
      assert Queue(Next(s, e), key) == waiting;
    } else {
      match e
      case Lock(r) =>
        Regroup(served, pending, waiting, [r.caller]);
      case Unlock(_) =>
        if key in s.mutex.locked && waiting != [] {
          Regroup(served, pending, waiting[..1], waiting[1..]);
          assert waiting == waiting[..1] + waiting[1..];
        }
      case Fire =>
        Regroup(served, [s.mutex.immediates[0].caller], Pending(Next(s, e), key), waiting);
    }
  }

  lemma StepInv(s: World, e: Event, key: string)
    requires Enabled(s.mutex, e) && Inv(s, key)
    ensures Inv(Next(s, e), key)
  {
    StepInOrder(s, e, key);
    StepProjects(s, e, key);
  }

  predicate CanRun(s: World, es: seq<Event>)
    decreases |es|
  {
    es == [] || (Enabled(s.mutex, es[0]) && CanRun(Next(s, es[0]), es[1..]))
  }

  function Run(s: World, es: seq<Event>): World
    requires CanRun(s, es)
    decreases |es|
  {
    if es == [] then s else Run(Next(s, es[0]), es[1..])
  }

  lemma {:induction false} RunInv(s: World, es: seq<Event>, key: string)
    requires CanRun(s, es) && Inv(s, key)
    ensures Inv(Run(s, es), key)
    decreases |es|
  {
    if es != [] {
      StepInv(s, es[0], key);
      RunInv(Next(s, es[0]), es[1..], key);
    }
  }

  /** Over every run, with any interleaving of keys and any barging, the waiters resolved so far
      are the first ones that queued, each once and in arrival order; and waiters left behind
      imply somebody who will wake the next one. */
  lemma WaitersServedInOrder(es: seq<Event>, key: string)
    requires CanRun(START, es)
    ensures For(key, Run(START, es).seen.served) <= For(key, Run(START, es).seen.queued)
    ensures Queue(Run(START, es), key) != [] ==>
      Held(Run(START, es), key) > 0 || Pending(Run(START, es), key) != []
  {
    RunInv(START, es, key);
    var s := Run(START, es);
    assert For(key, s.seen.queued) == For(key, s.seen.served) + (Pending(s, key) + Queue(s, key));
  }

  /** A waiter still has a hand-over, a firing and an unlock ahead; a deferred one a firing and an
      unlock; a holder an unlock. */
  function Measure(s: World, key: string): nat {
    3 * |Queue(s, key)| + 2 * |Pending(s, key)| + Held(s, key)
  }

  predicate NoLocks(es: seq<Event>) {
    forall i :: 0 <= i < |es| ==> !es[i].Lock?
  }

  /** An unlock by a holder, or a firing: the work that is left once lock calls stop. */
  predicate Works(s: World, e: Event)
    requires Enabled(s.mutex, e)
  {
    e.Fire? || (e.Unlock? && Held(s, e.key) > 0)
  }

  function Steps(s: World, es: seq<Event>, key: string): nat
    requires CanRun(s, es)
    decreases |es|
  {
    if es == [] then 0
    else (if About(s, es[0]) == key && Works(s, es[0]) then 1 else 0) + Steps(Next(s, es[0]), es[1..], key)
  }

  /** Each firing and each unlock by a holder brings its own key at least one step closer to
      silence, and an unlock without a holder does nothing. */
  lemma StepDescends(s: World, e: Event, key: string)
    requires Enabled(s.mutex, e) && !e.Lock? && Inv(s, key)
    ensures Measure(Next(s, e), key) + (if About(s, e) == key && Works(s, e) then 1 else 0) <= Measure(s, key)
  {
    StepProjects(s, e, key);
  }

  lemma {:induction false} RunDescends(s: World, es: seq<Event>, key: string)
    requires CanRun(s, es) && NoLocks(es) && Inv(s, key)
    ensures Steps(s, es, key) + Measure(Run(s, es), key) <= Measure(s, key)
    decreases |es|
  {
    if es != [] {
      StepDescends(s, es[0], key);
      StepInv(s, es[0], key);
      RunDescends(Next(s, es[0]), es[1..], key);
    }
  }

  /** Nothing is left for a holder or for the event loop to do. */
  ghost predicate Quiet(s: World) {
    s.mutex.immediates == [] && forall key :: Held(s, key) == 0
  }

  /** After any history, once lock calls stop, no schedule of unlocks and firings can spend more
      than the measure's steps on a key, and when none is left to take every waiter of the key
      has been resolved. */
  lemma EveryWaiterIsServed(history: seq<Event>, es: seq<Event>, key: string)
    requires CanRun(START, history) && CanRun(Run(START, history), es) && NoLocks(es)
    ensures Steps(Run(START, history), es, key) <= Measure(Run(START, history), key)
    ensures Quiet(Run(Run(START, history), es)) ==>
      For(key, Run(Run(START, history), es).seen.served) == For(key, Run(Run(START, history), es).seen.queued)
  {
    var s := Run(START, history);
    RunInv(START, history, key);
    RunDescends(s, es, key);
    RunInv(s, es, key);
  }

  /** Callers that hold the key, or will as soon as the event loop gets to them. */
  function Grants(s: World, key: string): nat {
    Held(s, key) + |Pending(s, key)|
  }

  /** At most one caller holds the key, and the key is locked exactly while one does. */
  ghost predicate Exclusive(s: World, key: string) {
    Held(s, key) <= 1 && (Held(s, key) == 1 <==> key in s.mutex.locked)
  }

  /** A deferred callback runs while its key is locked: it does not look. */
  predicate FiresLocked(s: World, e: Event, key: string)
    requires Enabled(s.mutex, e)
  {
    e.Fire? && s.mutex.immediates[0].key == key && key in s.mutex.locked
  }

  lemma ExclusiveStep(s: World, e: Event, key: string)
    requires Enabled(s.mutex, e) && Exclusive(s, key)
    ensures !FiresLocked(s, e, key) ==> Exclusive(Next(s, e), key)
    ensures FiresLocked(s, e, key) ==> Held(Next(s, e), key) == 2
  {
  }

  predicate NeverFiresLocked(s: World, es: seq<Event>, key: string)
    requires CanRun(s, es)
    decreases |es|
  {
    es == [] || (!FiresLocked(s, es[0], key) && NeverFiresLocked(Next(s, es[0]), es[1..], key))
  }

  /** At every moment at most one caller holds the key. */
  predicate OneHolder(s: World, es: seq<Event>, key: string)
    requires CanRun(s, es)
    decreases |es|
  {
    Held(s, key) <= 1 && (es == [] || OneHolder(Next(s, es[0]), es[1..], key))
  }

  lemma {:induction false} ExclusiveFrom(s: World, es: seq<Event>, key: string)
    requires CanRun(s, es) && Exclusive(s, key)
    ensures OneHolder(s, es, key) <==> NeverFiresLocked(s, es, key)
    decreases |es|
  {
    if es != [] {
      ExclusiveStep(s, es[0], key);
      if !FiresLocked(s, es[0], key) {
        ExclusiveFrom(Next(s, es[0]), es[1..], key);
      }
    }
  }

  /** Mutual exclusion, exactly: a key has at most one holder throughout a run if and only if no
      deferred callback of the key fires while the key is locked. */
  lemma ExclusionExactly(es: seq<Event>, key: string)
    requires CanRun(START, es)
    ensures OneHolder(START, es, key) <==> NeverFiresLocked(START, es, key)
  {
    ExclusiveFrom(START, es, key);
  }

  // ----- Counting the hand-overs on their way -----

  ghost predicate GrantedToOne(s: World, key: string) {
    Grants(s, key) <= 1 && (Held(s, key) == 1 <==> key in s.mutex.locked)
  }

  /** A lock call for a key whose hand-over is pending: the key reads as free. */
  predicate Barges(s: World, e: Event, key: string) {
    e.Lock? && e.r.key == key && Pending(s, key) != []
  }

  lemma GrantedStep(s: World, e: Event, key: string)
    requires Enabled(s.mutex, e) && GrantedToOne(s, key)
    ensures !Barges(s, e, key) ==> GrantedToOne(Next(s, e), key)
    ensures Barges(s, e, key) ==> Grants(Next(s, e), key) == 2
    ensures !FiresLocked(s, e, key)
  {
    StepProjects(s, e, key);
    if e.Fire? && s.mutex.immediates[0].key == key {
      assert Pending(s, key) != [];
    }
  }

  predicate NoBarging(s: World, es: seq<Event>, key: string)
    requires CanRun(s, es)
    decreases |es|
  {
    es == [] || (!Barges(s, es[0], key) && NoBarging(Next(s, es[0]), es[1..], key))
  }

  /** At every moment the key was given to at most one caller, hand-overs on their way included. */
  predicate OneAtATime(s: World, es: seq<Event>, key: string)
    requires CanRun(s, es)
    decreases |es|
  {
    Grants(s, key) <= 1 && (es == [] || OneAtATime(Next(s, es[0]), es[1..], key))
  }

  lemma {:induction false} GrantedFrom(s: World, es: seq<Event>, key: string)
    requires CanRun(s, es) && GrantedToOne(s, key)
    ensures OneAtATime(s, es, key) <==> NoBarging(s, es, key)
    ensures NoBarging(s, es, key) ==> NeverFiresLocked(s, es, key)
    decreases |es|
  {
    if es != [] {
      GrantedStep(s, es[0], key);
      if !Barges(s, es[0], key) {
        GrantedFrom(Next(s, es[0]), es[1..], key);
      }
    }
  }

  /** No lock call between an unlock that hands over and the deferred firing: that is exactly when
      the key is never granted twice at a time, and it is enough for mutual exclusion. */
  lemma NoBargingSuffices(es: seq<Event>, key: string)
    requires CanRun(START, es)
    ensures OneAtATime(START, es, key) <==> NoBarging(START, es, key)
    ensures NoBarging(START, es, key) ==> OneHolder(START, es, key)
  {
    GrantedFrom(START, es, key);
    ExclusionExactly(es, key);
  }

  /** The family that fails: whoever locks a key handed over but not yet fired, the event loop
      then lets the waiter in as well, and both hold it. */
  lemma BargingLetsTwoIn(s: World, caller: nat, key: string)
    requires GrantedToOne(s, key) && s.mutex.immediates != [] && s.mutex.immediates[0].key == key
    ensures Held(Next(Next(s, Lock(Request(key, caller))), Fire), key) == 2
  {
    StepProjects(s, Lock(Request(key, caller)), key);
    assert Pending(s, key) != [];
  }

  /** A concrete run: lock, lock by a waiter, unlock, a third lock, then the deferred firing. */
  lemma TwoHolders()
    ensures var es := [Lock(Request("blob", 0)), Lock(Request("blob", 1)), Unlock("blob"), Lock(Request("blob", 2)), Fire];
      CanRun(START, es) && Held(Run(START, es), "blob") == 2
  {
    var es := [Lock(Request("blob", 0)), Lock(Request("blob", 1)), Unlock("blob"), Lock(Request("blob", 2)), Fire];
    var s1 := Next(START, es[0]);
    var s2 := Next(s1, es[1]);
    var s3 := Next(s2, es[2]);
    assert s3.mutex.immediates == [Request("blob", 1)] && "blob" !in s3.mutex.locked;
    var s4 := Next(s3, es[3]);
    var s5 := Next(s4, es[4]);
    assert es[1..] == [es[1], es[2], es[3], es[4]];
    assert es[1..][1..] == [es[2], es[3], es[4]];
    assert es[1..][1..][1..] == [es[3], es[4]];
    assert es[1..][1..][1..][1..] == [es[4]];
    assert es[1..][1..][1..][1..][1..] == [];
    assert CanRun(s5, []) && Run(s5, []) == s5;
    assert CanRun(s4, [es[4]]) && Run(s4, [es[4]]) == s5;
    assert CanRun(s3, [es[3], es[4]]) && Run(s3, [es[3], es[4]]) == s5;
    assert CanRun(s2, [es[2], es[3], es[4]]) && Run(s2, [es[2], es[3], es[4]]) == s5;
    assert CanRun(s1, es[1..]) && Run(s1, es[1..]) == s5;
  }
}
