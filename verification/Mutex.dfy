/** The asynchronous mutex: locks keyed by a string, callbacks queued per key, and hand-over
    through a deferred callback. */
module Mutexes {
  import opened Options

  /** One call of lock. */
  datatype Request = Request(key: string, caller: nat)

  /** `locked` are the keys mapped to LOCKED (unlocking deletes the key), `listeners` the callbacks
      waiting per key, and `immediates` the event loop's queue of deferred hand-overs. */
  datatype State = State(
    locked: set<string>,
    listeners: map<string, seq<nat>>,
    immediates: seq<Request>)

  datatype Event = Lock(r: Request) | Unlock(key: string) | Fire

  const INITIAL := State({}, map[], [])

  function Waiting(s: State, key: string): seq<nat> {
    if key in s.listeners then s.listeners[key] else []
  }

  /** Anyone may lock and unlock; the event loop fires only what was deferred. */
  predicate Enabled(s: State, e: Event) {
    e.Fire? ==> s.immediates != []
  }

  function Step(s: State, e: Event): State
    requires Enabled(s, e)
  {
    match e
    case Lock(r) =>
      if r.key !in s.locked then s.(locked := s.locked + {r.key})
      else s.(listeners := s.listeners[r.key := Waiting(s, r.key) + [r.caller]])
    case Unlock(key) =>
      var left := s.(locked := s.locked - {key});
      if key in s.locked && Waiting(s, key) != [] then
        left.(listeners := s.listeners[key := Waiting(s, key)[1..]],
              immediates := s.immediates + [Request(key, Waiting(s, key)[0])])
      else left
    case Fire =>
      s.(locked := s.locked + {s.immediates[0].key}, immediates := s.immediates[1..])
  }

  /** The call whose promise the event resolves, if any: the lock call itself, or a deferred one. */
  function Resolves(s: State, e: Event): Option<Request>
    requires Enabled(s, e)
  {
    match e
    case Lock(r) => if r.key !in s.locked then Some(r) else None
    case Unlock(_) => None
    case Fire => Some(s.immediates[0])
  }

  class Mutex {
    var keys: set<string>
    var listeners: map<string, seq<nat>>
    var immediates: seq<Request>

    ghost function View(): State
      reads this
    {
      State(keys, listeners, immediates)
    }

    constructor ()
      ensures View() == INITIAL
    {
      keys, listeners, immediates := {}, map[], [];
    }

    /** Resolves at once, or leaves a callback that will resolve later. */
    method Lock(key: string, caller: nat) returns (resolved: bool)
      modifies this
      ensures View() == Step(old(View()), Event.Lock(Request(key, caller)))
      ensures resolved <==> Resolves(old(View()), Event.Lock(Request(key, caller))).Some?
    {
      if key !in keys {
        keys := keys + {key};
        resolved := true;
      } else {
        OnUnlockEvent(key, caller);
        resolved := false;
      }
    }

    method Unlock(key: string)
      modifies this
      ensures View() == Step(old(View()), Event.Unlock(key))
    {
      if key in keys {
        EmitUnlockEvent(key);
      }
      keys := keys - {key};
    }

    /** The event loop runs the oldest deferred handler. */
    method Fire() returns (r: Request)
      requires Enabled(View(), Event.Fire)
      modifies this
      ensures View() == Step(old(View()), Event.Fire)
      ensures Resolves(old(View()), Event.Fire) == Some(r)
    {
      r := immediates[0];
      immediates := immediates[1..];
      keys := keys + {r.key};
    }

    method OnUnlockEvent(key: string, caller: nat)
      modifies this`listeners
      ensures listeners == old(listeners)[key := Waiting(old(View()), key) + [caller]]
    {
      if key !in listeners {
        assert Waiting(View(), key) + [caller] == [caller];
        listeners := listeners[key := [caller]];
      } else {
        listeners := listeners[key := listeners[key] + [caller]];
      }
    }

    method EmitUnlockEvent(key: string)
      modifies this`listeners, this`immediates
      ensures Waiting(old(View()), key) == [] ==> listeners == old(listeners) && immediates == old(immediates)
      ensures Waiting(old(View()), key) != [] ==>
        && listeners == old(listeners)[key := Waiting(old(View()), key)[1..]]
        && immediates == old(immediates) + [Request(key, Waiting(old(View()), key)[0])]
    {
      if key in listeners && |listeners[key]| > 0 {
        var handler := listeners[key][0];
        listeners := listeners[key := listeners[key][1..]];
        immediates := immediates + [Request(key, handler)];
      }
    }
  }
}
