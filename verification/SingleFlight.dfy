/** Concurrent read-through calls with one call in flight per key
    (`cache/single_flight.py` and `ResponseCache.through` in `cache/store.py`).

    Callers take their steps in any order. The backend may lose an entry, hold
    one that cannot be read, or fail at any moment; a loader may answer, raise or
    be cancelled; a waiter may give up. A value is what decoding gives back for
    what encoding stored. */
module SingleFlight {
  import opened Wrappers

  type Key = string
  type Caller = nat
  type Value = nat

  datatype Payload = Encoded(value: Value) | Unreadable

  datatype Outcome = Ok(value: Value) | Failed

  /** Where a caller's outcome came from. */
  datatype Origin = FromStore | FromLoader | FromInflight(leader: Caller) | GivenUp

  datatype Phase =
    | Reading
    | Leading
    | Storing(value: Value)
    | Waiting(leader: Caller)
    | Done(outcome: Outcome, origin: Origin)

  datatype Call = Call(key: Key, cacheable: bool, phase: Phase)

  /** `loaded` is a record, for the proof, of what loaders have returned. */
  datatype World = World(
    backend: map<Key, Payload>,
    inflight: map<Key, Caller>,
    futures: map<Caller, Outcome>,
    calls: map<Caller, Call>,
    loaded: set<(Key, Value)>)

  const IDLE := World(map[], map[], map[], map[], {})

  datatype Event =
    | Begin(caller: Caller, key: Key, cacheable: bool)
    | Read(caller: Caller, answered: bool)
    | Loaded(caller: Caller, value: Value)
    | Stored(caller: Caller, kept: bool)
    | Raised(caller: Caller)
    | Woken(caller: Caller)
    | GaveUp(caller: Caller)
    | Remembered(key: Key, value: Value)
    | Lost(key: Key)
    | Corrupted(key: Key)

  function InPhase(w: World, caller: Caller, phase: Phase): World
    requires caller in w.calls
  {
    w.(calls := w.calls[caller := w.calls[caller].(phase := phase)])
  }

  /** `SingleFlight.run`, up to its first wait: join the call in flight for the
      key, or become it. */
  function Enter(w: World, caller: Caller): World
    requires caller in w.calls
  {
    var key := w.calls[caller].key;
    if key in w.inflight then InPhase(w, caller, Waiting(w.inflight[key]))
    else InPhase(w, caller, Leading).(inflight := w.inflight[key := caller])
  }

  /** The leader is through: its future is resolved, and the key is free. */
  function Finish(w: World, caller: Caller, outcome: Outcome): World
    requires caller in w.calls
  {
    InPhase(w, caller, Done(outcome, FromLoader)).(
      futures := w.futures[caller := outcome],
      inflight := w.inflight - {w.calls[caller].key})
  }

  predicate Is(w: World, caller: Caller, phase: Phase) {
    caller in w.calls && w.calls[caller].phase == phase
  }

  predicate IsStoring(w: World, caller: Caller) {
    caller in w.calls && w.calls[caller].phase.Storing?
  }

  predicate IsWaiting(w: World, caller: Caller) {
    caller in w.calls && w.calls[caller].phase.Waiting?
  }

  /** A caller that has registered its call for a key and not finished it. */
  predicate Leads(w: World, caller: Caller) {
    Is(w, caller, Leading) || IsStoring(w, caller)
  }

  function AfterRead(w: World, caller: Caller, answered: bool): World
    requires caller in w.calls
  {
    var key := w.calls[caller].key;
    if answered && key in w.backend then
      match w.backend[key]
      case Encoded(value) => InPhase(w, caller, Done(Ok(value), FromStore))
      case Unreadable => Enter(w.(backend := w.backend - {key}), caller)
    else Enter(w, caller)
  }

  function AfterLoad(w: World, caller: Caller, value: Value): World
    requires caller in w.calls
  {
    var call := w.calls[caller];
    var w' := w.(loaded := w.loaded + {(call.key, value)});
    if call.cacheable then InPhase(w', caller, Storing(value)) else Finish(w', caller, Ok(value))
  }

  function AfterStore(w: World, caller: Caller, kept: bool): World
    requires IsStoring(w, caller)
  {
    var call := w.calls[caller];
    var w' := if kept then w.(backend := w.backend[call.key := Encoded(call.phase.value)]) else w;
    Finish(w', caller, Ok(call.phase.value))
  }

  /** One step of one caller, or of the backend. An event that cannot happen
      changes nothing. */
  function After(w: World, e: Event): World {
    match e
    case Begin(caller, key, cacheable) =>
      if caller in w.calls then w
      else
        var w' := w.(calls := w.calls[caller := Call(key, cacheable, Reading)]);
        if cacheable then w' else Enter(w', caller)
    case Read(caller, answered) => if Is(w, caller, Reading) then AfterRead(w, caller, answered) else w
    case Loaded(caller, value) => if Is(w, caller, Leading) then AfterLoad(w, caller, value) else w
    case Stored(caller, kept) => if IsStoring(w, caller) then AfterStore(w, caller, kept) else w
    case Raised(caller) => if Leads(w, caller) then Finish(w, caller, Failed) else w
    case Woken(caller) =>
      if IsWaiting(w, caller) && w.calls[caller].phase.leader in w.futures then
        var leader := w.calls[caller].phase.leader;
        InPhase(w, caller, Done(w.futures[leader], FromInflight(leader)))
      else w
    case GaveUp(caller) => if IsWaiting(w, caller) then InPhase(w, caller, Done(Failed, GivenUp)) else w
    case Remembered(key, value) =>
      w.(backend := w.backend[key := Encoded(value)], loaded := w.loaded + {(key, value)})
    case Lost(key) => w.(backend := w.backend - {key})
    case Corrupted(key) => w.(backend := w.backend[key := Unreadable])
  }

  function AfterAll(w: World, events: seq<Event>): World
    decreases |events|
  {
    if events == [] then w else AfterAll(After(w, events[0]), events[1..])
  }

  // --- what every step keeps -----------------------------------------------------------------------

  /** The call in flight for a key is one caller that leads for that key. */
  predicate FlightLed(w: World, key: Key) {
    key in w.inflight ==> Leads(w, w.inflight[key]) && w.calls[w.inflight[key]].key == key
  }

  predicate Consistent(w: World, caller: Caller) {
    caller in w.calls ==>
      var call := w.calls[caller];
      match call.phase
      case Reading => caller !in w.futures
      case Leading => call.key in w.inflight && w.inflight[call.key] == caller && caller !in w.futures
      case Storing(value) =>
        call.key in w.inflight && w.inflight[call.key] == caller && caller !in w.futures && (call.key, value) in w.loaded
      case Waiting(leader) =>
        caller !in w.futures && leader in w.calls && w.calls[leader].key == call.key && (leader in w.futures || Leads(w, leader))
      case Done(outcome, origin) =>
        && (outcome.Ok? ==> (call.key, outcome.value) in w.loaded)
        && (caller in w.futures <==> origin == FromLoader)
        && (origin == FromLoader ==> w.futures[caller] == outcome)
        && (origin.FromInflight? ==> Led(w, call.key, outcome, origin.leader))
  }

  /** A waiter's leader had the same key, and the waiter has its outcome. */
  predicate Led(w: World, key: Key, outcome: Outcome, leader: Caller) {
    leader in w.calls && w.calls[leader].key == key && leader in w.futures && w.futures[leader] == outcome
  }

  predicate Honest(w: World, key: Key) {
    key in w.backend && w.backend[key].Encoded? ==> (key, w.backend[key].value) in w.loaded
  }

  ghost predicate Sound(w: World) {
    && (forall key :: FlightLed(w, key))
    && (forall caller :: Consistent(w, caller))
    && (forall key :: Honest(w, key))
    && (forall caller :: caller in w.futures ==> caller in w.calls)
  }

  lemma EnterSound(w: World, caller: Caller)
    requires Sound(w) && Is(w, caller, Reading)
    ensures Sound(Enter(w, caller))
  {
    var w' := Enter(w, caller);
    assert Consistent(w, caller);
    forall key ensures FlightLed(w', key) {
      assert FlightLed(w, key);
    }
    forall c ensures Consistent(w', c) {
      assert Consistent(w, c);
      assert FlightLed(w, w.calls[caller].key);
    }
    forall key ensures Honest(w', key) {
      assert Honest(w, key);
    }
  }

  /** A new record of what was loaded takes nothing away. */
  lemma LoadedSound(w: World, key: Key, value: Value)
    requires Sound(w)
    ensures Sound(w.(loaded := w.loaded + {(key, value)}))
  {
    var w' := w.(loaded := w.loaded + {(key, value)});
    forall k ensures FlightLed(w', k) {
      assert FlightLed(w, k);
    }
    forall c ensures Consistent(w', c) {
      assert Consistent(w, c);
      ConsistentWithMore(w, w', c);
    }
    forall k ensures Honest(w', k) {
      assert Honest(w, k);
    }
  }

  lemma ConsistentWithMore(w: World, w': World, caller: Caller)
    requires Consistent(w, caller)
    requires w' == w.(loaded := w'.loaded, backend := w'.backend) && w.loaded <= w'.loaded
    ensures Consistent(w', caller)
  {
  }

  /** The backend may come to hold anything that is honest. */
  lemma BackendSound(w: World, backend: map<Key, Payload>)
    requires Sound(w) && forall key :: Honest(w.(backend := backend), key)
    ensures Sound(w.(backend := backend))
  {
    var w' := w.(backend := backend);
    forall k ensures FlightLed(w', k) {
      assert FlightLed(w, k);
    }
    forall c ensures Consistent(w', c) {
      assert Consistent(w, c);
      ConsistentWithMore(w, w', c);
    }
  }

  lemma WithoutKeySound(w: World, key: Key)
    requires Sound(w)
    ensures Sound(w.(backend := w.backend - {key}))
  {
    var w' := w.(backend := w.backend - {key});
    forall k ensures Honest(w', k) {
      assert Honest(w, k);
    }
    BackendSound(w, w'.backend);
  }

  lemma WithPayloadSound(w: World, key: Key, payload: Payload)
    requires Sound(w) && (payload.Encoded? ==> (key, payload.value) in w.loaded)
    ensures Sound(w.(backend := w.backend[key := payload]))
  {
    var w' := w.(backend := w.backend[key := payload]);
    forall k ensures Honest(w', k) {
      assert Honest(w, k);
    }
    BackendSound(w, w'.backend);
  }

  /** A caller that leads nothing and is nobody's leader moves on. */
  lemma MovedSound(w: World, caller: Caller, phase: Phase)
    requires Sound(w) && caller in w.calls && !Leads(w, caller) && caller !in w.futures
    requires !phase.Leading? && !phase.Storing?
    requires Consistent(InPhase(w, caller, phase), caller)
    ensures Sound(InPhase(w, caller, phase))
  {
    var w' := InPhase(w, caller, phase);
    forall key ensures FlightLed(w', key) {
      assert FlightLed(w, key);
    }
    forall c ensures Consistent(w', c) {
      assert Consistent(w, c);
    }
    forall key ensures Honest(w', key) {
      assert Honest(w, key);
    }
  }

  /** The leader of a key finishes: the key is free, and its waiters can be
      woken. */
  lemma FinishSound(w: World, caller: Caller, outcome: Outcome)
    requires Sound(w) && Leads(w, caller)
    requires outcome.Ok? ==> (w.calls[caller].key, outcome.value) in w.loaded
    ensures Sound(Finish(w, caller, outcome))
  {
    var w' := Finish(w, caller, outcome);
    assert Consistent(w, caller);
    forall key ensures FlightLed(w', key) {
      assert FlightLed(w, key);
    }
    forall c ensures Consistent(w', c) {
      assert Consistent(w, c);
      FinishConsistent(w, caller, outcome, c);
    }
    forall key ensures Honest(w', key) {
      assert Honest(w, key);
    }
  }

  lemma FinishConsistent(w: World, caller: Caller, outcome: Outcome, c: Caller)
    requires Leads(w, caller) && Consistent(w, caller) && Consistent(w, c)
    requires outcome.Ok? ==> (w.calls[caller].key, outcome.value) in w.loaded
    ensures Consistent(Finish(w, caller, outcome), c)
  {
  }

  lemma StoringSound(w: World, caller: Caller, value: Value)
    requires Sound(w) && Is(w, caller, Leading) && (w.calls[caller].key, value) in w.loaded
    ensures Sound(InPhase(w, caller, Storing(value)))
  {
    var w' := InPhase(w, caller, Storing(value));
    assert Consistent(w, caller);
    forall key ensures FlightLed(w', key) {
      assert FlightLed(w, key);
    }
    forall c ensures Consistent(w', c) {
      assert Consistent(w, c);
    }
    forall key ensures Honest(w', key) {
      assert Honest(w, key);
    }
  }

  lemma BeginSound(w: World, caller: Caller, key: Key, cacheable: bool)
    requires Sound(w) && caller !in w.calls
    ensures Sound(w.(calls := w.calls[caller := Call(key, cacheable, Reading)]))
  {
    var w' := w.(calls := w.calls[caller := Call(key, cacheable, Reading)]);
    forall k ensures FlightLed(w', k) {
      assert FlightLed(w, k);
    }
    forall c ensures Consistent(w', c) {
      assert Consistent(w, c);
    }
    forall k ensures Honest(w', k) {
      assert Honest(w, k);
    }
  }

  lemma ReadSound(w: World, caller: Caller, answered: bool)
    requires Sound(w) && Is(w, caller, Reading)
    ensures Sound(AfterRead(w, caller, answered))
  {
    var key := w.calls[caller].key;
    assert Consistent(w, caller) && Honest(w, key);
    if answered && key in w.backend {
      match w.backend[key]
      case Encoded(value) => MovedSound(w, caller, Done(Ok(value), FromStore));
      case Unreadable =>
        WithoutKeySound(w, key);
        EnterSound(w.(backend := w.backend - {key}), caller);
    } else {
      EnterSound(w, caller);
    }
  }

  lemma LoadSound(w: World, caller: Caller, value: Value)
    requires Sound(w) && Is(w, caller, Leading)
    ensures Sound(AfterLoad(w, caller, value))
  {
    LoadedSound(w, w.calls[caller].key, value);
    var w' := w.(loaded := w.loaded + {(w.calls[caller].key, value)});
    if w.calls[caller].cacheable {
      StoringSound(w', caller, value);
    } else {
      FinishSound(w', caller, Ok(value));
    }
  }

  lemma StoreSound(w: World, caller: Caller, kept: bool)
    requires Sound(w) && IsStoring(w, caller)
    ensures Sound(AfterStore(w, caller, kept))
  {
    var call := w.calls[caller];
    assert Consistent(w, caller);
    if kept {
      WithPayloadSound(w, call.key, Encoded(call.phase.value));
      FinishSound(w.(backend := w.backend[call.key := Encoded(call.phase.value)]), caller, Ok(call.phase.value));
    } else {
      FinishSound(w, caller, Ok(call.phase.value));
    }
  }

  lemma WokenSound(w: World, caller: Caller)
    requires Sound(w) && IsWaiting(w, caller) && w.calls[caller].phase.leader in w.futures
    ensures Sound(InPhase(w, caller, Done(w.futures[w.calls[caller].phase.leader], FromInflight(w.calls[caller].phase.leader))))
  {
    var leader := w.calls[caller].phase.leader;
    assert Consistent(w, caller) && Consistent(w, leader);
    MovedSound(w, caller, Done(w.futures[leader], FromInflight(leader)));
  }

  lemma StepSound(w: World, e: Event)
    requires Sound(w)
    ensures Sound(After(w, e))
  {
    match e
    case Begin(caller, key, cacheable) =>
      if caller !in w.calls {
        BeginSound(w, caller, key, cacheable);
        if !cacheable {
          EnterSound(w.(calls := w.calls[caller := Call(key, cacheable, Reading)]), caller);
        }
      }
    case Read(caller, answered) =>
      if Is(w, caller, Reading) {
        ReadSound(w, caller, answered);
      }
    case Loaded(caller, value) =>
      if Is(w, caller, Leading) {
        LoadSound(w, caller, value);
      }
    case Stored(caller, kept) =>
      if IsStoring(w, caller) {
        StoreSound(w, caller, kept);
      }
    case Raised(caller) =>
      if Leads(w, caller) {
        FinishSound(w, caller, Failed);
      }
    case Woken(caller) =>
      if IsWaiting(w, caller) && w.calls[caller].phase.leader in w.futures {
        WokenSound(w, caller);
      }
    case GaveUp(caller) =>
      if IsWaiting(w, caller) {
        assert Consistent(w, caller);
        MovedSound(w, caller, Done(Failed, GivenUp));
      }
    case Remembered(key, value) =>
      LoadedSound(w, key, value);
      WithPayloadSound(w.(loaded := w.loaded + {(key, value)}), key, Encoded(value));
    case Lost(key) => WithoutKeySound(w, key);
    case Corrupted(key) => WithPayloadSound(w, key, Unreadable);
  }

  lemma {:induction false} EverySoundStep(w: World, events: seq<Event>)
    requires Sound(w)
    ensures Sound(AfterAll(w, events))
    decreases |events|
  {
    if events != [] {
      StepSound(w, events[0]);
      EverySoundStep(After(w, events[0]), events[1..]);
    }
  }

  // --- what callers get ----------------------------------------------------------------------------

  /** At most one caller leads for a key, and the in-flight table holds exactly
      the callers that do, under any interleaving. */
  lemma OneLeaderPerKey(events: seq<Event>, key: Key)
    ensures var w := AfterAll(IDLE, events);
            && (forall a, b :: Leads(w, a) && Leads(w, b) && w.calls[a].key == key && w.calls[b].key == key ==> a == b)
            && (forall a :: a in w.calls && w.calls[a].key == key ==>
                  (Leads(w, a) <==> key in w.inflight && w.inflight[key] == a))
  {
    var w := AfterAll(IDLE, events);
    EverySoundStep(IDLE, events);
    assert FlightLed(w, key);
    forall a | a in w.calls && w.calls[a].key == key
      ensures Leads(w, a) <==> key in w.inflight && w.inflight[key] == a
    {
      assert Consistent(w, a);
    }
  }

  /** Every call that succeeds returns something a loader returned for its key,
      whatever was evicted, expired, unreadable or down meanwhile; and every
      waiter that is woken has its leader's outcome, for its own key. */
  lemma CallersGetLoadedValues(events: seq<Event>, caller: Caller)
    ensures var w := AfterAll(IDLE, events);
            caller in w.calls && w.calls[caller].phase.Done? ==>
              var call := w.calls[caller];
              && (call.phase.outcome.Ok? ==> (call.key, call.phase.outcome.value) in w.loaded)
              && (call.phase.origin.FromInflight? ==> Led(w, call.key, call.phase.outcome, call.phase.origin.leader))
  {
    EverySoundStep(IDLE, events);
    assert Consistent(AfterAll(IDLE, events), caller);
  }

  /** No waiter is stranded: the call it waits for is still being made, for the
      same key, or has an outcome for it. */
  lemma NoWaiterIsStranded(events: seq<Event>, caller: Caller)
    ensures var w := AfterAll(IDLE, events);
            IsWaiting(w, caller) ==>
              var leader := w.calls[caller].phase.leader;
              leader in w.calls && w.calls[leader].key == w.calls[caller].key && (Leads(w, leader) || leader in w.futures)
  {
    EverySoundStep(IDLE, events);
    assert Consistent(AfterAll(IDLE, events), caller);
  }

  /** Loaders, and those who store what they computed, agree with `load`. */
  predicate Agrees(load: Key -> Value, w: World, e: Event) {
    match e
    case Loaded(caller, value) => caller in w.calls ==> value == load(w.calls[caller].key)
    case Remembered(key, value) => value == load(key)
    case _ => true
  }

  predicate AllAgree(load: Key -> Value, w: World, events: seq<Event>)
    decreases |events|
  {
    events == [] || (Agrees(load, w, events[0]) && AllAgree(load, After(w, events[0]), events[1..]))
  }

  lemma {:induction false} LoadedAgrees(load: Key -> Value, w: World, events: seq<Event>)
    requires AllAgree(load, w, events) && forall p :: p in w.loaded ==> p.1 == load(p.0)
    ensures forall p :: p in AfterAll(w, events).loaded ==> p.1 == load(p.0)
    decreases |events|
  {
    if events != [] {
      StepLoads(w, events[0]);
      LoadedAgrees(load, After(w, events[0]), events[1..]);
    }
  }

  lemma StepLoads(w: World, e: Event)
    ensures After(w, e).loaded == match e
      case Loaded(caller, value) => if Is(w, caller, Leading) then w.loaded + {(w.calls[caller].key, value)} else w.loaded
      case Remembered(key, value) => w.loaded + {(key, value)}
      case _ => w.loaded
  {
  }

  /** Read through the cache, under any interleaving, a key gives what its
      loader gives. */
  lemma CacheAgreesWithLoader(load: Key -> Value, events: seq<Event>, caller: Caller)
    requires AllAgree(load, IDLE, events)
    ensures var w := AfterAll(IDLE, events);
            caller in w.calls && w.calls[caller].phase.Done? && w.calls[caller].phase.outcome.Ok? ==>
              w.calls[caller].phase.outcome.value == load(w.calls[caller].key)
  {
    CallersGetLoadedValues(events, caller);
    LoadedAgrees(load, IDLE, events);
  }

  // --- what one call costs ---------------------------------------------------------------------------

  /** A value that is stored is served as it is, and nothing is loaded. */
  lemma StoredIsServed(w: World, caller: Caller, key: Key, value: Value)
    requires caller !in w.calls && key in w.backend && w.backend[key] == Encoded(value)
    ensures AfterAll(w, [Begin(caller, key, true), Read(caller, true)])
            == w.(calls := w.calls[caller := Call(key, true, Done(Ok(value), FromStore))])
  {
    var begun := After(w, Begin(caller, key, true));
    var read := After(begun, Read(caller, true));
    assert read.calls == w.calls[caller := Call(key, true, Done(Ok(value), FromStore))];
    TwoEvents(w, Begin(caller, key, true), Read(caller, true));
  }

  lemma TwoEvents(w: World, a: Event, b: Event)
    ensures AfterAll(w, [a, b]) == After(After(w, a), b)
  {
    var first := After(w, a);
    assert [a, b][0] == a && [a, b][1..] == [b];
    assert AfterAll(first, [b]) == AfterAll(After(first, b), [b][1..]);
    assert [b][1..] == [];
  }

  /** Someone is making the call for a key, and its outcome may be stored. */
  predicate InFlight(w: World, leader: Caller, key: Key) {
    && leader in w.calls && w.calls[leader] == Call(key, true, Leading)
    && key in w.inflight && w.inflight[key] == leader
  }

  /** Whoever asks for a key while it is being loaded waits for that. */
  lemma FollowerWaits(w: World, leader: Caller, caller: Caller, key: Key)
    requires InFlight(w, leader, key) && caller !in w.calls
    ensures AfterAll(w, [Begin(caller, key, true), Read(caller, false)])
            == w.(calls := w.calls[caller := Call(key, true, Waiting(leader))])
  {
    var begun := After(w, Begin(caller, key, true));
    var read := After(begun, Read(caller, false));
    assert read.calls == w.calls[caller := Call(key, true, Waiting(leader))];
    TwoEvents(w, Begin(caller, key, true), Read(caller, false));
  }

  /** Both then have what was loaded: once, stored if the backend keeps it, and
      with nothing left in flight. */
  lemma FlightIsShared(w: World, leader: Caller, caller: Caller, key: Key, value: Value, kept: bool)
    requires InFlight(w, leader, key) && caller in w.calls && w.calls[caller] == Call(key, true, Waiting(leader))
    ensures var w' := After(After(After(w, Loaded(leader, value)), Stored(leader, kept)), Woken(caller));
            && w'.calls == w.calls[leader := Call(key, true, Done(Ok(value), FromLoader))]
                                  [caller := Call(key, true, Done(Ok(value), FromInflight(leader)))]
            && w'.loaded == w.loaded + {(key, value)}
            && w'.backend == (if kept then w.backend[key := Encoded(value)] else w.backend)
            && w'.inflight == w.inflight - {key}
  {
    var loaded := After(w, Loaded(leader, value));
    assert loaded.calls == w.calls[leader := Call(key, true, Storing(value))];
    var stored := After(loaded, Stored(leader, kept));
    assert stored.calls == w.calls[leader := Call(key, true, Done(Ok(value), FromLoader))];
  }

  /** A loader that raises fails both, stores nothing, and leaves the key free for
      the next to try. */
  lemma FailureIsShared(w: World, leader: Caller, caller: Caller, key: Key)
    requires InFlight(w, leader, key) && caller in w.calls && w.calls[caller] == Call(key, true, Waiting(leader))
    ensures var w' := After(After(w, Raised(leader)), Woken(caller));
            && w'.calls == w.calls[leader := Call(key, true, Done(Failed, FromLoader))]
                                  [caller := Call(key, true, Done(Failed, FromInflight(leader)))]
            && w'.loaded == w.loaded && w'.backend == w.backend && w'.inflight == w.inflight - {key}
  {
    var raised := After(w, Raised(leader));
    assert raised.calls == w.calls[leader := Call(key, true, Done(Failed, FromLoader))];
  }

  predicate HasGivenUp(w: World, caller: Caller) {
    caller in w.calls && w.calls[caller].phase.Done? && w.calls[caller].phase.origin == GivenUp
  }

  lemma StepGivesUp(w: World, e: Event, caller: Caller)
    requires HasGivenUp(After(w, e), caller)
    ensures HasGivenUp(w, caller) || e == GaveUp(caller)
  {
  }

  /** Nobody is made to give up: a caller has only if it did so itself. */
  lemma {:induction false} OnlyWhoGivesUpHas(w: World, events: seq<Event>, caller: Caller)
    requires HasGivenUp(AfterAll(w, events), caller)
    ensures HasGivenUp(w, caller) || GaveUp(caller) in events
    decreases |events|
  {
    if events != [] {
      OnlyWhoGivesUpHas(After(w, events[0]), events[1..], caller);
      if HasGivenUp(After(w, events[0]), caller) {
        StepGivesUp(w, events[0], caller);
      }
    }
  }
}
