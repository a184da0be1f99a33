/** What each command of the store does, as functions of the two counters, the
    log by event number and the one stored snapshot. */
module StoreSpec {
  import opened Wrappers
  import opened Memory

  /** What the persisted actor supplies: `apply`, and the serialisation of its
      events and of (state, counter) pairs. Each may refuse a value. */
  datatype Logic<!S, !E> = Logic(
    apply: (S, E) -> Option<S>,
    encodeEvent: E -> Option<Bytes>,
    decodeEvent: Bytes -> Option<E>,
    encodeState: (S, nat) -> Option<Bytes>,
    decodeState: Bytes -> Option<(S, nat)>)

  /** Decoding inverts encoding. */
  ghost predicate RoundTrips<S(!new), E(!new)>(logic: Logic<S, E>) {
    && (forall e: E | logic.encodeEvent(e).Some? :: logic.decodeEvent(logic.encodeEvent(e).value) == Some(e))
    && (forall s: S, c: nat | logic.encodeState(s, c).Some? ::
          logic.decodeState(logic.encodeState(s, c).value) == Some((s, c)))
  }

  datatype StoreState = StoreState(
    eventCounter: nat,
    stateCounter: nat,
    log: map<nat, Bytes>,
    snapshot: Option<Bytes>)

  /** Which of the backend's writes succeed while a command runs. */
  datatype Writes = Writes(event: bool, state: bool, eventPurge: bool, statePurge: bool)

  datatype Command<+S, +E> =
    | Persist(event: E)
    | PersistLight(event: E, state: S)
    | Snapshot(state: S)
    | LastEvent
    | LastEventNumber
    | LastEventsFrom(from: nat)
    | GetEvents(from: nat, to: nat)
    | Recover
    | Purge

  datatype Response<+S, +E> =
    | Nothing
    | Persisted
    | Snapshotted
    | State(state: Option<S>)
    | LastEventIs(event: Option<E>)
    | Number(number: nat)
    | Events(events: seq<E>)
    | Failed(error: Error)

  // ---------------------------------------------------------------- log

  lemma {:induction false} GreatestExists(keys: set<nat>)
    requires keys != {}
    ensures exists k :: k in keys && forall j | j in keys :: j <= k
  {
    var x :| x in keys;
    var rest := keys - {x};
    assert keys == rest + {x};
    if rest != {} {
      GreatestExists(rest);
      var y :| y in rest && forall j | j in rest :: j <= y;
      if x <= y {
        assert y in keys && forall j | j in keys :: j <= y;
      } else {
        assert x in keys && forall j | j in keys :: j <= x;
      }
    } else {
      assert x in keys && forall j | j in keys :: j <= x;
    }
  }

  ghost function LastKey(log: map<nat, Bytes>): (k: nat)
    requires log.Keys != {}
    ensures k in log && forall j | j in log :: j <= k
  {
    GreatestExists(log.Keys);
    var k :| k in log.Keys && forall j | j in log.Keys :: j <= k;
    k
  }

  lemma LastKeyIs(log: map<nat, Bytes>, k: nat)
    requires k in log && forall j | j in log :: j <= k
    ensures log.Keys != {} && LastKey(log) == k
  {}

  ghost function LastEventSpec<S, E>(logic: Logic<S, E>, log: map<nat, Bytes>): Result<Option<E>, Error> {
    if log.Keys == {} then Ok(None)
    else match logic.decodeEvent(log[LastKey(log)])
      case Some(e) => Ok(Some(e))
      case None => Err(Decode)
  }

  /** The decoded events numbered from..=to, up to the first missing one. */
  ghost function EventsSpec<S, E>(logic: Logic<S, E>, log: map<nat, Bytes>, from: nat, to: nat): Result<seq<E>, Error>
    decreases 1 + to - from
  {
    if from > to || from !in log then Ok([])
    else match logic.decodeEvent(log[from])
      case None => Err(Decode)
      case Some(e) => Prepend([e], EventsSpec(logic, log, from + 1, to))
  }

  ghost function Prepend<E>(head: seq<E>, r: Result<seq<E>, Error>): Result<seq<E>, Error> {
    match r
    case Ok(tail) => Ok(head + tail)
    case Err(e) => Err(e)
  }

  /** Replaying events over a state. */
  function Fold<S, E>(logic: Logic<S, E>, s: S, events: seq<E>): Option<S> {
    if events == [] then Some(s)
    else match logic.apply(s, events[0])
      case None => None
      case Some(next) => Fold(logic, next, events[1..])
  }

  // ----------------------------------------------------------- commands

  ghost function NextNumber<S, E>(logic: Logic<S, E>, st: StoreState): nat {
    if st.eventCounter != 0 then st.eventCounter + 1
    else match LastEventSpec(logic, st.log)
      case Ok(Some(_)) => st.eventCounter + 1
      case _ => 0
  }

  ghost function PersistSpec<S, E>(logic: Logic<S, E>, st: StoreState, event: E, written: bool)
    : (StoreState, Result<(), Error>)
  {
    match logic.encodeEvent(event)
    case None => (st, Err(Encode))
    case Some(bytes) =>
      var next := NextNumber(logic, st);
      if written then (st.(log := st.log[next := bytes], eventCounter := next), Ok(()))
      else (st, Err(Backend))
  }

  ghost function SnapshotSpec<S, E>(logic: Logic<S, E>, st: StoreState, state: S, written: bool)
    : (StoreState, Result<(), Error>)
  {
    var st1 := st.(stateCounter := st.eventCounter);
    match logic.encodeState(state, st.eventCounter)
    case None => (st1, Err(Encode))
    case Some(bytes) =>
      if written then (st1.(snapshot := Some(bytes)), Ok(())) else (st1, Err(Backend))
  }

  ghost function PersistLightSpec<S, E>(logic: Logic<S, E>, st: StoreState, event: E, state: S, w: Writes)
    : (StoreState, Result<(), Error>)
  {
    match logic.encodeEvent(event)
    case None => (st, Err(Encode))
    case Some(bytes) =>
      var (st1, r) := SnapshotSpec(logic, st, state, w.state);
      if r.Err? then (st1, r)
      else if w.event then (st1.(log := st1.log[st1.eventCounter := bytes]), Ok(()))
      else (st1, Err(Backend))
  }

  ghost function RecoverSpec<S, E>(logic: Logic<S, E>, st: StoreState, written: bool)
    : (StoreState, Result<Option<S>, Error>)
  {
    if st.snapshot.None? then (st, Ok(None))
    else match logic.decodeState(st.snapshot.value)
      case None => (st, Err(Decode))
      case Some((state, counter)) =>
        var st1 := st.(stateCounter := counter);
        if st.log.Keys == {} then (st1, Ok(Some(state))) else
        var st2 := st1.(eventCounter := LastKey(st.log));
        if st2.eventCounter == st2.stateCounter then (st2, Ok(Some(state))) else
        match EventsSpec(logic, st.log, counter + 1, st2.eventCounter)
        case Err(e) => (st2, Err(e))
        case Ok(events) =>
          match Fold(logic, state, events)
          case None => (st2, Err(Apply))
          case Some(result) =>
            var (st3, r) := SnapshotSpec(logic, st2, result, written);
            (st3, if r.Ok? then Ok(Some(result)) else Err(r.error))
  }

  ghost function PurgeSpec(st: StoreState, w: Writes): (StoreState, Result<(), Error>) {
    if !w.eventPurge then (st, Err(Backend))
    else if !w.statePurge then (st.(log := map[]), Err(Backend))
    else (st.(log := map[], snapshot := None), Ok(()))
  }

  /** `Store::new` on an existing database. */
  ghost function OpenSpec(log: map<nat, Bytes>, snapshot: Option<Bytes>): StoreState {
    StoreState(if log.Keys == {} then 0 else LastKey(log), 0, log, snapshot)
  }

  /** `handle_message`; an outer Err is an error of the call, not a response. */
  ghost function HandleSpec<S, E>(logic: Logic<S, E>, st: StoreState, command: Command<S, E>, w: Writes)
    : (StoreState, Result<Response<S, E>, Error>)
  {
    match command
    case Persist(event) =>
      var (st1, r) := PersistSpec(logic, st, event, w.event);
      (st1, Ok(if r.Ok? then Persisted else Failed(r.error)))
    case PersistLight(event, state) =>
      var (st1, r) := PersistLightSpec(logic, st, event, state, w);
      (st1, Ok(if r.Ok? then Persisted else Failed(r.error)))
    case Snapshot(state) =>
      var (st1, r) := SnapshotSpec(logic, st, state, w.state);
      (st1, Ok(if r.Ok? then Snapshotted else Failed(r.error)))
    case Recover =>
      var (st1, r) := RecoverSpec(logic, st, w.state);
      (st1, Ok(if r.Ok? then State(r.value) else Failed(r.error)))
    case GetEvents(from, to) =>
      var r := EventsSpec(logic, st.log, from, to);
      (st, if r.Ok? then Ok(Events(r.value)) else Err(r.error))
    case LastEventsFrom(from) =>
      var r := EventsSpec(logic, st.log, from, st.eventCounter);
      (st, if r.Ok? then Ok(Events(r.value)) else Err(r.error))
    case LastEvent =>
      var r := LastEventSpec(logic, st.log);
      (st, Ok(if r.Ok? then LastEventIs(r.value) else Failed(r.error)))
    case LastEventNumber => (st, Ok(Number(st.eventCounter)))
    case Purge =>
      var (st1, r) := PurgeSpec(st, w);
      (st1, Ok(if r.Ok? then Nothing else Failed(r.error)))
  }
}
