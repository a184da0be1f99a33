/** An actor whose state is event sourced: what `persist`, `snapshot`,
    `start_store` and `stop_store` do to the live state and to its store. */
module PersistentActor {
  import opened Wrappers
  import opened EventKeys
  import opened Memory
  import opened StoreSpec
  import opened Store

  datatype Persistence = Light | Full

  ghost function PersistOutcome<S, E>(r: Result<Response<S, E>, Error>): Result<(), Error> {
    match r
    case Ok(Persisted) => Ok(())
    case Ok(Failed(e)) => Err(e)
    case Ok(_) => Err(Backend)
    case Err(e) => Err(e)
  }

  /** `PersistentActor::persist`: the event is applied first, and only a refused
      event restores the previous state. */
  ghost function ActorPersist<S, E>(logic: Logic<S, E>, kind: Persistence, live: S, st: StoreState, event: E, w: Writes)
    : (S, StoreState, Result<(), Error>)
  {
    match logic.apply(live, event)
    case None => (live, st, Err(Apply))
    case Some(next) =>
      var command := match kind case Light => PersistLight(event, next) case Full => Persist(event);
      var (st1, r) := HandleSpec(logic, st, command, w);
      (next, st1, PersistOutcome(r))
  }

  /** `start_store` on an open store: recover, and otherwise store a first snapshot. */
  ghost function ActorResume<S, E>(
      logic: Logic<S, E>, live: S, before: StoreState, recovering: Writes, first: Writes): (S, StoreState)
  {
    var (st, r) := HandleSpec(logic, before, Recover, recovering);
    match r
    case Ok(State(Some(state))) => (state, st)
    case _ => (live, HandleSpec(logic, st, Snapshot(live), first).0)
  }

  ghost function ActorStart<S, E>(
      logic: Logic<S, E>, live: S, disk: (map<nat, Bytes>, Option<Bytes>), recovering: Writes, first: Writes)
    : (S, StoreState)
  {
    ActorResume(logic, live, OpenSpec(disk.0, disk.1), recovering, first)
  }

  class PersistentActor<S(!new), E(!new)> {
    const logic: Logic<S, E>
    const kind: Persistence
    var state: S
    var store: Store?<S, E>

    constructor (logic: Logic<S, E>, kind: Persistence, initial: S)
      ensures this.logic == logic && this.kind == kind && state == initial && store == null
    {
      this.logic, this.kind, this.state, this.store := logic, kind, initial, null;
    }

    ghost function Footprint(): set<object>
      reads this
    {
      if store == null then {this} else {this, store, store.events.data, store.states.data}
    }

    ghost predicate Valid()
      reads this, Footprint()
    {
      store != null ==> store.Valid() && store.logic == logic
    }

    /** `persist` */
    method Persist(event: E, w: Writes) returns (r: Result<(), Error>)
      requires Valid()
      requires store != null && kind.Full? ==> store.eventCounter + 1 < U64
      modifies Footprint()
      ensures Valid() && store == old(store)
      ensures store == null ==> r == Err(Backend) && state == old(state)
      ensures store != null ==>
                (state, store.Abs(), r) == ActorPersist(logic, kind, old(state), old(store.Abs()), event, w)
    {
      if store == null {
        return Err(Backend);
      }
      var previous := state;
      var next := logic.apply(state, event);
      if next.None? {
        state := previous;
        return Err(Apply);
      }
      state := next.value;
      var command := if kind.Light? then Command.PersistLight(event, state) else Command.Persist(event);
      var response := store.Handle(command, w);
      match response
      case Ok(Persisted) => r := Ok(());
      case Ok(Failed(e)) => r := Err(e);
      case Ok(_) => r := Err(Backend);
      case Err(e) => r := Err(e);
    }

    /** `snapshot`: whatever the store answers, the call succeeds. */
    method TakeSnapshot(w: Writes) returns (r: Result<(), Error>)
      requires Valid()
      modifies Footprint()
      ensures Valid() && store == old(store) && state == old(state)
      ensures store == null ==> r == Err(Backend)
      ensures store != null ==>
                r == Ok(()) && store.Abs() == SnapshotSpec(logic, old(store.Abs()), state, w.state).0
    {
      if store == null {
        return Err(Backend);
      }
      var response := store.Handle(Command.Snapshot(state), w);
      return Ok(());
    }

    /** `start_store` */
    method StartStore(name: string, prefix: string, manager: MemoryManager, recovering: Writes, first: Writes)
      requires manager.Valid() && StoreTables(manager, name, prefix)
      modifies this, manager, manager.tables.Values
      ensures Valid() && store != null && manager.Valid()
      ensures StoreTables(manager, name, prefix)
      ensures Disk(manager, name, prefix) == (store.Abs().log, store.Abs().snapshot)
      ensures (state, store.Abs()) == ActorStart(logic, old(state), old(Disk(manager, name, prefix)), recovering, first)
    {
      hide ActorResume, OpenSpec, Disk, MemoryStore.View, LogOf, Strip, Key;
      hide EventKeyed, StoreTables, Cuttable, CounterOf, Prefixed;
      TablesCuttable(manager, name, prefix);
      store := new Store<S, E>(name, prefix, manager, logic);
      Resume(recovering, first);
      OpenStoreTables(store, manager, name, prefix);
    }

    /** The rest of `start_store`, on the store just opened. */
    method Resume(recovering: Writes, first: Writes)
      requires Valid() && store != null
      modifies this`state, store, store.events.data, store.states.data
      ensures Valid() && store == old(store)
      ensures (state, store.Abs()) == ActorResume(logic, old(state), old(store.Abs()), recovering, first)
    {
      hide HandleSpec, MemoryStore.View, LogOf, Strip, EventKeyed, Prefixed, Key;
      var response := store.Handle(Command.Recover, recovering);
      if response.Ok? && response.value.State? && response.value.state.Some? {
        state := response.value.state.value;
      } else {
        var _ := store.Handle(Command.Snapshot(state), first);
      }
    }

    /** `stop_store`: a fully event-sourced actor leaves a last snapshot. */
    method StopStore(w: Writes) returns (r: Result<(), Error>)
      requires Valid()
      modifies Footprint()
      ensures Valid() && store == null && state == old(state)
      ensures old(store) == null ==> r == Err(Backend)
      ensures old(store) != null ==>
                && r == Ok(())
                && old(store).Valid()
                && old(store).Abs() == if kind.Full? then SnapshotSpec(logic, old(store.Abs()), state, w.state).0
                                       else old(store.Abs())
    {
      if store == null {
        return Err(Backend);
      }
      if kind.Full? {
        var _ := store.Handle(Command.Snapshot(state), w);
      }
      store := null;
      return Ok(());
    }
  }
}
