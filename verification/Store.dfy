/** The store over two database handles: an event log under zero-padded decimal
    keys and one snapshot. Every method is proved against its function in
    StoreSpec. */
module Store {
  import opened Wrappers
  import opened Ordering
  import opened EventKeys
  import opened Memory
  import opened Database
  import opened StoreSpec

  // ------------------------------------- the log behind the decimal keys

  // Every key is one that `persist` could have written.
  ghost predicate EventKeyed(view: map<string, Bytes>) {
    forall k | k in view :: ParseU64(k).Some? && k == Key(ParseU64(k).value)
  }

  ghost function LogOf(view: map<string, Bytes>): (log: map<nat, Bytes>)
    ensures forall n: nat :: n in log <==> n < U64 && Key(n) in view
  {
    map n: nat | n < U64 && Key(n) in view :: view[Key(n)]
  }

  lemma LogPut(view: map<string, Bytes>, n: nat, value: Bytes)
    requires EventKeyed(view) && n < U64
    ensures EventKeyed(view[Key(n) := value])
    ensures LogOf(view[Key(n) := value]) == LogOf(view)[n := value]
  {
    hide Key, ParseU64;
    ParseKey(n);
    forall m: nat | m < U64 && Key(m) == Key(n) ensures m == n { KeyInjective(m, n); }
  }

  lemma LogKeyed(view: map<string, Bytes>, k: string)
    requires EventKeyed(view) && k in view
    ensures ParseU64(k).Some? && ParseU64(k).value in LogOf(view) && LogOf(view)[ParseU64(k).value] == view[k]
  {
  }

  lemma LogAt(view: map<string, Bytes>, n: nat)
    requires n < U64
    ensures n in LogOf(view) <==> Key(n) in view
    ensures n in LogOf(view) ==> LogOf(view)[n] == view[Key(n)]
  {
    hide Key;
  }

  lemma EmptyTable(prefix: string)
    ensures Prefixed(map[], prefix) && EventKeyed(Strip(map[], prefix)) && LogOf(Strip(map[], prefix)) == map[]
  {}

  /** The lexicographically last key is the numerically greatest event. */
  lemma LastIsNewest(view: map<string, Bytes>, last: string)
    requires EventKeyed(view) && last in view
    requires forall k | k in view :: k == last || LexLess(k, last)
    ensures ParseU64(last).Some? && LogOf(view).Keys != {}
    ensures ParseU64(last).value == LastKey(LogOf(view)) && LogOf(view)[ParseU64(last).value] == view[last]
  {
    hide Key, ParseU64, LexLess;
    LogKeyed(view, last);
    var newest := ParseU64(last).value;
    forall n | n in LogOf(view) ensures n <= newest {
      KeyOrder(n, newest);
      if Key(n) == last { KeyInjective(n, newest); }
    }
    LastKeyIs(LogOf(view), newest);
  }

  lemma EmptyLog(view: map<string, Bytes>)
    requires EventKeyed(view)
    ensures LogOf(view).Keys == {} <==> view == map[]
  {
    if view != map[] {
      var k :| k in view;
      LogKeyed(view, k);
    }
  }

  // ----------------------------------------------------------- the names

  // `{name}_events` and `{name}_states` never name the same table.
  lemma TableNamesDiffer(a: string, b: string)
    ensures a + "_events" != b + "_states"
  {
    var x, y := a + "_events", b + "_states";
    assert x[|x| - 2] == 't' && y[|y| - 2] == 'e';
  }

  // Every row of the event table can be cut after the prefix.
  ghost predicate Cuttable(manager: MemoryManager, name: string, prefix: string)
    reads manager, manager.tables.Values
  {
    (name + "_events", prefix) in manager.tables ==>
      Prefixed(manager.tables[(name + "_events", prefix)].rows, prefix)
  }

  // The event table of this database holds only what a store left there.
  ghost predicate StoreTables(manager: MemoryManager, name: string, prefix: string)
    reads manager, manager.tables.Values
  {
    && Cuttable(manager, name, prefix)
    && ((name + "_events", prefix) in manager.tables ==>
          EventKeyed(Strip(manager.tables[(name + "_events", prefix)].rows, prefix)))
  }

  /** The log and the snapshot that the database holds for this store. */
  ghost function Disk(manager: MemoryManager, name: string, prefix: string): (map<nat, Bytes>, Option<Bytes>)
    requires StoreTables(manager, name, prefix)
    reads manager, manager.tables.Values
  {
    var (e, s) := ((name + "_events", prefix), (name + "_states", prefix));
    (if e in manager.tables then LogOf(Strip(manager.tables[e].rows, prefix)) else map[],
     if s in manager.tables && prefix in manager.tables[s].rows then Some(manager.tables[s].rows[prefix]) else None)
  }

  /** The counter found in a collection: its last key as a number, or zero when
      there is none or it is not a number. */
  ghost predicate CounterOf(view: map<string, Bytes>, n: nat) {
    && (view == map[] ==> n == 0)
    && forall last | last in view && (forall k | k in view :: k == last || LexLess(k, last)) ::
         n == match ParseU64(last) case Some(v) => v case None => 0
  }

  /** The number of the last event, parsed from the last key. */
  method LastNumber(events: MemoryStore) returns (r: Option<nat>)
    requires events.IsCollection()
    ensures r.None? <==> events.View() == map[]
    ensures CounterOf(events.View(), if r.Some? then r.value else 0)
    ensures r.Some? ==> r.value < U64
    ensures EventKeyed(events.View()) ==>
              var log := LogOf(events.View());
              r == if log.Keys == {} then None else Some(LastKey(log))
  {
    hide Key, ParseU64, LexLess, Strip, EventKeyed, LogOf, MemoryStore.View, CounterOf;
    var last := Last(events);
    if last.None? {
      NoCounter();
      EmptyIfKeyed(events.View());
      return None;
    }
    var number := ParseU64(last.value.0);
    ParseBound(last.value.0);
    LastCounts(events.View(), last.value.0);
    return Some(if number.Some? then number.value else 0);
  }

  lemma NoCounter()
    ensures CounterOf(map[], 0)
  {}

  lemma EmptyIfKeyed(view: map<string, Bytes>)
    ensures EventKeyed(view) ==> (LogOf(view).Keys == {} <==> view == map[])
  {
    if EventKeyed(view) { EmptyLog(view); }
  }

  lemma ParseBound(s: string)
    ensures ParseU64(s).Some? ==> ParseU64(s).value < U64
  {}

  // The greatest key decides the counter.
  lemma LastCounts(view: map<string, Bytes>, last: string)
    requires last in view && forall k | k in view :: k == last || LexLess(k, last)
    ensures CounterOf(view, match ParseU64(last) case Some(v) => v case None => 0)
    ensures EventKeyed(view) ==>
              ParseU64(last).Some? && LogOf(view).Keys != {} && ParseU64(last).value == LastKey(LogOf(view))
  {
    hide ParseU64, LexLess, EventKeyed, LogOf;
    if EventKeyed(view) { LastIsNewest(view, last); }
    forall k | k in view && (forall j | j in view :: j == k || LexLess(j, k)) ensures k == last {
      LexTrichotomy(k, last);
    }
  }

  /** The two handles `Store::new` asks the manager for. */
  method OpenTables(name: string, prefix: string, manager: MemoryManager)
    returns (log: MemoryStore, held: MemoryStore)
    requires manager.Valid() && Cuttable(manager, name, prefix)
    modifies manager
    ensures manager.Valid() && Cuttable(manager, name, prefix)
    ensures (name + "_events", prefix) in manager.tables && (name + "_states", prefix) in manager.tables
    ensures log.data == manager.tables[(name + "_events", prefix)] && log.prefix == prefix
    ensures held.data == manager.tables[(name + "_states", prefix)] && held.prefix == prefix
    ensures log.data != held.data && log.IsCollection()
    ensures log.data in old(manager.tables.Values) || fresh(log.data)
    ensures held.data in old(manager.tables.Values) || fresh(held.data)
    ensures old(StoreTables(manager, name, prefix)) ==>
              && StoreTables(manager, name, prefix) && EventKeyed(log.View())
              && (LogOf(log.View()), held.Stored()) == old(Disk(manager, name, prefix))
              && (LogOf(log.View()), held.Stored()) == Disk(manager, name, prefix)
    ensures unchanged(old(manager.tables.Values))
  {
    hide Key, ParseU64, LexLess, Strip, EventKeyed, LogOf;
    TableNamesDiffer(name, name);
    EmptyTable(prefix);
    log := manager.Create(name + "_events", prefix);
    held := manager.Create(name + "_states", prefix);
  }

  class Store<S(!new), E(!new)> {
    const logic: Logic<S, E>
    const events: MemoryStore
    const states: MemoryStore
    var eventCounter: nat
    var stateCounter: nat

    ghost predicate Valid()
      reads this, events.data, states.data
    {
      && events.data != states.data
      && events.IsCollection() && EventKeyed(events.View())
      && eventCounter < U64
    }

    ghost function Abs(): StoreState
      requires Valid()
      reads this, events.data, states.data
    {
      StoreState(eventCounter, stateCounter, LogOf(events.View()), states.Stored())
    }

    /** `Store::new`: the counter is found in the last key, whatever keys the
        collection holds; on what a store left, it is that of the log. */
    constructor (name: string, prefix: string, manager: MemoryManager, logic: Logic<S, E>)
      requires manager.Valid() && Cuttable(manager, name, prefix)
      modifies manager
      ensures manager.Valid() && Cuttable(manager, name, prefix) && this.logic == logic
      ensures (name + "_events", prefix) in manager.tables && (name + "_states", prefix) in manager.tables
      ensures events.data == manager.tables[(name + "_events", prefix)] && events.prefix == prefix
      ensures states.data == manager.tables[(name + "_states", prefix)] && states.prefix == prefix
      ensures events.data in old(manager.tables.Values) || fresh(events.data)
      ensures states.data in old(manager.tables.Values) || fresh(states.data)
      ensures events.IsCollection() && CounterOf(events.View(), eventCounter) && stateCounter == 0
      ensures old(StoreTables(manager, name, prefix)) ==>
                && Valid() && StoreTables(manager, name, prefix)
                && Abs() == OpenSpec(old(Disk(manager, name, prefix)).0, old(Disk(manager, name, prefix)).1)
                && Disk(manager, name, prefix) == (Abs().log, Abs().snapshot)
      ensures unchanged(old(manager.tables.Values))
    {
      hide Key, ParseU64, LexLess, Strip, EventKeyed, LogOf, StoreTables, Cuttable, Disk, CounterOf;
      var log, held := OpenTables(name, prefix, manager);
      var last := LastNumber(log);
      this.logic := logic;
      this.events, this.states := log, held;
      this.eventCounter, this.stateCounter := if last.Some? then last.value else 0, 0;
    }

    /** `last_event` */
    method LastEvent() returns (r: Result<Option<E>, Error>)
      requires Valid()
      ensures r == LastEventSpec(logic, Abs().log)
    {
      hide Key, ParseU64, LexLess, Strip, EventKeyed, LogOf, MemoryStore.View;
      var last := Last(events);
      EmptyLog(events.View());
      if last.None? {
        return Ok(None);
      }
      LastIsNewest(events.View(), last.value.0);
      var event := logic.decodeEvent(last.value.1);
      return if event.Some? then Ok(Some(event.value)) else Err(Decode);
    }

    /** `persist` */
    method Persist(event: E, written: bool) returns (r: Result<(), Error>)
      requires Valid() && eventCounter + 1 < U64
      modifies this`eventCounter, events.data
      ensures Valid()
      ensures (Abs(), r) == PersistSpec(logic, old(Abs()), event, written)
    {
      hide Key, ParseU64, LexLess, Strip, EventKeyed, LogOf, MemoryStore.View;
      var bytes := logic.encodeEvent(event);
      if bytes.None? {
        return Err(Encode);
      }
      var next := 0;
      if eventCounter != 0 {
        next := eventCounter + 1;
      } else {
        var last := LastEvent();
        if last.Ok? && last.value.Some? {
          next := eventCounter + 1;
        }
      }
      LogPut(events.View(), next, bytes.value);
      r := events.Put(Key(next), bytes.value, written);
      if r.Ok? {
        eventCounter := next;
      }
    }

    /** `snapshot` */
    method Snapshot(state: S, written: bool) returns (r: Result<(), Error>)
      requires Valid()
      modifies this`stateCounter, states.data
      ensures Valid()
      ensures (Abs(), r) == SnapshotSpec(logic, old(Abs()), state, written)
    {
      stateCounter := eventCounter;
      var bytes := logic.encodeState(state, stateCounter);
      if bytes.None? {
        return Err(Encode);
      }
      r := states.PutState(bytes.value, written);
    }

    /** `persist_state` */
    method PersistState(event: E, state: S, w: Writes) returns (r: Result<(), Error>)
      requires Valid()
      modifies this`stateCounter, events.data, states.data
      ensures Valid()
      ensures (Abs(), r) == PersistLightSpec(logic, old(Abs()), event, state, w)
    {
      hide Key, ParseU64, LexLess, Strip, EventKeyed, LogOf, MemoryStore.View;
      var bytes := logic.encodeEvent(event);
      if bytes.None? {
        return Err(Encode);
      }
      r := Snapshot(state, w.state);
      if r.Err? {
        return r;
      }
      LogPut(events.View(), eventCounter, bytes.value);
      r := events.Put(Key(eventCounter), bytes.value, w.event);
    }

    /** `get_state` */
    method GetState() returns (r: Result<Option<(S, nat)>, Error>)
      requires Valid()
      ensures r == match Abs().snapshot
                   case None => Ok(None)
                   case Some(bytes) =>
                     match logic.decodeState(bytes)
                     case Some(pair) => Ok(Some(pair))
                     case None => Err(Decode)
    {
      var data := states.GetState();
      if data.Err? {
        return Ok(None);
      }
      var pair := logic.decodeState(data.value);
      return if pair.Some? then Ok(Some(pair.value)) else Err(Decode);
    }

    /** `events`: read from..=to, stopping at the first missing event. */
    method EventsBetween(from: nat, to: nat) returns (r: Result<seq<E>, Error>)
      requires Valid() && to < U64
      ensures r == EventsSpec(logic, Abs().log, from, to)
    {
      hide Key, ParseU64, LexLess, Strip, EventKeyed, LogOf, MemoryStore.View, EventsSpec;
      var found: seq<E> := [];
      var i := from;
      PrependNothing(EventsSpec(logic, Abs().log, from, to));
      while i <= to
        invariant from <= i && (i <= to + 1 || i == from)
        invariant EventsSpec(logic, Abs().log, from, to) == Prepend(found, EventsSpec(logic, Abs().log, i, to))
        decreases 1 + to - i
      {
        LogAt(events.View(), i);
        EventsStep(logic, Abs().log, found, i, to);
        var data := events.Get(Key(i));
        if data.Err? {
          break;
        }
        var event := logic.decodeEvent(data.value);
        if event.None? {
          return Err(Decode);
        }
        found := found + [event.value];
        i := i + 1;
      }
      if i > to { EventsStep(logic, Abs().log, found, i, to); }
      r := Ok(found);
    }

    /** The replay loop of `recover`. */
    method Replay(start: S, missing: seq<E>) returns (r: Option<S>)
      ensures r == Fold(logic, start, missing)
    {
      var state := start;
      var i := 0;
      while i < |missing|
        invariant 0 <= i <= |missing|
        invariant Fold(logic, start, missing) == Fold(logic, state, missing[i..])
      {
        var next := logic.apply(state, missing[i]);
        if next.None? {
          return None;
        }
        assert missing[i..][1..] == missing[i + 1..];
        state := next.value;
        i := i + 1;
      }
      return Some(state);
    }

    /** `recover` */
    method Recover(written: bool) returns (r: Result<Option<S>, Error>)
      requires Valid()
      modifies this, states.data
      ensures Valid()
      ensures (Abs(), r) == RecoverSpec(logic, old(Abs()), written)
    {
      hide Key, ParseU64, LexLess, Strip, EventKeyed, LogOf, MemoryStore.View, EventsSpec, Fold;
      var stored := GetState();
      if stored.Err? {
        return Err(stored.error);
      }
      if stored.value.None? {
        return Ok(None);
      }
      var (state, counter) := stored.value.value;
      stateCounter := counter;
      var last := LastNumber(events);
      if last.None? {
        return Ok(Some(state));
      }
      eventCounter := last.value;
      if eventCounter == stateCounter {
        return Ok(Some(state));
      }
      var missing := EventsBetween(stateCounter + 1, eventCounter);
      if missing.Err? {
        return Err(missing.error);
      }
      var result := Replay(state, missing.value);
      if result.None? {
        return Err(Apply);
      }
      state := result.value;
      var saved := Snapshot(state, written);
      if saved.Err? {
        return Err(saved.error);
      }
      return Ok(Some(state));
    }

    /** `purge` */
    method Purge(w: Writes) returns (r: Result<(), Error>)
      requires Valid()
      modifies events.data, states.data
      ensures Valid()
      ensures (Abs(), r) == PurgeSpec(old(Abs()), w)
    {
      r := events.Purge(w.eventPurge);
      if r.Err? {
        return;
      }
      EmptyLog(events.View());
      r := states.Purge(w.statePurge);
    }

    /** `handle_message` */
    method Handle(command: Command<S, E>, w: Writes) returns (r: Result<Response<S, E>, Error>)
      requires Valid()
      requires command.Persist? ==> eventCounter + 1 < U64
      requires command.GetEvents? ==> command.to < U64
      modifies this, events.data, states.data
      ensures Valid()
      ensures (Abs(), r) == HandleSpec(logic, old(Abs()), command, w)
    {
      hide PersistSpec, PersistLightSpec, SnapshotSpec, RecoverSpec, EventsSpec, LastEventSpec, PurgeSpec;
      hide Strip, EventKeyed, LogOf, MemoryStore.View;
      match command
      case Persist(event) =>
        var done := Persist(event, w.event);
        r := Ok(if done.Ok? then Persisted else Failed(done.error));
      case PersistLight(event, state) =>
        var done := PersistState(event, state, w);
        r := Ok(if done.Ok? then Persisted else Failed(done.error));
      case Snapshot(state) =>
        var done := Snapshot(state, w.state);
        r := Ok(if done.Ok? then Snapshotted else Failed(done.error));
      case Recover =>
        var done := Recover(w.state);
        r := Ok(if done.Ok? then State(done.value) else Failed(done.error));
      case GetEvents(from, to) =>
        var found := EventsBetween(from, to);
        r := if found.Ok? then Ok(Events(found.value)) else Err(found.error);
      case LastEventsFrom(from) =>
        var found := EventsBetween(from, eventCounter);
        r := if found.Ok? then Ok(Events(found.value)) else Err(found.error);
      case LastEvent =>
        var found := LastEvent();
        r := Ok(if found.Ok? then LastEventIs(found.value) else Failed(found.error));
      case LastEventNumber =>
        r := Ok(Number(eventCounter));
      case Purge =>
        var done := Purge(w);
        r := Ok(if done.Ok? then Nothing else Failed(done.error));
    }
  }

  // One turn of the reading loop.
  lemma EventsStep<S, E>(logic: Logic<S, E>, log: map<nat, Bytes>, found: seq<E>, i: nat, to: nat)
    ensures var r := Prepend(found, EventsSpec(logic, log, i, to));
            if i > to || i !in log then r == Ok(found)
            else match logic.decodeEvent(log[i])
              case None => r == Err(Decode)
              case Some(e) => r == Prepend(found + [e], EventsSpec(logic, log, i + 1, to))
  {
    assert found + [] == found;
    if i <= to && i in log && logic.decodeEvent(log[i]).Some? {
      PrependTwice(found, [logic.decodeEvent(log[i]).value], EventsSpec(logic, log, i + 1, to));
    }
  }

  lemma PrependNothing<E>(r: Result<seq<E>, Error>)
    ensures Prepend([], r) == r
  {
    if r.Ok? { assert [] + r.value == r.value; }
  }

  lemma PrependTwice<E>(a: seq<E>, b: seq<E>, r: Result<seq<E>, Error>)
    ensures Prepend(a, Prepend(b, r)) == Prepend(a + b, r)
  {
    if r.Ok? { assert a + (b + r.value) == (a + b) + r.value; }
  }

  lemma TablesCuttable(manager: MemoryManager, name: string, prefix: string)
    requires StoreTables(manager, name, prefix)
    ensures Cuttable(manager, name, prefix)
  {}

  // A database seen through the store that is open on it.
  lemma OpenStoreTables<S(!new), E(!new)>(store: Store<S, E>, manager: MemoryManager, name: string, prefix: string)
    requires store.Valid()
    requires (name + "_events", prefix) in manager.tables && (name + "_states", prefix) in manager.tables
    requires store.events.data == manager.tables[(name + "_events", prefix)] && store.events.prefix == prefix
    requires store.states.data == manager.tables[(name + "_states", prefix)] && store.states.prefix == prefix
    ensures StoreTables(manager, name, prefix)
    ensures Disk(manager, name, prefix) == (store.Abs().log, store.Abs().snapshot)
  {
    hide EventKeyed, LogOf, Strip;
  }
}
