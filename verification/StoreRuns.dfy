/** Properties of the store's commands over every run of them: the shape of the
    log, what recovery computes, and that recovering twice changes nothing. */
module StoreRuns {
  import opened Wrappers
  import opened Memory
  import opened StoreSpec

  // ------------------------------------------------- the log invariant

  /** The log is empty or an unbroken interval of keys ending at the counter. */
  ghost predicate Contiguous(st: StoreState) {
    st.log.Keys != {} ==> exists lo: nat :: Interval(st.log, lo, st.eventCounter)
  }

  ghost predicate Interval(log: map<nat, Bytes>, lo: nat, hi: nat) {
    lo <= hi && forall k: nat :: k in log <==> lo <= k <= hi
  }

  datatype StoreOp<S, E> = Do(command: Command<S, E>, writes: Writes) | Reopen

  ghost function StepSpec<S, E>(logic: Logic<S, E>, st: StoreState, op: StoreOp<S, E>): StoreState {
    match op
    case Do(command, w) => HandleSpec(logic, st, command, w).0
    case Reopen => OpenSpec(st.log, st.snapshot)
  }

  ghost function RunSpec<S, E>(logic: Logic<S, E>, st: StoreState, ops: seq<StoreOp<S, E>>): StoreState
    decreases |ops|
  {
    if ops == [] then st
    else StepSpec(logic, RunSpec(logic, st, ops[..|ops| - 1]), ops[|ops| - 1])
  }

  lemma IntervalLast(log: map<nat, Bytes>, lo: nat, hi: nat)
    requires Interval(log, lo, hi)
    ensures log.Keys != {} && LastKey(log) == hi
  {
    assert hi in log;
    LastKeyIs(log, hi);
  }

  lemma PutKeepsContiguous(st: StoreState, n: nat, bytes: Bytes)
    requires Contiguous(st)
    requires n == st.eventCounter || (n == st.eventCounter + 1) || (n == 0 && st.log.Keys == {})
    ensures Contiguous(st.(log := st.log[n := bytes], eventCounter := n))
  {
    var log := st.log[n := bytes];
    if st.log.Keys == {} {
      assert Interval(log, n, n);
    } else {
      var lo: nat :| Interval(st.log, lo, st.eventCounter);
      assert Interval(log, lo, n);
    }
  }

  lemma StepKeepsContiguous<S, E>(logic: Logic<S, E>, st: StoreState, op: StoreOp<S, E>)
    requires Contiguous(st)
    ensures Contiguous(StepSpec(logic, st, op))
  {
    if st.log.Keys != {} {
      var lo: nat :| Interval(st.log, lo, st.eventCounter);
      IntervalLast(st.log, lo, st.eventCounter);
    }
    match op {
      case Reopen =>
      case Do(command, w) =>
        match command {
          case Persist(event) =>
            var bytes := logic.encodeEvent(event);
            if bytes.Some? {
              PutKeepsContiguous(st, NextNumber(logic, st), bytes.value);
            }
          case PersistLight(event, state) =>
            var bytes := logic.encodeEvent(event);
            if bytes.Some? {
              PutKeepsContiguous(SnapshotSpec(logic, st, state, w.state).0, st.eventCounter, bytes.value);
            }
          case _ =>
        }
    }
  }

  /** Every run, with every write free to fail, keeps the log unbroken, and
      LastEventNumber is the greatest key of a log that is not empty. */
  lemma {:induction false} LogInvariant<S, E>(logic: Logic<S, E>, st: StoreState, ops: seq<StoreOp<S, E>>, w: Writes)
    requires Contiguous(st)
    ensures var end := RunSpec(logic, st, ops);
            && Contiguous(end)
            && (end.log.Keys != {} ==> HandleSpec(logic, end, LastEventNumber, w).1 == Ok(Number(LastKey(end.log))))
    decreases |ops|
  {
    if ops != [] {
      var before := ops[..|ops| - 1];
      LogInvariant(logic, st, before, w);
      StepKeepsContiguous(logic, RunSpec(logic, st, before), ops[|ops| - 1]);
    }
    var end := RunSpec(logic, st, ops);
    if end.log.Keys != {} {
      var lo: nat :| Interval(end.log, lo, end.eventCounter);
      IntervalLast(end.log, lo, end.eventCounter);
    }
  }

  /** Persist overwrites a stored event exactly when the log is the single event
      0 and that event cannot be decoded. */
  lemma PersistOverwritesIff<S, E>(logic: Logic<S, E>, st: StoreState)
    requires Contiguous(st)
    ensures NextNumber(logic, st) in st.log <==>
              st.eventCounter == 0 && 0 in st.log && logic.decodeEvent(st.log[0]).None?
  {
    if st.log.Keys != {} {
      var lo: nat :| Interval(st.log, lo, st.eventCounter);
      IntervalLast(st.log, lo, st.eventCounter);
      assert st.eventCounter in st.log && st.eventCounter + 1 !in st.log;
    }
  }

  /** It happens when a store is reopened under a logic that cannot read what
      another wrote, under another password say: the second store's first event
      takes the place of the first store's. */
  lemma ForeignEventOverwritten<S, E, T, F>(writer: Logic<S, E>, reader: Logic<T, F>, event: E, another: F, w: Writes)
    requires writer.encodeEvent(event).Some? && w.event
    requires reader.decodeEvent(writer.encodeEvent(event).value).None? && reader.encodeEvent(another).Some?
    ensures var st := HandleSpec(writer, OpenSpec(map[], None), Persist(event), w).0;
            var (after, r) := HandleSpec(reader, OpenSpec(st.log, st.snapshot), Persist(another), w);
            && st.log == map[0 := writer.encodeEvent(event).value]
            && r == Ok(Persisted) && after.log == map[0 := reader.encodeEvent(another).value]
  {
    var bytes := writer.encodeEvent(event).value;
    LastKeyIs(map[0 := bytes], 0);
  }

  /** Events and states as numbers, sealed under one byte of key. */
  function Sealed(key: bv8): Logic<bv8, bv8> {
    Logic((s, e) => Some(s + e),
          e => Some([key, e]),
          b => if |b| == 2 && b[0] == key then Some(b[1]) else None,
          (s, c) => Some([key, s] + seq(c, i => 0)),
          b => if |b| >= 2 && b[0] == key then Some((b[1], |b| - 2)) else None)
  }

  /** Two such logics each round-trip, and neither reads the other's events. */
  lemma SealedApart(key: bv8, other: bv8, event: bv8)
    ensures RoundTrips(Sealed(key))
    ensures key != other ==> Sealed(other).decodeEvent(Sealed(key).encodeEvent(event).value).None?
  {}

  ghost predicate Decodable<S, E>(logic: Logic<S, E>, log: map<nat, Bytes>) {
    forall k | k in log :: logic.decodeEvent(log[k]).Some?
  }

  lemma {:induction false} RunKeepsDecodable<S(!new), E(!new)>(
      logic: Logic<S, E>, st: StoreState, ops: seq<StoreOp<S, E>>)
    requires RoundTrips(logic) && Decodable(logic, st.log)
    ensures Decodable(logic, RunSpec(logic, st, ops).log)
    decreases |ops|
  {
    if ops != [] {
      RunKeepsDecodable(logic, st, ops[..|ops| - 1]);
    }
  }

  /** In a run that starts from decodable events, Persist adds exactly one new
      event at the end and changes no other. */
  lemma PersistAppends<S(!new), E(!new)>(
      logic: Logic<S, E>, st: StoreState, ops: seq<StoreOp<S, E>>, event: E, w: Writes)
    requires RoundTrips(logic) && Contiguous(st) && Decodable(logic, st.log)
    ensures var end := RunSpec(logic, st, ops);
            var (after, r) := HandleSpec(logic, end, Persist(event), w);
            && (r == Ok(Persisted) ==>
                  && after.eventCounter !in end.log
                  && (end.log.Keys != {} ==> after.eventCounter == LastKey(end.log) + 1)
                  && after.log == end.log[after.eventCounter := logic.encodeEvent(event).value]
                  && HandleSpec(logic, after, LastEvent, w).1 == Ok(LastEventIs(Some(event))))
            && (r != Ok(Persisted) ==> after == end)
  {
    var end := RunSpec(logic, st, ops);
    LogInvariant(logic, st, ops, w);
    RunKeepsDecodable(logic, st, ops);
    PersistOverwritesIff(logic, end);
    var (after, r) := HandleSpec(logic, end, Persist(event), w);
    StepKeepsContiguous(logic, end, Do(Persist(event), w));
    if end.log.Keys != {} {
      var lo: nat :| Interval(end.log, lo, end.eventCounter);
      IntervalLast(end.log, lo, end.eventCounter);
    }
    if r == Ok(Persisted) {
      var lo: nat :| Interval(after.log, lo, after.eventCounter);
      IntervalLast(after.log, lo, after.eventCounter);
    }
  }

  // --------------------------------------------------- exact recovery

  /** The first missing number from `from` on, or one past `to`. */
  ghost function FirstGap(log: map<nat, Bytes>, from: nat, to: nat): (k: nat)
    ensures from <= k && (from <= to ==> k <= 1 + to)
    ensures forall i | from <= i < k :: i in log
    ensures k > to || k !in log
    decreases 1 + to - from
  {
    if from > to || from !in log then from else FirstGap(log, from + 1, to)
  }

  /** The decoded events numbered from..until. */
  ghost function Suffix<S, E>(logic: Logic<S, E>, log: map<nat, Bytes>, from: nat, until: nat): (r: seq<E>)
    requires from <= until
    requires forall i | from <= i < until :: i in log && logic.decodeEvent(log[i]).Some?
    ensures |r| == until - from
    ensures forall i | 0 <= i < |r| :: logic.decodeEvent(log[from + i]) == Some(r[i])
  {
    seq(until - from, i requires 0 <= i < until - from => logic.decodeEvent(log[from + i]).value)
  }

  /** Reading a range yields the events before the first gap, and fails exactly
      when one of those cannot be decoded. */
  lemma {:induction false} EventsExact<S, E>(logic: Logic<S, E>, log: map<nat, Bytes>, from: nat, to: nat)
    ensures var k := FirstGap(log, from, to);
            var r := EventsSpec(logic, log, from, to);
            && (r.Ok? <==> forall i | from <= i < k :: logic.decodeEvent(log[i]).Some?)
            && (r.Ok? ==> r.value == Suffix(logic, log, from, k))
            && (r.Err? ==> r.error == Decode)
    decreases 1 + to - from
  {
    if from <= to && from in log {
      EventsExact(logic, log, from + 1, to);
      var k := FirstGap(log, from, to);
      if EventsSpec(logic, log, from, to).Ok? {
        assert Suffix(logic, log, from, k) == [logic.decodeEvent(log[from]).value] + Suffix(logic, log, from + 1, k);
      }
    }
  }

  /** What Recover returns and leaves behind, for any stored snapshot (s, c) and
      any log: the fold of the events after c up to the first gap. */
  lemma RecoverExact<S, E>(logic: Logic<S, E>, st: StoreState, s: S, c: nat, written: bool)
    requires st.snapshot.Some? && logic.decodeState(st.snapshot.value) == Some((s, c))
    ensures var (after, r) := RecoverSpec(logic, st, written);
            if st.log.Keys == {} then after == st.(stateCounter := c) && r == Ok(Some(s))
            else
              var last := LastKey(st.log);
              var k := FirstGap(st.log, c + 1, last);
              var readable := forall i | c + 1 <= i < k :: logic.decodeEvent(st.log[i]).Some?;
              && after.log == st.log && after.eventCounter == last
              && (c == last ==> r == Ok(Some(s)) && after.stateCounter == c && after.snapshot == st.snapshot)
              && (c != last && !readable ==> r == Err(Decode) && after.snapshot == st.snapshot)
              && (c != last && readable ==>
                    var folded := Fold(logic, s, Suffix(logic, st.log, c + 1, k));
                    && (folded.None? ==> r == Err(Apply) && after.snapshot == st.snapshot)
                    && (folded.Some? && written && logic.encodeState(folded.value, last).Some? ==>
                          && r == Ok(folded)
                          && after.snapshot == logic.encodeState(folded.value, last)
                          && after.stateCounter == last)
                    && (folded.Some? && !(written && logic.encodeState(folded.value, last).Some?) ==>
                          r.Err? && after.snapshot == st.snapshot))
  {
    if st.log.Keys != {} { EventsExact(logic, st.log, c + 1, LastKey(st.log)); }
  }

  /** A second Recover returns the same state and changes nothing. */
  lemma RecoverTwice<S(!new), E(!new)>(logic: Logic<S, E>, st: StoreState, written: bool, again: bool)
    requires RoundTrips(logic)
    ensures var (once, r) := RecoverSpec(logic, st, written);
            r.Ok? ==> RecoverSpec(logic, once, again) == (once, r)
  {
  }

  // ------------------------------------------------- what commands leave

  /** Purge: what is answered, which of the two tables survives a write that
      fails, and that the counters stay. After a purge that was answered with
      Nothing the store gives back nothing, and reopening it is opening a new one. */
  lemma PurgeClears<S, E>(logic: Logic<S, E>, st: StoreState, w: Writes, u: Writes, from: nat, to: nat)
    ensures var (after, r) := HandleSpec(logic, st, Purge, w);
            && (r == Ok(Nothing) <==> w.eventPurge && w.statePurge)
            && (r != Ok(Nothing) ==> r == Ok(Failed(Backend)))
            && after.eventCounter == st.eventCounter && after.stateCounter == st.stateCounter
            && (r == Ok(Nothing) ==>
                  && HandleSpec(logic, after, Recover, u).1 == Ok(State(None))
                  && HandleSpec(logic, after, LastEvent, u).1 == Ok(LastEventIs(None))
                  && HandleSpec(logic, after, GetEvents(from, to), u).1 == Ok(Events([]))
                  && HandleSpec(logic, after, LastEventsFrom(from), u).1 == Ok(Events([]))
                  && OpenSpec(after.log, after.snapshot) == OpenSpec(map[], None))
            && (!w.eventPurge ==> after == st)
            && (w.eventPurge && !w.statePurge ==>
                  HandleSpec(logic, after, LastEvent, u).1 == Ok(LastEventIs(None)) && after.snapshot == st.snapshot)
  {
  }

  /** The next event after a purge goes on from the counter, unless that was 0. */
  lemma PersistAfterPurge<S, E>(logic: Logic<S, E>, st: StoreState, event: E, w: Writes)
    requires w.eventPurge && w.event && logic.encodeEvent(event).Some?
    ensures var purged := HandleSpec(logic, st, Purge, w).0;
            var (after, r) := HandleSpec(logic, purged, Persist(event), w);
            && r == Ok(Persisted)
            && after.log.Keys == {if st.eventCounter == 0 then 0 else st.eventCounter + 1}
  {}

  /** The events a range command returns, those from `from` to the counter
      included: the range up to its first gap, or an error when one of these
      cannot be decoded. The store stays as it is. */
  lemma RangesExact<S, E>(logic: Logic<S, E>, st: StoreState, from: nat, to: nat, w: Writes)
    ensures var k := FirstGap(st.log, from, to);
            var readable := forall i | from <= i < k :: logic.decodeEvent(st.log[i]).Some?;
            HandleSpec(logic, st, GetEvents(from, to), w) ==
              (st, if readable then Ok(Events(Suffix(logic, st.log, from, k))) else Err(Decode))
    ensures HandleSpec(logic, st, LastEventsFrom(from), w) == HandleSpec(logic, st, GetEvents(from, st.eventCounter), w)
  {
    EventsExact(logic, st.log, from, to);
  }

  /** In runs over decodable events LastEventsFrom misses nothing. */
  lemma LastEventsComplete<S(!new), E(!new)>(logic: Logic<S, E>, st: StoreState, from: nat, w: Writes)
    requires Contiguous(st) && Decodable(logic, st.log) && from in st.log
    ensures var r := HandleSpec(logic, st, LastEventsFrom(from), w).1;
            && r.Ok? && r.value.Events? && |r.value.events| == st.eventCounter + 1 - from
            && forall i | 0 <= i < |r.value.events| ::
                 from + i in st.log && logic.decodeEvent(st.log[from + i]) == Some(r.value.events[i])
  {
    var lo: nat :| Interval(st.log, lo, st.eventCounter);
    EventsExact(logic, st.log, from, st.eventCounter);
    var k := FirstGap(st.log, from, st.eventCounter);
    assert k == st.eventCounter + 1;
  }

  /** A snapshot is answered with Snapshotted exactly when it can be encoded and
      written, and is then what Recover gives back; if not, the old one stays. */
  lemma SnapshotIsRecovered<S(!new), E(!new)>(logic: Logic<S, E>, st: StoreState, s: S, w: Writes, u: Writes)
    requires RoundTrips(logic) && Contiguous(st)
    ensures var (after, r) := HandleSpec(logic, st, Snapshot(s), w);
            && (r == Ok(Snapshotted) <==> w.state && logic.encodeState(s, st.eventCounter).Some?)
            && after.log == st.log && after.eventCounter == st.eventCounter
            && (r == Ok(Snapshotted) ==> HandleSpec(logic, after, Recover, u).1 == Ok(State(Some(s))))
            && (r != Ok(Snapshotted) ==> after.snapshot == st.snapshot)
  {
    if st.log.Keys != {} {
      var lo: nat :| Interval(st.log, lo, st.eventCounter);
      IntervalLast(st.log, lo, st.eventCounter);
    }
  }

  /** A light write that is answered with Persisted makes its state the one that
      is recovered and its event the last one, and changes no other event. The
      state goes first: where it cannot be stored nothing is. */
  lemma LightIsRecovered<S(!new), E(!new)>(logic: Logic<S, E>, st: StoreState, event: E, s: S, w: Writes, u: Writes)
    requires RoundTrips(logic) && Contiguous(st)
    ensures var (after, r) := HandleSpec(logic, st, PersistLight(event, s), w);
            && (r == Ok(Persisted) <==>
                  && logic.encodeEvent(event).Some? && logic.encodeState(s, st.eventCounter).Some?
                  && w.state && w.event)
            && (logic.encodeEvent(event).None? || logic.encodeState(s, st.eventCounter).None? || !w.state ==>
                  after.log == st.log && after.snapshot == st.snapshot)
            && (!w.event ==> after.log == st.log)
            && (r == Ok(Persisted) ==>
                  && HandleSpec(logic, after, Recover, u).1 == Ok(State(Some(s)))
                  && HandleSpec(logic, after, LastEvent, u).1 == Ok(LastEventIs(Some(event)))
                  && after.eventCounter == st.eventCounter
                  && after.log.Keys == st.log.Keys + {st.eventCounter}
                  && forall k | k in st.log && k != st.eventCounter :: after.log[k] == st.log[k])
  {
    var (after, r) := HandleSpec(logic, st, PersistLight(event, s), w);
    StepKeepsContiguous(logic, st, Do(PersistLight(event, s), w));
    if r == Ok(Persisted) {
      var bytes := logic.encodeEvent(event).value;
      assert after.log == st.log[st.eventCounter := bytes] && after.eventCounter == st.eventCounter;
      assert logic.decodeEvent(bytes) == Some(event);
      assert after == StepSpec(logic, st, Do(PersistLight(event, s), w)) && st.eventCounter in after.log;
      var lo: nat :| Interval(after.log, lo, after.eventCounter);
      IntervalLast(after.log, lo, after.eventCounter);
      assert after.snapshot == logic.encodeState(s, st.eventCounter);
      assert HandleSpec(logic, after, LastEvent, u).1 == Ok(LastEventIs(Some(event)));
      assert HandleSpec(logic, after, Recover, u).1 == Ok(State(Some(s)));
    }
  }

  // ------------------------------------------------------------- fold

  lemma {:induction false} FoldConcat<S, E>(logic: Logic<S, E>, s: S, a: seq<E>, b: seq<E>)
    ensures Fold(logic, s, a + b) ==
              match Fold(logic, s, a) case None => None case Some(t) => Fold(logic, t, b)
  {
    if a == [] {
      assert a + b == b;
    } else {
      assert (a + b)[0] == a[0] && (a + b)[1..] == a[1..] + b;
      var next := logic.apply(s, a[0]);
      if next.Some? { FoldConcat(logic, next.value, a[1..], b); }
    }
  }
}
