/** Recovery over whole runs of a persistent actor: when does Recover give back
    exactly the live state? */
module Recovery {
  import opened Wrappers
  import opened Memory
  import opened StoreSpec
  import opened StoreRuns
  import opened PersistentActor

  /** The live actor and its store, with history variables that follow the run:
      the events in the log, how many of them the stored snapshot covers, how
      many applied events the snapshot and the log after it do not account for
      since live state and storage last agreed, whether they have agreed at all
      since the last start, and the state most recently stored. */
  datatype World<S, E> = World(
    live: S,
    store: StoreState,
    hist: seq<E>,
    covered: nat,
    missed: nat,
    lost: bool,
    stored: Option<S>)

  datatype Op<E> =
    | PersistFull(event: E, written: bool)
    | PersistLight(event: E, stateWritten: bool, eventWritten: bool)
    | TakeSnapshot(written: bool)
    | RecoverLive(written: bool)
    | AskRecover(written: bool)
    | Restart(recoverWritten: bool, snapshotWritten: bool)

  ghost function Wr(event: bool, state: bool): Writes {
    Writes(event, state, true, true)
  }

  ghost function Covered<S, E>(w: World<S, E>, state: S): World<S, E> {
    w.(covered := |w.hist|, missed := 0, lost := false, stored := Some(state))
  }

  ghost function StepFull<S, E>(logic: Logic<S, E>, w: World<S, E>, event: E, written: bool): World<S, E> {
    if logic.apply(w.live, event).None? then w else
    var (live, store, r) := ActorPersist(logic, Full, w.live, w.store, event, Wr(written, true));
    var w1 := w.(live := live, store := store);
    if r.Ok? then w1.(hist := w.hist + [event]) else w1.(missed := w.missed + 1)
  }

  /** Light persistence keeps one event: the newest. */
  function ReplaceLast<E>(hist: seq<E>, event: E): seq<E> {
    (if hist == [] then [] else hist[..|hist| - 1]) + [event]
  }

  ghost function StepLight<S, E>(
      logic: Logic<S, E>, w: World<S, E>, event: E, stateWritten: bool, eventWritten: bool): World<S, E>
  {
    if logic.apply(w.live, event).None? then w else
    var (live, store, r) := ActorPersist(logic, Light, w.live, w.store, event, Wr(eventWritten, stateWritten));
    var w1 := w.(live := live, store := store);
    if r.Ok? then
      Covered(w1.(hist := ReplaceLast(w.hist, event)), live)
    else if stateWritten && StateEncodes(logic, w, event) then Covered(w1, live)
    else w1.(missed := w.missed + 1)
  }

  ghost predicate StateEncodes<S, E>(logic: Logic<S, E>, w: World<S, E>, event: E)
    requires logic.apply(w.live, event).Some?
  {
    && logic.encodeEvent(event).Some?
    && logic.encodeState(logic.apply(w.live, event).value, w.store.eventCounter).Some?
  }

  ghost function StepSnapshot<S, E>(logic: Logic<S, E>, w: World<S, E>, written: bool): World<S, E> {
    var (store, r) := SnapshotSpec(logic, w.store, w.live, written);
    if r.Ok? then Covered(w.(store := store), w.live) else w.(store := store)
  }

  ghost function StepRecover<S, E>(logic: Logic<S, E>, w: World<S, E>, written: bool): World<S, E> {
    var (store, r) := RecoverSpec(logic, w.store, written);
    match r
    case Ok(Some(state)) => Covered(w.(store := store, live := state), state)
    case _ => w.(store := store)
  }

  // The stored snapshot was taken on an empty log that has since grown.
  ghost predicate Stale<S, E>(w: World<S, E>) {
    w.covered == 0 && w.hist != []
  }

  /** A Recover sent to the store by someone who leaves the live state alone. */
  ghost function StepAskRecover<S, E>(logic: Logic<S, E>, w: World<S, E>, written: bool): World<S, E> {
    var (store, r) := RecoverSpec(logic, w.store, written);
    match r
    case Ok(Some(state)) =>
      w.(store := store, covered := |w.hist|, stored := Some(state), missed := w.missed + if Stale(w) then 1 else 0)
    case _ => w.(store := store)
  }

  ghost function Reopened<S, E>(initial: S, w: World<S, E>): World<S, E> {
    w.(live := initial, store := OpenSpec(w.store.log, w.store.snapshot), missed := 0, lost := true)
  }

  /** A crash or stop, and then `start_store` of a fresh actor on what is stored. */
  ghost function StepRestart<S, E>(
      logic: Logic<S, E>, initial: S, w: World<S, E>, recoverWritten: bool, snapshotWritten: bool): World<S, E>
  {
    var recovered := StepRecover(logic, Reopened(initial, w), recoverWritten);
    if !recovered.lost then recovered else StepSnapshot(logic, recovered, snapshotWritten)
  }

  ghost function Step<S, E>(logic: Logic<S, E>, initial: S, w: World<S, E>, op: Op<E>): World<S, E> {
    match op
    case PersistFull(event, written) => StepFull(logic, w, event, written)
    case PersistLight(event, stateWritten, eventWritten) => StepLight(logic, w, event, stateWritten, eventWritten)
    case TakeSnapshot(written) => StepSnapshot(logic, w, written)
    case RecoverLive(written) => StepRecover(logic, w, written)
    case AskRecover(written) => StepAskRecover(logic, w, written)
    case Restart(recoverWritten, snapshotWritten) => StepRestart(logic, initial, w, recoverWritten, snapshotWritten)
  }

  ghost function Empty<S, E>(initial: S): World<S, E> {
    World(initial, OpenSpec(map[], None), [], 0, 0, true, None)
  }

  /** A run: `start_store` on an empty database, then the operations. */
  ghost function Run<S, E>(logic: Logic<S, E>, initial: S, firstWritten: bool, ops: seq<Op<E>>): World<S, E>
    decreases |ops|
  {
    if ops == [] then StepRestart(logic, initial, Empty(initial), true, firstWritten)
    else Step(logic, initial, Run(logic, initial, firstWritten, ops[..|ops| - 1]), ops[|ops| - 1])
  }

  // The restart step is what `start_store` does.
  lemma RestartIsActorStart<S, E>(logic: Logic<S, E>, initial: S, w: World<S, E>, rw: bool, sw: bool)
    ensures var after := StepRestart(logic, initial, w, rw, sw);
            (after.live, after.store) ==
              ActorStart(logic, initial, (w.store.log, w.store.snapshot), Wr(true, rw), Wr(true, sw))
  {
  }

  // -------------------------------------------------------- invariant

  function Pred(n: nat): nat {
    if n == 0 then 0 else n - 1
  }

  ghost predicate LogHolds<S, E>(logic: Logic<S, E>, log: map<nat, Bytes>, hist: seq<E>) {
    && (forall k: nat :: k in log <==> k < |hist|)
    && (forall k: nat | k < |hist| :: logic.decodeEvent(log[k]) == Some(hist[k]))
  }

  ghost predicate SnapshotHolds<S, E>(logic: Logic<S, E>, w: World<S, E>) {
    match w.store.snapshot
    case None => w.stored.None? && w.lost
    case Some(bytes) => w.stored.Some? && logic.decodeState(bytes) == Some((w.stored.value, Pred(w.covered)))
  }

  ghost predicate Inv<S, E>(logic: Logic<S, E>, w: World<S, E>) {
    && LogHolds(logic, w.store.log, w.hist)
    && w.store.eventCounter == Pred(|w.hist|)
    && w.covered <= |w.hist|
    && SnapshotHolds(logic, w)
    && (!w.lost && w.missed == 0 ==> Fold(logic, w.stored.value, w.hist[w.covered..]) == Some(w.live))
  }

  lemma HistLast<S, E>(logic: Logic<S, E>, log: map<nat, Bytes>, hist: seq<E>)
    requires LogHolds(logic, log, hist)
    ensures log.Keys == {} <==> hist == []
    ensures hist != [] ==> LastKey(log) == |hist| - 1
  {
    if hist == [] {
      assert forall k: nat :: k !in log;
    } else {
      assert |hist| - 1 in log;
      LastKeyIs(log, |hist| - 1);
    }
  }

  /** Where replay starts: after the covered events, and never at event 0. */
  function ReplayFrom(covered: nat, n: nat): nat {
    if covered == 0 && n > 0 then 1 else covered
  }

  lemma {:induction false} ReplayedEvents<S, E>(logic: Logic<S, E>, log: map<nat, Bytes>, hist: seq<E>, from: nat)
    requires LogHolds(logic, log, hist) && from <= |hist| && hist != []
    ensures EventsSpec(logic, log, from, |hist| - 1) == Ok(hist[from..])
    decreases |hist| - from
  {
    if from < |hist| {
      ReplayedEvents(logic, log, hist, from + 1);
      assert hist[from..] == [hist[from]] + hist[from + 1..];
    } else {
      assert hist[from..] == [];
    }
  }

  lemma CoveredFold<S, E>(logic: Logic<S, E>, s: S, hist: seq<E>)
    ensures Fold(logic, s, hist[|hist|..]) == Some(s)
  {
    assert hist[|hist|..] == [];
  }

  /** Recovery in terms of the history: the stored state folded over the events
      from ReplayFrom on. */
  lemma RecoverReplays<S, E>(logic: Logic<S, E>, w: World<S, E>, written: bool)
    requires Inv(logic, w) && w.stored.Some?
    ensures var from := ReplayFrom(w.covered, |w.hist|);
            var folded := Fold(logic, w.stored.value, w.hist[from..]);
            var (after, r) := RecoverSpec(logic, w.store, written);
            && from <= |w.hist|
            && after.log == w.store.log && after.eventCounter == w.store.eventCounter
            && (folded.None? ==> r == Err(Apply) && after.snapshot == w.store.snapshot)
            && (folded.Some? && from == |w.hist| ==>
                  r == Ok(folded) && folded == w.stored && after.snapshot == w.store.snapshot)
            && (folded.Some? && from < |w.hist| ==>
                  if written && logic.encodeState(folded.value, w.store.eventCounter).Some?
                  then r == Ok(folded) && after.snapshot == logic.encodeState(folded.value, w.store.eventCounter)
                  else r.Err? && after.snapshot == w.store.snapshot)
  {
    hide Fold, EventsSpec, LastKey, RecoverSpec, LogHolds;
    HistLast(logic, w.store.log, w.hist);
    CoveredFold(logic, w.stored.value, w.hist);
    var from := ReplayFrom(w.covered, |w.hist|);
    if w.hist != [] {
      ReplayedEvents(logic, w.store.log, w.hist, from);
      assert Pred(w.covered) + 1 == from;
      RecoverFolds(logic, w.store, w.stored.value, Pred(w.covered), w.hist[from..], written);
      assert from == |w.hist| <==> Pred(w.covered) == w.store.eventCounter;
    } else {
      RecoverExact(logic, w.store, w.stored.value, Pred(w.covered), written);
    }
  }

  lemma RecoverFolds<S, E>(logic: Logic<S, E>, st: StoreState, s: S, c: nat, events: seq<E>, written: bool)
    requires st.snapshot.Some? && logic.decodeState(st.snapshot.value) == Some((s, c))
    requires st.log.Keys != {} && LastKey(st.log) == st.eventCounter
    requires EventsSpec(logic, st.log, c + 1, st.eventCounter) == Ok(events)
    ensures var (after, r) := RecoverSpec(logic, st, written);
            var folded := Fold(logic, s, events);
            && after.log == st.log && after.eventCounter == st.eventCounter
            && (c == st.eventCounter ==> r == Ok(Some(s)) && after.snapshot == st.snapshot)
            && (c != st.eventCounter && folded.None? ==> r == Err(Apply) && after.snapshot == st.snapshot)
            && (c != st.eventCounter && folded.Some? ==>
                  if written && logic.encodeState(folded.value, st.eventCounter).Some?
                  then r == Ok(folded) && after.snapshot == logic.encodeState(folded.value, st.eventCounter)
                  else r.Err? && after.snapshot == st.snapshot)
  {
    hide Fold, EventsSpec, LastKey;
  }

  // ------------------------------------------------------ preservation

  lemma NextIsLength<S, E>(logic: Logic<S, E>, w: World<S, E>)
    requires LogHolds(logic, w.store.log, w.hist) && w.store.eventCounter == Pred(|w.hist|)
    ensures NextNumber(logic, w.store) == |w.hist|
  {
    hide LastKey;
    HistLast(logic, w.store.log, w.hist);
    var n := |w.hist|;
    if n > 0 { assert logic.decodeEvent(w.store.log[n - 1]) == Some(w.hist[n - 1]); }
  }

  lemma PutNext<S, E>(logic: Logic<S, E>, log: map<nat, Bytes>, hist: seq<E>, event: E, bytes: Bytes)
    requires LogHolds(logic, log, hist) && logic.decodeEvent(bytes) == Some(event)
    ensures LogHolds(logic, log[|hist| := bytes], hist + [event])
  {}

  // A persisted event goes to the end of the log, or nothing is stored.
  lemma FullStores<S(!new), E(!new)>(logic: Logic<S, E>, w: World<S, E>, event: E, written: bool)
    requires RoundTrips(logic) && Inv(logic, w)
    ensures var v := StepFull(logic, w, event, written);
            && v.covered == w.covered && v.lost == w.lost && v.stored == w.stored
            && v.store.snapshot == w.store.snapshot
            && LogHolds(logic, v.store.log, v.hist) && v.store.eventCounter == Pred(|v.hist|)
            && if logic.apply(w.live, event).None? then v == w
               else && Some(v.live) == logic.apply(w.live, event)
                    && if written && logic.encodeEvent(event).Some?
                       then v.hist == w.hist + [event] && v.missed == w.missed
                       else v.hist == w.hist && v.missed == w.missed + 1
  {
    NextIsLength(logic, w);
    if logic.encodeEvent(event).Some? {
      EventDecodes(logic, event);
      PutNext(logic, w.store.log, w.hist, event, logic.encodeEvent(event).value);
    }
    hide Fold, LogHolds, NextNumber, RoundTrips, SnapshotHolds;
  }

  lemma FoldSnoc<S, E>(logic: Logic<S, E>, w: World<S, E>, event: E)
    requires Inv(logic, w) && logic.apply(w.live, event).Some?
    ensures (w.hist + [event])[w.covered..] == w.hist[w.covered..] + [event]
    ensures !w.lost && w.missed == 0 ==>
              Fold(logic, w.stored.value, w.hist[w.covered..] + [event]) == logic.apply(w.live, event)
  {
    if !w.lost && w.missed == 0 {
      FoldConcat(logic, w.stored.value, w.hist[w.covered..], [event]);
      assert Fold(logic, w.live, [event]) == logic.apply(w.live, event);
    }
  }

  lemma FullKeepsInv<S(!new), E(!new)>(logic: Logic<S, E>, w: World<S, E>, event: E, written: bool)
    requires RoundTrips(logic) && Inv(logic, w)
    ensures Inv(logic, StepFull(logic, w, event, written))
  {
    FullStores(logic, w, event, written);
    hide Fold;
    if logic.apply(w.live, event).Some? {
      FoldSnoc(logic, w, event);
    }
  }

  lemma EventDecodes<S(!new), E(!new)>(logic: Logic<S, E>, event: E)
    requires RoundTrips(logic) && logic.encodeEvent(event).Some?
    ensures logic.decodeEvent(logic.encodeEvent(event).value) == Some(event)
  {}

  // Writing at the last key replaces the last event, or starts the log.
  lemma PutLast<S, E>(logic: Logic<S, E>, log: map<nat, Bytes>, hist: seq<E>, event: E, bytes: Bytes)
    requires LogHolds(logic, log, hist) && logic.decodeEvent(bytes) == Some(event)
    ensures LogHolds(logic, log[Pred(|hist|) := bytes], ReplaceLast(hist, event))
  {
  }

  lemma LightStores<S(!new), E(!new)>(logic: Logic<S, E>, w: World<S, E>, event: E, sw: bool, ew: bool)
    requires RoundTrips(logic) && Inv(logic, w)
    ensures var v := StepLight(logic, w, event, sw, ew);
            && LogHolds(logic, v.store.log, v.hist) && v.store.eventCounter == Pred(|v.hist|)
            && if logic.apply(w.live, event).None? then v == w
               else && Some(v.live) == logic.apply(w.live, event)
                    && if sw && StateEncodes(logic, w, event)
                       then && v.covered == |v.hist| && v.missed == 0 && !v.lost && v.stored == Some(v.live)
                            && v.store.snapshot == logic.encodeState(v.live, w.store.eventCounter)
                            && Pred(|v.hist|) == w.store.eventCounter
                            && |w.hist| <= |v.hist| <= (if |w.hist| == 0 then 1 else |w.hist|)
                            && (ew ==> v.hist != [])
                       else && v == w.(live := v.live, store := v.store, missed := w.missed + 1)
                            && v.store.snapshot == w.store.snapshot
  {
    hide Fold, LastKey, SnapshotHolds, RoundTrips, LogHolds;
    if logic.encodeEvent(event).Some? {
      EventDecodes(logic, event);
      PutLast(logic, w.store.log, w.hist, event, logic.encodeEvent(event).value);
    }
  }

  lemma LightKeepsInv<S(!new), E(!new)>(logic: Logic<S, E>, w: World<S, E>, event: E, sw: bool, ew: bool)
    requires RoundTrips(logic) && Inv(logic, w)
    ensures Inv(logic, StepLight(logic, w, event, sw, ew))
  {
    hide Fold;
    LightStores(logic, w, event, sw, ew);
    var v := StepLight(logic, w, event, sw, ew);
    CoveredFold(logic, v.live, v.hist);
  }

  lemma SnapshotKeepsInv<S(!new), E(!new)>(logic: Logic<S, E>, w: World<S, E>, written: bool)
    requires RoundTrips(logic) && Inv(logic, w)
    ensures Inv(logic, StepSnapshot(logic, w, written))
  {
    CoveredFold(logic, w.live, w.hist);
  }

  lemma RecoverKeepsInv<S(!new), E(!new)>(logic: Logic<S, E>, w: World<S, E>, written: bool)
    requires RoundTrips(logic) && Inv(logic, w)
    ensures Inv(logic, StepRecover(logic, w, written))
  {
    if w.stored.Some? {
      RecoverReplays(logic, w, written);
      var v := StepRecover(logic, w, written);
      CoveredFold(logic, v.live, v.hist);
    }
  }

  lemma AskKeepsInv<S(!new), E(!new)>(logic: Logic<S, E>, w: World<S, E>, written: bool)
    requires RoundTrips(logic) && Inv(logic, w)
    ensures Inv(logic, StepAskRecover(logic, w, written))
  {
    if w.stored.Some? {
      RecoverReplays(logic, w, written);
      var v := StepAskRecover(logic, w, written);
      CoveredFold(logic, v.stored.value, v.hist);
      hide RecoverSpec, Fold;
    }
  }

  lemma ReopenKeepsInv<S, E>(logic: Logic<S, E>, initial: S, w: World<S, E>)
    requires Inv(logic, w)
    ensures Inv(logic, Reopened(initial, w))
  {
    HistLast(logic, w.store.log, w.hist);
  }

  lemma RestartKeepsInv<S(!new), E(!new)>(logic: Logic<S, E>, initial: S, w: World<S, E>, rw: bool, sw: bool)
    requires RoundTrips(logic) && Inv(logic, w)
    ensures Inv(logic, StepRestart(logic, initial, w, rw, sw))
  {
    ReopenKeepsInv(logic, initial, w);
    RecoverKeepsInv(logic, Reopened(initial, w), rw);
    SnapshotKeepsInv(logic, StepRecover(logic, Reopened(initial, w), rw), sw);
  }

  lemma StepKeepsInv<S(!new), E(!new)>(logic: Logic<S, E>, initial: S, w: World<S, E>, op: Op<E>)
    requires RoundTrips(logic) && Inv(logic, w)
    ensures Inv(logic, Step(logic, initial, w, op))
  {
    match op
    case PersistFull(event, written) => FullKeepsInv(logic, w, event, written);
    case PersistLight(event, sw, ew) => LightKeepsInv(logic, w, event, sw, ew);
    case TakeSnapshot(written) => SnapshotKeepsInv(logic, w, written);
    case RecoverLive(written) => RecoverKeepsInv(logic, w, written);
    case AskRecover(written) => AskKeepsInv(logic, w, written);
    case Restart(rw, sw) => RestartKeepsInv(logic, initial, w, rw, sw);
  }

  lemma {:induction false} RunKeepsInv<S(!new), E(!new)>(logic: Logic<S, E>, initial: S, first: bool, ops: seq<Op<E>>)
    requires RoundTrips(logic)
    ensures Inv(logic, Run(logic, initial, first, ops))
    decreases |ops|
  {
    if ops == [] {
      RestartKeepsInv<S, E>(logic, initial, Empty(initial), true, first);
    } else {
      RunKeepsInv(logic, initial, first, ops[..|ops| - 1]);
      StepKeepsInv(logic, initial, Run(logic, initial, first, ops[..|ops| - 1]), ops[|ops| - 1]);
    }
  }

  // ------------------------------------------------------ main results

  /** Recovery equivalence, over every run of Full and Light persistence,
      snapshots, recoveries and restarts, every write free to fail: if every
      applied event has been stored and the snapshot is not stale, Recover
      returns exactly the live state. The recoveries of a run may be the actor's
      own or asked of the store by others, who keep the answer to themselves. */
  lemma RecoveryReturnsLive<S(!new), E(!new)>(logic: Logic<S, E>, initial: S, first: bool, ops: seq<Op<E>>)
    requires RoundTrips(logic)
    ensures var w := Run(logic, initial, first, ops);
            !w.lost && w.missed == 0 && !Stale(w) && logic.encodeState(w.live, w.store.eventCounter).Some? ==>
              RecoverSpec(logic, w.store, true).1 == Ok(Some(w.live))
  {
    RunKeepsInv(logic, initial, first, ops);
    var w := Run(logic, initial, first, ops);
    if !w.lost { RecoverReplays(logic, w, true); }
  }

  // Each event moves a version number of the state by one.
  ghost predicate CountsEvents<S(!new), E(!new)>(logic: Logic<S, E>, version: S -> nat) {
    forall s: S, e: E | logic.apply(s, e).Some? :: version(logic.apply(s, e).value) == version(s) + 1
  }

  lemma {:induction false} FoldVersion<S(!new), E(!new)>(logic: Logic<S, E>, version: S -> nat, s: S, events: seq<E>)
    requires CountsEvents(logic, version) && Fold(logic, s, events).Some?
    ensures version(Fold(logic, s, events).value) == version(s) + |events|
  {
    if events != [] {
      FoldVersion(logic, version, logic.apply(s, events[0]).value, events[1..]);
    }
  }

  ghost predicate Versions<S, E>(w: World<S, E>, version: S -> nat) {
    !w.lost ==> w.stored.Some? && version(w.live) == version(w.stored.value) + (|w.hist| - w.covered) + w.missed
  }

  lemma FullKeepsVersions<S(!new), E(!new)>(
      logic: Logic<S, E>, version: S -> nat, w: World<S, E>, event: E, written: bool)
    requires RoundTrips(logic) && Inv(logic, w) && CountsEvents(logic, version) && Versions(w, version)
    ensures Versions(StepFull(logic, w, event, written), version)
  {
    FullStores(logic, w, event, written);
    hide StepFull, Inv;
  }

  lemma LightKeepsVersions<S(!new), E(!new)>(
      logic: Logic<S, E>, version: S -> nat, w: World<S, E>, event: E, sw: bool, ew: bool)
    requires RoundTrips(logic) && Inv(logic, w) && CountsEvents(logic, version) && Versions(w, version)
    ensures Versions(StepLight(logic, w, event, sw, ew), version)
  {
    LightStores(logic, w, event, sw, ew);
    hide StepLight, Inv;
  }

  lemma AskKeepsVersions<S(!new), E(!new)>(logic: Logic<S, E>, version: S -> nat, w: World<S, E>, written: bool)
    requires RoundTrips(logic) && Inv(logic, w) && CountsEvents(logic, version) && Versions(w, version)
    ensures Versions(StepAskRecover(logic, w, written), version)
  {
    if w.stored.Some? {
      RecoverReplays(logic, w, written);
      var from := ReplayFrom(w.covered, |w.hist|);
      if Fold(logic, w.stored.value, w.hist[from..]).Some? {
        FoldVersion(logic, version, w.stored.value, w.hist[from..]);
      }
    }
    hide RecoverSpec, Fold, Inv, CountsEvents, RoundTrips;
  }

  lemma StepKeepsVersions<S(!new), E(!new)>(
      logic: Logic<S, E>, version: S -> nat, initial: S, w: World<S, E>, op: Op<E>)
    requires RoundTrips(logic) && Inv(logic, w) && CountsEvents(logic, version) && Versions(w, version)
    ensures Versions(Step(logic, initial, w, op), version)
  {
    hide StepFull, StepLight, StepAskRecover, Inv, CountsEvents, RoundTrips, RecoverSpec, SnapshotSpec;
    match op
    case PersistFull(event, written) => FullKeepsVersions(logic, version, w, event, written);
    case PersistLight(event, sw, ew) => LightKeepsVersions(logic, version, w, event, sw, ew);
    case AskRecover(written) => AskKeepsVersions(logic, version, w, written);
    case _ =>
  }

  lemma {:induction false} RunKeepsVersions<S(!new), E(!new)>(
      logic: Logic<S, E>, version: S -> nat, initial: S, first: bool, ops: seq<Op<E>>)
    requires RoundTrips(logic) && CountsEvents(logic, version)
    ensures Versions(Run(logic, initial, first, ops), version)
    decreases |ops|
  {
    if ops != [] {
      var before := ops[..|ops| - 1];
      RunKeepsInv(logic, initial, first, before);
      RunKeepsVersions(logic, version, initial, first, before);
      StepKeepsVersions(logic, version, initial, Run(logic, initial, first, before), ops[|ops| - 1]);
    }
  }

  /** The condition is exact: for an actor whose state counts its events, Recover
      returns the live state if and only if storage accounts for every applied
      event and the snapshot is not stale. */
  lemma RecoveryReturnsLiveIff<S(!new), E(!new)>(
      logic: Logic<S, E>, version: S -> nat, initial: S, first: bool, ops: seq<Op<E>>)
    requires RoundTrips(logic) && CountsEvents(logic, version)
    ensures var w := Run(logic, initial, first, ops);
            !w.lost && logic.encodeState(w.live, w.store.eventCounter).Some? ==>
              (RecoverSpec(logic, w.store, true).1 == Ok(Some(w.live)) <==> w.missed == 0 && !Stale(w))
  {
    RunKeepsInv(logic, initial, first, ops);
    RunKeepsVersions(logic, version, initial, first, ops);
    RecoveryReturnsLive(logic, initial, first, ops);
    var w := Run(logic, initial, first, ops);
    if !w.lost {
      RecoverReplays(logic, w, true);
      var from := ReplayFrom(w.covered, |w.hist|);
      if Fold(logic, w.stored.value, w.hist[from..]).Some? {
        FoldVersion(logic, version, w.stored.value, w.hist[from..]);
      }
    }
  }

  // ------------------------------------- what happens off the condition

  /** A stale snapshot: Recover folds every event but the first. */
  lemma StaleSkipsFirst<S(!new), E(!new)>(logic: Logic<S, E>, initial: S, first: bool, ops: seq<Op<E>>)
    requires RoundTrips(logic)
    ensures var w := Run(logic, initial, first, ops);
            Stale(w) && w.stored.Some? ==>
              var folded := Fold(logic, w.stored.value, w.hist[1..]);
              && (folded.None? ==> RecoverSpec(logic, w.store, true).1 == Err(Apply))
              && (folded.Some? && logic.encodeState(folded.value, w.store.eventCounter).Some? ==>
                    RecoverSpec(logic, w.store, true).1 == Ok(folded))
  {
    RunKeepsInv(logic, initial, first, ops);
    var w := Run(logic, initial, first, ops);
    if w.stored.Some? { RecoverReplays(logic, w, true); }
  }

  /** The smallest such run: a new actor persists one event and crashes before
      its next snapshot. The event is in the log, and the restart forgets it. */
  lemma FirstEventForgotten<S(!new), E(!new)>(logic: Logic<S, E>, initial: S, event: E)
    requires RoundTrips(logic)
    requires logic.apply(initial, event).Some? && logic.encodeEvent(event).Some?
    requires logic.encodeState(initial, 0).Some?
    ensures var w := Run(logic, initial, true, [PersistFull(event, true)]);
            && w.live == logic.apply(initial, event).value
            && w.hist == [event] && w.missed == 0 && !w.lost
            && Step(logic, initial, w, Restart(true, true)).live == initial
  {
    var ops: seq<Op<E>> := [PersistFull(event, true)];
    var w0 := Run(logic, initial, true, []);
    FirstStart(logic, initial);
    RunKeepsInv(logic, initial, true, []);
    assert ops[..0] == [];
    assert Run(logic, initial, true, ops) == StepFull(logic, w0, event, true);
    hide Run, StepFull, StepRestart, Inv;
    FullStores(logic, w0, event, true);
    RunKeepsInv(logic, initial, true, ops);
    var w := Run(logic, initial, true, ops);
    RestartExact(logic, initial, w, true, true);
    CoveredFold(logic, initial, w.hist);
  }

  // A new actor stores its first snapshot.
  lemma FirstStart<S, E>(logic: Logic<S, E>, initial: S)
    requires logic.encodeState(initial, 0).Some?
    ensures var w := Run(logic, initial, true, []);
            && w.live == initial && w.stored == Some(initial)
            && w.hist == [] && w.covered == 0 && w.missed == 0 && !w.lost
  {}

  // Live state and storage agree, and recovery can rewrite its snapshot.
  ghost predicate Agreed<S, E>(logic: Logic<S, E>, w: World<S, E>) {
    !w.lost && w.missed == 0 && !Stale(w) && logic.encodeState(w.live, w.store.eventCounter).Some?
  }

  /** A persist that returns an error, for both kinds of persistence and every
      refused or failed write: the live state moves unless `apply` refused the
      event, and Recover follows it exactly when the kind is light and the state
      was written before the error. */
  lemma FailedPersist<S(!new), E(!new)>(
      logic: Logic<S, E>, initial: S, first: bool, ops: seq<Op<E>>, kind: Persistence, event: E, sw: bool, ew: bool)
    requires RoundTrips(logic)
    ensures var w := Run(logic, initial, first, ops);
            var (live, store, r) := ActorPersist(logic, kind, w.live, w.store, event, Wr(ew, sw));
            var next := logic.apply(w.live, event);
            var stored := next.Some? && kind.Light? && sw && StateEncodes(logic, w, event);
            Agreed(logic, w) && r.Err? ==>
              && live == (if next.None? then w.live else next.value)
              && RecoverSpec(logic, store, true).1 == Ok(Some(if stored then live else w.live))
  {
    RecoveryReturnsLive(logic, initial, first, ops);
    RunKeepsInv(logic, initial, first, ops);
    var w := Run(logic, initial, first, ops);
    var (live, store, r) := ActorPersist(logic, kind, w.live, w.store, event, Wr(ew, sw));
    if Agreed(logic, w) && logic.apply(w.live, event).Some? && r.Err? {
      if kind.Light? && sw && StateEncodes(logic, w, event) {
        LightKeepsInv(logic, w, event, sw, ew);
        var v := StepLight(logic, w, event, sw, ew);
        RecoverReplays(logic, v, true);
        CoveredFold(logic, live, v.hist);
        hide RecoverSpec, Inv, Run;
      } else {
        FailedStores(logic, kind, w.live, w.store, event, Wr(ew, sw));
        SameRecovery(logic, w.store, store, true);
        hide RecoverSpec, Inv, Run;
      }
    }
  }

  // A persist that fails before its state is written stores nothing.
  lemma FailedStores<S, E>(logic: Logic<S, E>, kind: Persistence, live: S, st: StoreState, event: E, w: Writes)
    requires logic.apply(live, event).Some? && ActorPersist(logic, kind, live, st, event, w).2.Err?
    requires !(kind.Light? && w.state && logic.encodeEvent(event).Some?
               && logic.encodeState(logic.apply(live, event).value, st.eventCounter).Some?)
    ensures var after := ActorPersist(logic, kind, live, st, event, w).1;
            after == st.(stateCounter := after.stateCounter)
  {}

  // Recovery does not look at the old state counter.
  lemma SameRecovery<S, E>(logic: Logic<S, E>, a: StoreState, b: StoreState, written: bool)
    requires b == a.(stateCounter := b.stateCounter)
    ensures RecoverSpec(logic, a, written).1 == RecoverSpec(logic, b, written).1
  {}

  /** Recovers asked of the store one after the other. */
  ghost function Asks<E>(writes: seq<bool>): seq<Op<E>> {
    seq(|writes|, i requires 0 <= i < |writes| => AskRecover(writes[i]))
  }

  // Where a Recover changes nothing, no number of them does.
  lemma {:induction false} AsksChangeNothing<S, E>(
      logic: Logic<S, E>, initial: S, w: World<S, E>, s: S, writes: seq<bool>)
    requires forall b :: RecoverSpec(logic, w.store, b) == (w.store, Ok(Some(s)))
    ensures var n := RunFrom(logic, initial, w, Asks(writes)); n.store == w.store && n.live == w.live
    decreases |writes|
  {
    if writes != [] {
      var asks: seq<Op<E>> := Asks(writes);
      assert asks[0] == AskRecover(writes[0]) && asks[1..] == Asks(writes[1..]);
      var next := StepAskRecover(logic, w, writes[0]);
      assert next.store == w.store && next.live == w.live;
      AsksChangeNothing(logic, initial, next, s, writes[1..]);
    }
  }

  /** A Recover asked over a stale snapshot makes its answer the snapshot. From
      then on every Recover, however many are asked, returns that answer, and
      for an actor whose state counts its events it is not the live state. */
  lemma StaleRecoverIsKept<S(!new), E(!new)>(
      logic: Logic<S, E>, version: S -> nat, initial: S, first: bool, ops: seq<Op<E>>, writes: seq<bool>, again: bool)
    requires RoundTrips(logic) && CountsEvents(logic, version)
    ensures var w := Run(logic, initial, first, ops);
            Stale(w) && !w.lost ==> w.stored.Some? && KeepsAnswer(logic, initial, w, writes, again)
  {
    RunKeepsInv(logic, initial, first, ops);
    RunKeepsVersions(logic, version, initial, first, ops);
    var w := Run(logic, initial, first, ops);
    hide Run, KeepsAnswer, Inv, CountsEvents, RoundTrips;
    if Stale(w) && !w.lost {
      AnswerKept(logic, version, initial, w, writes, again);
    }
  }

  ghost predicate KeepsAnswer<S, E>(logic: Logic<S, E>, initial: S, w: World<S, E>, writes: seq<bool>, again: bool)
    requires Stale(w) && w.stored.Some?
  {
    var folded := Fold(logic, w.stored.value, w.hist[1..]);
    var n := RunFrom(logic, initial, Step(logic, initial, w, AskRecover(true)), Asks(writes));
    folded.Some? && logic.encodeState(folded.value, w.store.eventCounter).Some? ==>
      && RecoverSpec(logic, n.store, again).1 == Ok(folded)
      && n.live == w.live && folded != Some(w.live)
  }

  lemma AnswerKept<S(!new), E(!new)>(
      logic: Logic<S, E>, version: S -> nat, initial: S, w: World<S, E>, writes: seq<bool>, again: bool)
    requires RoundTrips(logic) && CountsEvents(logic, version) && Inv(logic, w) && Versions(w, version)
    requires Stale(w) && !w.lost
    ensures w.stored.Some? && KeepsAnswer(logic, initial, w, writes, again)
  {
    hide Fold, RecoverSpec, StepAskRecover, RunFrom, Inv, CountsEvents, RoundTrips, Asks;
    var folded := Fold(logic, w.stored.value, w.hist[1..]);
    if folded.Some? && logic.encodeState(folded.value, w.store.eventCounter).Some? {
      KeptAnswer(logic, w, folded.value);
      FoldVersion(logic, version, w.stored.value, w.hist[1..]);
      AsksChangeNothing(logic, initial, StepAskRecover(logic, w, true), folded.value, writes);
    }
  }

  lemma KeptAnswer<S(!new), E(!new)>(logic: Logic<S, E>, w: World<S, E>, answer: S)
    requires RoundTrips(logic) && Inv(logic, w) && Stale(w) && w.stored.Some?
    requires Fold(logic, w.stored.value, w.hist[1..]) == Some(answer)
    requires logic.encodeState(answer, w.store.eventCounter).Some?
    ensures var v := StepAskRecover(logic, w, true);
            v.live == w.live && forall b :: RecoverSpec(logic, v.store, b) == (v.store, Ok(Some(answer)))
  {
    RecoverReplays(logic, w, true);
    forall b { RecoverTwice(logic, w.store, true, b); }
    hide RecoverSpec, Inv, Fold;
  }

  /** What a restart makes of any world a run can reach, whichever writes fail.
      The snapshot is usable when its replay succeeds and either has nothing to
      fold or can store the result. Then the live state is the fold; if not, it
      is that of a fresh actor, which replaces the snapshot exactly when it can
      be stored, and otherwise has nothing stored that agrees with it. */
  lemma RestartExact<S, E>(logic: Logic<S, E>, initial: S, w: World<S, E>, rw: bool, sw: bool)
    requires Inv(logic, w)
    ensures var v := StepRestart(logic, initial, w, rw, sw);
            var from := ReplayFrom(w.covered, |w.hist|);
            && from <= |w.hist| && v.hist == w.hist
            && var folded := if w.stored.Some? then Fold(logic, w.stored.value, w.hist[from..]) else None;
               var usable :=
                 && folded.Some?
                 && (from == |w.hist| || (rw && logic.encodeState(folded.value, w.store.eventCounter).Some?));
               var first := logic.encodeState(initial, w.store.eventCounter);
               && v.live == (if usable then folded.value else initial)
               && (v.lost <==> !usable && !(sw && first.Some?))
               && v.store.snapshot ==
                    if usable && from < |w.hist| then logic.encodeState(folded.value, w.store.eventCounter)
                    else if !usable && sw && first.Some? then first
                    else w.store.snapshot
  {
    HistLast(logic, w.store.log, w.hist);
    ReopenKeepsInv(logic, initial, w);
    var fresher := Reopened(initial, w);
    if w.stored.Some? {
      RecoverReplays(logic, fresher, rw);
      hide RecoverSpec, LogHolds, Fold;
    } else {
      hide LogHolds, Fold;
      assert RecoverSpec(logic, fresher.store, rw) == (fresher.store, Ok(None));
    }
  }

  /** The smallest harm: Recover fails only to rewrite the snapshot during a
      start, and the fresh actor's own state is stored over the one it could not
      use. Every event so far is out of reach of later recoveries. */
  lemma FailedRecoveryDiscards<S(!new), E(!new)>(logic: Logic<S, E>, initial: S, w: World<S, E>)
    requires RoundTrips(logic) && Inv(logic, w)
    requires w.stored.Some? && ReplayFrom(w.covered, |w.hist|) < |w.hist|
    requires logic.encodeState(initial, w.store.eventCounter).Some?
    ensures var v := StepRestart(logic, initial, w, false, true);
            && v.live == initial && v.hist == w.hist && v.covered == |w.hist|
            && RecoverSpec(logic, v.store, true).1 == Ok(Some(initial))
  {
    hide Fold, RecoverSpec;
    ReopenKeepsInv(logic, initial, w);
    RecoverReplays(logic, Reopened(initial, w), false);
    RestartKeepsInv(logic, initial, w, false, true);
    var v := StepRestart(logic, initial, w, false, true);
    assert v == Covered(v, initial);
    RecoverReplays(logic, v, true);
    CoveredFold(logic, initial, v.hist);
  }

  /** A snapshot that was written survives a restart: the actor comes back as it
      was, whatever happens to the writes of the start. */
  lemma SnapshotSurvivesRestart<S(!new), E(!new)>(logic: Logic<S, E>, initial: S, w: World<S, E>, rw: bool, sw: bool)
    requires RoundTrips(logic) && Inv(logic, w) && logic.encodeState(w.live, w.store.eventCounter).Some?
    ensures var stopped := StepSnapshot(logic, w, true);
            StepRestart(logic, initial, stopped, rw, sw).live == w.live
  {
    var stopped := StepSnapshot(logic, w, true);
    SnapshotKeepsInv(logic, w, true);
    assert stopped.covered == |stopped.hist| && stopped.stored == Some(w.live);
    CoveredFold(logic, w.live, stopped.hist);
    hide StepSnapshot, StepRestart, Fold, Inv;
    RestartExact(logic, initial, stopped, rw, sw);
  }

  // -------------------------------------------------- light persistence

  ghost predicate LightOps<E>(ops: seq<Op<E>>) {
    forall i | 0 <= i < |ops| :: !ops[i].PersistFull?
  }

  lemma {:induction false} LightHistory<S(!new), E(!new)>(logic: Logic<S, E>, initial: S, first: bool, ops: seq<Op<E>>)
    requires RoundTrips(logic) && LightOps(ops)
    ensures |Run(logic, initial, first, ops).hist| <= 1
    decreases |ops|
  {
    if ops != [] {
      LightHistory(logic, initial, first, ops[..|ops| - 1]);
    }
  }

  /** Under light persistence alone, every write free to fail, the log holds at
      most event 0, the counter stays 0, and Recover returns the state that was
      stored last. */
  lemma LightRecovery<S(!new), E(!new)>(logic: Logic<S, E>, initial: S, first: bool, ops: seq<Op<E>>, written: bool)
    requires RoundTrips(logic) && LightOps(ops)
    ensures var w := Run(logic, initial, first, ops);
            && w.store.log.Keys <= {0} && w.store.eventCounter == 0
            && RecoverSpec(logic, w.store, written).1 == Ok(w.stored)
  {
    hide Run, Fold;
    RunKeepsInv(logic, initial, first, ops);
    LightHistory(logic, initial, first, ops);
    var w := Run(logic, initial, first, ops);
    if w.stored.Some? {
      hide RecoverSpec;
      RecoverReplays(logic, w, written);
      CoveredFold(logic, w.stored.value, w.hist);
    }
  }

  /** `events` persisted one after the other, all stored. */
  ghost function FullOps<E>(events: seq<E>): seq<Op<E>> {
    seq(|events|, i requires 0 <= i < |events| => PersistFull(events[i], true))
  }

  ghost function RunFrom<S, E>(logic: Logic<S, E>, initial: S, w: World<S, E>, ops: seq<Op<E>>): World<S, E>
    decreases |ops|
  {
    if ops == [] then w else RunFrom(logic, initial, Step(logic, initial, w, ops[0]), ops[1..])
  }

  lemma {:induction false} FullRunFolds<S(!new), E(!new)>(
      logic: Logic<S, E>, initial: S, w: World<S, E>, events: seq<E>)
    requires RoundTrips(logic) && Inv(logic, w)
    requires Fold(logic, w.live, events).Some?
    requires forall i | 0 <= i < |events| :: logic.encodeEvent(events[i]).Some?
    ensures var v := RunFrom(logic, initial, w, FullOps(events));
            && Inv(logic, v) && Some(v.live) == Fold(logic, w.live, events) && v.hist == w.hist + events
            && v.covered == w.covered && v.missed == w.missed && v.lost == w.lost && v.stored == w.stored
    decreases |events|
  {
    hide Inv, StepFull;
    if events == [] {
      assert w.hist + events == w.hist;
    } else {
      var ops := FullOps(events);
      assert ops[0] == Op.PersistFull(events[0], true) && ops[1..] == FullOps(events[1..]);
      var next := StepFull(logic, w, events[0], true);
      FullKeepsInv(logic, w, events[0], true);
      FullStores(logic, w, events[0], true);
      FullRunFolds(logic, initial, next, events[1..]);
      assert w.hist + events == (w.hist + [events[0]]) + events[1..];
    }
  }

  /** After a light write of a state, later Full events recover to their fold
      from that state. */
  lemma LightThenFull<S(!new), E(!new)>(
      logic: Logic<S, E>, initial: S, first: bool, ops: seq<Op<E>>, event: E, events: seq<E>)
    requires RoundTrips(logic)
    requires forall i | 0 <= i < |events| :: logic.encodeEvent(events[i]).Some?
    ensures var w := Run(logic, initial, first, ops);
            logic.apply(w.live, event).Some? && StateEncodes(logic, w, event) ==>
              var v := Step(logic, initial, w, Op.PersistLight(event, true, true));
              var folded := Fold(logic, v.live, events);
              var end := RunFrom(logic, initial, v, FullOps(events));
              folded.Some? && logic.encodeState(folded.value, end.store.eventCounter).Some? ==>
                RecoverSpec(logic, end.store, true).1 == Ok(folded) && folded == Some(end.live)
  {
    RunKeepsInv(logic, initial, first, ops);
    var w := Run(logic, initial, first, ops);
    if logic.apply(w.live, event).Some? && StateEncodes(logic, w, event) {
      var v := Step(logic, initial, w, Op.PersistLight(event, true, true));
      LightKeepsInv(logic, w, event, true, true);
      assert v.covered == |v.hist| > 0;
      if Fold(logic, v.live, events).Some? {
        FullRunFolds(logic, initial, v, events);
        var end := RunFrom(logic, initial, v, FullOps(events));
        RecoverReplays(logic, end, true);
      }
    }
  }
}
