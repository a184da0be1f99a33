# Verified model of Rush

Rush is an actor library with event-sourced persistence. This project models, in Dafny 4.11, the three parts of it
that carry protocol or data invariants, and proves properties of the model:

1. the event-sourcing store: the database handles it writes to, the decimal keys of its log, its commands, and the
   persistent actor that relies on it to get its state back;
2. the life of an actor: its six-state lifecycle, its select loop over four queues, supervision, the stop protocol over
   the actor tree, the shutdown of the system, and the retry actor;
3. actor paths and the relations between them.

`dafny verify dfyconfig.toml` checks the whole project.

## How it is built

| file | models |
|---|---|
| `Ordering.dfy` | lexicographic order, and the enumeration of a set of strings in that order (`BTreeMap` iteration) |
| `EventKeys.dfy` | `format!("{:020}", n)` and `parse::<u64>` |
| `Memory.dfy` | `MemoryManager`, `MemoryStore` and the shared tables behind the handles |
| `Database.dfy` | `Collection::last` and `Collection::get_by_range` |
| `StoreSpec.dfy`, `Store.dfy` | the store's commands as functions of (counters, log, snapshot), and the class whose methods are proved against them |
| `StoreRuns.dfy` | what every run of commands keeps; what `recover` computes |
| `PersistentActor.dfy`, `Recovery.dfy` | `persist`, `snapshot`, `start_store`, `stop_store`; recovery over whole runs |
| `ActorPath.dfy` | parsing, printing, ancestry |
| `Supervision.dfy`, `Retries.dfy` | retry strategies and the retry actor |
| `Lifecycle.dfy`, `Runner.dfy` | one runner's state and turns as functions, and the class with `init` and `run` proved against them |
| `RunnerProperties.dfy`, `LifecycleProperties.dfy` | what every interleaving of turns keeps |
| `Transcript.dfy` | what a run amounts to, read off its turns alone: hooks, emissions, answers, verdicts, lifecycle |
| `FaultDeadlock.dfy` | a supervisor and a child turn by turn: a stop against a fault verdict |
| `ActorTree.dfy`, `Shutdown.dfy` | the tree of actors, how starts make it grow, what a stop request does to it |
| `ActorSystem.dfy`, `SystemRuns.dfy` | the registry and the roots as the object that creations, stops and the shutdown task change; what every run of them keeps |
| `CreationOrder.dfy` | the history of creations, and the order of removal read off it |

The actor's own code is a parameter. `apply` is a partial function, serialisation is an encode/decode pair in which
decoding inverts encoding, and either may refuse a value. Whether a write reaches the database is an input of the
method that makes it, so a theorem about all inputs is a theorem about every pattern of failures. A hook of an actor is
represented by its outcome and by the list of things it did through its context (publish, emit an error, emit a fault,
ask to stop); a sequence of turns fixes one interleaving of the queues. A select loop can be between two branches,
waiting for a verdict, or waiting for its children to stop; what arrives in the meantime is a turn of its own.

In the tree of a stop request an actor may be running, closed, waiting for a fault verdict, or ending: it has taken an
earlier request and is in `stop_childs`. It drops the new request unread, but only when its own children have stopped,
so whoever sent it waits for them too (actor/src/actor.rs:158-167). What ending actors take out of the registry they
take out by themselves; the order theorems are about what the request itself causes. A child that waits for a verdict
gets one from a supervisor at work and none from one in its stop branch.

A call that creates an actor carries the calls its start hook makes, since `PersistentActor::start_store` creates a
child inside a start (store/src/store.rs:292). `orphans` is not in the program: it collects the running actors for which
no stop sender is left, because the start that created them failed or because the shutdown task waits for them in vain.

`Recovery.World` follows a run with history variables that are not in the program: the events in the log, how many of
them the stored snapshot covers, how many applied events storage does not account for since it last agreed with the live
state (`missed`), whether the last start failed to store anything it could agree with (`lost`), and the state stored last.

## What does not hold as documented

These are proved of the code as it is.

- Recovery does not always return the live state. Counter 0 stands both for an empty log and for a log holding event 0,
  so a snapshot taken on an empty log hides event 0 from replay. `start_store` takes exactly such a snapshot of every
  new actor, and until the next snapshot a crash forgets the first event (`Recovery.FirstEventForgotten`).
  `Recovery.RecoveryReturnsLiveIff` gives the exact condition.
- A Recover asked of the store over such a snapshot makes its own answer the new snapshot, and the loss can no longer be
  seen in storage (`Recovery.StaleRecoverIsKept`).
- The comment on `PersistentActor::persist` (store/src/store.rs:160) promises a rollback when the write fails. The code
  rolls back only when `apply` fails. `Recovery.FailedPersist` says for every failure where the live state is and what
  Recover returns.
- `start_store` treats a failed recovery like an empty database and stores the fresh actor's state over the snapshot
  (`Recovery.FailedRecoveryDiscards`); `Recovery.RestartExact` says exactly when.
- Persist can overwrite an event: event 0, when it is alone in the log and cannot be decoded
  (`StoreRuns.PersistOverwritesIff`), as under another password (`StoreRuns.ForeignEventOverwritten`).
- A root actor whose start failed once and was retried with success keeps its error. Every later stop is taken for a
  failure and leads to another restart, until as many restarts in a row have failed as its strategy allows
  (`LifecycleProperties.ErroredRootEndsIff`), and the restarted actor is no longer registered
  (`LifecycleProperties.NeverReregistered`).
- A fault is the last thing an actor processes, root or child, whatever restarts follow (`LifecycleProperties.FaultIsLast`).
- A child restarted on its supervisor's verdict starts again but never processes another message, event or report: the
  verdict also set the stop signal, which nothing resets (`LifecycleProperties.RestartedChildIsDeaf`). It waits for a
  stop request that may never come (`LifecycleProperties.RestartedChildWaits`).
- A custom backoff never gets past its first duration during supervision, because the strategy is made anew for each
  attempt (`LifecycleProperties.WaitsAreFirst`). The retry actor, which keeps its strategy, waits the durations in order.
- A retry actor without an interval makes one attempt however many it is allowed, and reports nothing
  (`Retries.RetryRuns`).
- A supervisor in its stop branch and a child that waits for its verdict wait for each other forever
  (`FaultDeadlock.DeadlockIff`), and so does everything that waits for the supervisor (`Shutdown.StopCompletesIff`).
- A start that fails takes back its own path only. The children its hook has created stay registered and running, the
  stops of their ancestors do not reach them, and they survive a completed shutdown (`SystemRuns.OrphanSurvives`).
  `ActorTree.LeavesNoneIff` says which starts leave actors behind; with names of one token nothing else does
  (`SystemRuns.StopLeavesOrphans`).
- A path is below another by its tokens, not by the tree: an actor whose name holds a slash outlives the actor its path
  is below (`SystemRuns.SlashNameStays`), and a root with a blank name is above all others
  (`SystemRuns.BlankNameIsAbove`).
- A root that anyone has stopped keeps the later shutdown from completing: its closed channel ends the task
  (`SystemRuns.StoppedRootEndsShutdown`).

## Model

| member | source | states |
|---|---|---|
| EventKeys.ParseKey | store/src/store.rs:411-412 | parsing a 20-digit key gives back its event number, for every u64 |
| EventKeys.KeyInjective | store/src/store.rs:477 | two event numbers never share a key |
| EventKeys.KeyOrder | store/src/store.rs:477 | zero padding turns numeric order into the lexicographic order of the map, both directions |
| EventKeys.UnpaddedOrderFails | store/src/store.rs:477 | without the padding the order of the map is not the order of the events |
| Ordering.AscendingUnique | store/src/memory.rs:236-243 | a set of keys has exactly one strictly ascending enumeration, so the iteration order of the map is determined |
| Memory.MemoryManager.Create | store/src/memory.rs:53-79 | a handle for a known (name, prefix) shares its table; otherwise the table is new and empty; no two pairs share one |
| Memory.SharedIff | store/src/memory.rs:34-45 | two handles share data exactly when their names and their prefixes agree |
| Memory.MemoryStore.Get | store/src/memory.rs:155-168 | reading is lookup in the map of bare keys, with EntryNotFound for a missing key |
| Memory.MemoryStore.Put | store/src/memory.rs:170-179 | writing updates the map of bare keys at that key and nowhere else; a failed write changes nothing |
| Memory.MemoryStore.Del | store/src/memory.rs:181-193 | deleting removes that bare key only and says whether it was there |
| Memory.MemoryStore.Purge | store/src/memory.rs:195-210 | every row under the prefix goes, every other row stays, and a collection is left empty |
| Memory.MemoryStore.Iter | store/src/memory.rs:212-240 | iteration lists the map of bare keys in ascending order, or exactly the reverse of that |
| Memory.ItemsSpec | store/src/memory.rs:228-240 | forward iteration is strictly ascending and lists each entry of the map once |
| Memory.SlicingInBoundsIff | store/src/memory.rs:219-224 | cutting off `prefix.`, which counts bytes, is in bounds exactly when every row under the prefix goes on after it with a one-byte character; a row under the bare prefix does not |
| Memory.PrefixedSliceable | store/src/memory.rs:219-224 | every row a collection stores is cut in bounds, right after the dot |
| Memory.MemoryStore.GetState | store/src/memory.rs:95-107 | the state under the prefix, or EntryNotFound |
| Memory.MemoryStore.PutState | store/src/memory.rs:109-117 | replaces the one state; a failed write keeps the old one |
| Database.Last | store/src/database.rs:229-234 | the entry with the greatest key, and none exactly for the empty collection |
| Database.GetByRange | store/src/database.rs:282-331 | the first abs(q) values strictly beyond the cursor in the direction of q, and EntryNotFound exactly when the cursor is absent |
| Database.BeyondIsRest | store/src/database.rs:300-313 | the entries whose keys lie beyond a cursor are what iteration yields after it, in both directions |
| Database.PageHolds | store/src/database.rs:314-330 | a page holds the values beyond the cursor in order, as many as asked for or as there are |
| Database.PageFailsIff | store/src/database.rs:300-313 | a page is refused, with EntryNotFound, exactly when no entry has the cursor for its key |
| Database.PagesConcatenate | store/src/database.rs:282-331 | a page of n followed by a page of m from the last key read is the page of n + m |
| Store.LastIsNewest | store/src/store.rs:411-415 | the last key of the map parses to the greatest event number of the log |
| Store.LogPut | store/src/store.rs:476-477 | writing one decimal key changes one event of the log |
| Store.TableNamesDiffer | store/src/store.rs:405-408 | the event table and the state table of a store are never the same, whatever the names |
| Store.OpenTables | store/src/store.rs:405-408 | opening finds the log and the snapshot that the database holds, in two separate tables |
| Store.LastNumber | store/src/store.rs:411-415 | the last key as a number: the greatest event number on a log, and the fallback on any other keys |
| Store.Store.constructor | store/src/store.rs:385-427 | whatever keys the collection holds, the counter is the last one as a number or zero; on what a store left it is the last event's number, with that log and snapshot |
| Store.Store.Persist | store/src/store.rs:439-486 | numbers and writes the event, and moves the counter only if the write succeeds |
| Store.Store.PersistState | store/src/store.rs:501-529 | writes the snapshot and then the event at the current counter, each error in its place |
| Store.Store.LastEvent | store/src/store.rs:539-567 | the decoded event with the greatest number, an error if it cannot be decoded |
| Store.Store.GetState | store/src/store.rs:569-601 | the decoded snapshot and its counter; none when nothing is stored |
| Store.Store.EventsBetween | store/src/store.rs:604-642 | the reading loop yields the decoded events of the range up to the first gap |
| Store.Store.Snapshot | store/src/store.rs:654-680 | the counter is taken before anything can fail; the snapshot is replaced only by a successful write |
| Store.Store.Replay | store/src/store.rs:716-721 | the replay loop is the left fold of `apply` |
| Store.Store.Recover | store/src/store.rs:690-738 | every branch of recovery: both counters, the result and the stored snapshot |
| Store.Store.Purge | store/src/store.rs:746-750 | events first and then the snapshot; the counter stays |
| Store.Store.Handle | store/src/store.rs:845-927 | each command does what its function says and answers with its response |
| StoreRuns.LogInvariant | store/src/store.rs:464-485 | over every run of commands and reopenings with failing writes, the log is an unbroken interval ending at the counter, and LastEventNumber is its greatest key |
| StoreRuns.PersistOverwritesIff | store/src/store.rs:465-471 | Persist overwrites an event exactly when event 0 is alone and undecodable |
| StoreRuns.ForeignEventOverwritten | store/src/store.rs:465-471 | the input: event 0 written under one logic, the store reopened under another that cannot read it |
| StoreRuns.SealedApart | store/src/store.rs:455-462 | two such logics, each a round trip of its own, differing in their key |
| StoreRuns.PersistAppends | store/src/store.rs:439-486 | in runs over decodable events Persist adds one new event at the end, which LastEvent then returns, or changes nothing |
| StoreRuns.EventsExact | store/src/store.rs:604-642 | reading a range yields exactly the events before the first gap, and fails exactly when one of them cannot be decoded |
| StoreRuns.RecoverExact | store/src/store.rs:690-738 | for any snapshot (s, c) and any log: the state itself on an empty one, else the fold over the events after c up to the first gap, the failures, and when the snapshot is rewritten |
| StoreRuns.RecoverTwice | store/src/store.rs:690-738 | a second Recover returns the same state and changes nothing |
| StoreRuns.PurgeClears | store/src/store.rs:746-750 | what each pattern of failing writes leaves; after a successful purge nothing is recovered or listed and reopening is opening a new store; the counters stay |
| StoreRuns.PersistAfterPurge | store/src/store.rs:464-485 | the next event after a purge goes on from the counter |
| StoreRuns.RangesExact | store/src/store.rs:604-642 | GetEvents and LastEventsFrom return the range up to its first gap or a decode error, and change nothing |
| StoreRuns.LastEventsComplete | store/src/store.rs:604-642 | over an unbroken readable log LastEventsFrom misses nothing |
| StoreRuns.SnapshotIsRecovered | store/src/store.rs:654-680 | a snapshot is answered with Snapshotted exactly when it was stored, and is then what Recover returns |
| StoreRuns.LightIsRecovered | store/src/store.rs:501-529 | a light write answered with Persisted is recovered, its event is the last, no other changes |
| StoreRuns.FoldConcat | store/src/store.rs:716-721 | replaying two stretches of events is replaying the second over the result of the first |
| PersistentActor.PersistentActor.Persist | store/src/store.rs:181-225 | the event is applied, then stored as the strategy asks; only a refused event restores the state |
| PersistentActor.PersistentActor.TakeSnapshot | store/src/store.rs:241-258 | asks for a snapshot of the live state and succeeds whatever the store answers |
| PersistentActor.PersistentActor.StartStore | store/src/store.rs:277-305 | opens what the database holds, recovers, and otherwise snapshots the actor as it is; the database then holds what the store sees |
| PersistentActor.PersistentActor.StopStore | store/src/store.rs:320-334 | a full-persistence actor leaves a last snapshot; the store is gone afterwards |
| Recovery.RestartIsActorStart | store/src/store.rs:277-305 | the restart step of a run is `start_store` on what is stored |
| Recovery.RunKeepsInv | store/src/store.rs:181-225 | the relation between live state, log, counters and snapshot that every operation keeps, all writes free to fail |
| Recovery.RecoverReplays | store/src/store.rs:690-738 | recovery is the stored state folded over the events it does not cover, and never over event 0 |
| Recovery.RecoveryReturnsLive | store/src/store.rs:181-225 | over every run, recoveries asked by others included, if storage accounts for every applied event and the snapshot is not stale, Recover returns the live state and no replayed event fails |
| Recovery.RecoveryReturnsLiveIff | store/src/store.rs:465-471 | for an actor whose state counts its events that condition is exact |
| Recovery.StaleSkipsFirst | store/src/store.rs:706-710 | with a snapshot from the empty log, Recover folds every event but the first |
| Recovery.FirstEventForgotten | store/src/store.rs:297-302 | the smallest such run: one event after the first start is lost by a crash |
| Recovery.StaleRecoverIsKept | store/src/store.rs:724-726 | a Recover over a stale snapshot stores its answer; every later Recover, however many, returns it, and for an actor that counts its events it is not the live state |
| Recovery.FailedPersist | store/src/store.rs:197-218 | after any failing persist of either kind: the live state moved unless `apply` refused, and Recover follows it exactly when the kind is light and the state was written |
| Recovery.RestartExact | store/src/store.rs:277-305 | for every pattern of writes: the live state after a restart, when the snapshot is replaced by the fresh actor's, and when nothing agrees with it |
| Recovery.FailedRecoveryDiscards | store/src/store.rs:297-302 | a recovery that only fails to rewrite its snapshot makes the next start store the fresh state over all events so far |
| Recovery.SnapshotSurvivesRestart | store/src/store.rs:320-334 | a last snapshot that was written brings the actor back as it was, whatever happens to the writes of the start |
| Recovery.LightRecovery | store/src/store.rs:501-529 | under light persistence the log holds at most event 0, the counter is 0, and Recover returns the state stored last |
| Recovery.FullRunFolds | store/src/store.rs:181-225 | persisted events move the live state by their fold and the log by themselves |
| Recovery.LightThenFull | store/src/store.rs:501-529 | after a light write, later full events recover to their fold from that state |
| ActorPath.BuiltClean | actor/src/path.rs:176-213 | every path built by `From` or `/` has non-blank, slash-free tokens |
| ActorPath.ParsePrint | actor/src/path.rs:176-224 | parsing a printed path gives it back |
| ActorPath.ParseDiv | actor/src/path.rs:200-213 | parsing print(p), a slash and any string is p / s |
| ActorPath.PrintIdempotent | actor/src/path.rs:176-224 | printing after parsing normalises once and for all |
| ActorPath.ParentOfDiv | actor/src/path.rs:43-51 | `parent` undoes `/` exactly when the string holds one token, or none at the empty path |
| ActorPath.AtLevelCuts | actor/src/path.rs:83-95 | the branches of `at_level` all cut the path to its first tokens |
| ActorPath.AncestorIsPrefix | actor/src/path.rs:117-120 | the test on printed strings is the strict prefix relation on tokens |
| ActorPath.EmptyHasNoDescendants | actor/src/path.rs:117-120 | the empty path is an ancestor of nothing |
| ActorPath.DescendantIsConverse | actor/src/path.rs:132-135 | descent is the converse of ancestry, which is transitive and antisymmetric |
| ActorPath.ParentIsNearestAncestor | actor/src/path.rs:147-163 | for a non-empty path, parent means ancestor one level up, and child is its converse |
| ActorPath.EmptyIsParentOfTop | actor/src/path.rs:147-149 | the empty path counts as parent of itself and of every one-token path |
| Supervision.CustomInOrder | actor/src/supervision.rs:216-231 | a kept custom strategy hands out its durations in order and then none |
| Retries.RetryActor.HandleMessage | actor/src/retries.rs:86-144 | the new counters and the effects of each message, in order |
| Retries.SendsBounded | actor/src/retries.rs:92-104 | over every stream of messages at most the remaining attempts are sent |
| Retries.NothingAfterEnd | actor/src/retries.rs:137-141 | nothing is sent after End |
| Retries.StreamExact | actor/src/retries.rs:86-144 | over every stream of messages: exactly how many attempts reach the target, how many find no own reference, how often the limit is reported, and that every End stops the actor |
| Retries.RetryRuns | actor/src/retries.rs:92-136 | driven by its own rescheduling: n attempts and one error for a fixed interval, the custom durations in order, one silent attempt without an interval |
| Runner.ActorRunner.constructor | actor/src/runner.rs:63-98 | a runner starts registered, in Created, with empty queues |
| Runner.ActorRunner.Init | actor/src/runner.rs:101-203 | the lifecycle loop with the select loop inside it takes exactly the given turns |
| Runner.ActorRunner.Run | actor/src/runner.rs:212-273 | the select loop takes turns until the stop branch is taken |
| Runner.ActorRunner.Advance | actor/src/runner.rs:121-199 | one state of the lifecycle loop |
| Runner.ActorRunner.Select | actor/src/runner.rs:237-270 | one turn of the select loop that does not end it |
| Runner.ActorRunner.StopBranch | actor/src/runner.rs:217-224 | the stop branch up to the wait for the children |
| Runner.ActorRunner.EndRun | actor/src/runner.rs:225-235 | the rest of the stop branch and the error check after it |
| Runner.ActorRunner.CallPreStop | actor/src/runner.rs:219-222 | a failing `pre_stop` sets the error and emits a fault |
| Runner.ActorRunner.InnerHandle | actor/src/runner.rs:276-325 | events are broadcast, errors and faults go to the parent, and a fault waits for its verdict |
| Runner.ActorRunner.EndFault | actor/src/runner.rs:325-338 | a verdict cleans the error and may order a restart; with or without one the actor is to stop |
| Runner.ActorRunner.ApplySupervisionStrategy | actor/src/runner.rs:345-383 | stop, restart, failed restart and exhausted retries |
| Runner.ActorRunner.CallPreStart | actor/src/runner.rs:124-144 | `pre_start` leads to Started or, with the error set, to Failed |
| Runner.ActorRunner.Arrive | actor/src/handler.rs:186-237 | tell and ask append to the mailbox, child errors and stop requests to their channels |
| RunnerProperties.QueuesAreFifo | actor/src/runner.rs:212-273 | for every interleaving: messages, inner actions, child reports and stop requests are taken in the order they came, broadcasts are a prefix of the events emitted, each handled ask gets one reply, each stop request taken is acknowledged once |
| RunnerProperties.ExecConserves | actor/src/handler.rs:98-112 | what was put on each queue is what came out of it followed by what still waits |
| RunnerProperties.StopSignalIsFinal | actor/src/runner.rs:237-263 | once the stop signal is set nothing is processed again, restarts included |
| LifecycleProperties.LifecycleSignalling | actor/src/runner.rs:146-199 | one startup signal at most, true exactly when Started was entered, sent and unregistered at the end; `post_stop` at most once and last |
| Transcript.RunAgrees | actor/src/runner.rs:101-383 | over every run: the hooks called, the emissions, the error carried, the lifecycle and the count of restarts are those that the sequence of turns says |
| Transcript.RunFlags | actor/src/runner.rs:212-340 | over every run: which stop requests are made, when the stop signal is set, when the path leaves the registry, and where the select loop stands |
| Transcript.RunAnswers | actor/src/runner.rs:237-268 | over every run: each ask handled is answered with the result of its own message, each fault taken with the action decided for it |
| Transcript.RunBroadcasts | actor/src/runner.rs:276-325 | over every run: the broadcasts are the events, and what the parent gets the errors and faults, among the emissions taken so far |
| Transcript.PostStopIff | actor/src/runner.rs:168-199 | over every run: an actor that has ended called `post_stop` last exactly when it has been in Stopped, as every root has; one that went from Failed to its end did not |
| Transcript.VerdictDecides | actor/src/runner.rs:325-338 | what becomes of a child when it stops after its verdict: failed, restarted exactly when that was ordered, or stopped for good; a verdict clears its error |
| Transcript.RestartNeedsOrder | actor/src/runner.rs:325-338 | over every run of a child: without a verdict that orders it there is no restart and no `pre_restart` |
| LifecycleProperties.StartupBound | actor/src/runner.rs:345-383 | a start takes at most max_retries + 5 turns, one `pre_start`, at most max_retries restarts and waits; a child retries nothing |
| LifecycleProperties.WaitsAreFirst | actor/src/runner.rs:345-371 | over every run, every wait before a restart is the first wait of the strategy |
| LifecycleProperties.StartingTurn | actor/src/runner.rs:120-186 | every turn of a start uses up a measure over lifecycle and retries |
| LifecycleProperties.StartingGoesOn | actor/src/runner.rs:120-186 | a start that has not ended has a turn left, whatever its hook answers |
| LifecycleProperties.SignalledRunCanStop | actor/src/runner.rs:237-273 | a first run whose stop signal is set has begun its stop branch or has a stop request to take |
| LifecycleProperties.FaultIsLast | actor/src/runner.rs:308-338 | over every run of a root or a child: once a fault has been taken nothing is processed again, in this run or a later one |
| LifecycleProperties.RestartedChildIsDeaf | actor/src/runner.rs:308-338 | over every run of a child: once restarted it processes nothing again, because the verdict set the stop signal |
| LifecycleProperties.RestartedChildWaits | actor/src/runner.rs:308-338 | a child ordered to restart comes to run again with no stop request left |
| LifecycleProperties.StartedChild | actor/src/runner.rs:121-160 | a new child that starts and is sent a message is such a child |
| LifecycleProperties.StopIsFinalIff | actor/src/runner.rs:146-157 | a stop leads to Stopped exactly when the actor carries no error, no restart was ordered, and `pre_stop` neither fails nor emits a fault |
| LifecycleProperties.ErroredRootEndsIff | actor/src/runner.rs:345-383 | a root that carries an error ends exactly when as many restarts in a row have failed as are allowed and it is asked for one more |
| LifecycleProperties.RestartedRootNeverEnds | actor/src/runner.rs:146-157 | a root that still carries an error never ends while its restarts succeed |
| LifecycleProperties.FailedStartIsUnstoppable | actor/src/runner.rs:130-142 | one failed `pre_start` and one successful restart lead there |
| LifecycleProperties.NeverReregistered | actor/src/runner.rs:224-225 | after the stop branch the path stays out of the registry |
| FaultDeadlock.DeadlockIsForever | actor/src/runner.rs:310-325 | for every sequence of turns of both: a supervisor waiting for a child to stop and a child waiting for its verdict never go on, and no stop request is answered |
| FaultDeadlock.DeadlockIff | actor/src/actor.rs:158-167 | a supervisor can leave its stop branch exactly when the child it has asked to stop does not wait for its verdict, wherever else that child is |
| FaultDeadlock.ChildEnds | actor/src/runner.rs:120-199 | a child with a stop request, or past its loop, can end without its supervisor |
| FaultDeadlock.FaultIsReported | actor/src/runner.rs:308-325 | a fault taken by a child is put on its supervisor's queue, and the child waits |
| FaultDeadlock.DecisionIsHeard | actor/src/runner.rs:241-246 | what the supervisor decides on a fault is what the child can hear, and nothing else |
| FaultDeadlock.ServedChildEnds | actor/src/runner.rs:237-247 | while its supervisor is at work a child that waits for a verdict gets it and can end, whatever it is |
| FaultDeadlock.FaultThenStop | actor/src/runner.rs:217-244 | the input: a fault reported just before the supervisor takes a stop request |
| FaultDeadlock.FreeChildAnswers | actor/src/runner.rs:217-235 | a child between two branches answers, and its supervisor goes on |
| ActorTree.CreateConserves | actor/src/system.rs:174-214 | every path a creation adds to the registry is that of a new running actor, in the tree or left behind by a failed start |
| ActorTree.LeavesNoneIff | actor/src/runner.rs:175-199 | a start leaves actors behind exactly when one that fails had created a child that started |
| ActorTree.OrderlyLeavesNone | actor/src/runner.rs:175-199 | otherwise none, whatever is registered and however it is named |
| ActorTree.BelowIsInside | actor/src/actor.rs:295-311 | with names of one token the registered paths below an actor are those of its subtree |
| ActorSystem.System.Stop | actor/src/runner.rs:217-235 | the events, the registry, the tree that is left and the answer after a stop request, whatever the state of the actor and of its supervisor |
| ActorSystem.System.StopActor | actor/src/actor.rs:704-714 | the same from a reference, with the actor changed in the tree |
| ActorSystem.System.StopChilds | actor/src/actor.rs:158-167 | the loop stops children youngest first, waits for each and skips closed ones |
| ActorSystem.System.RunShutdown | actor/src/system.rs:127-141 | the shutdown task: events, registry, roots left, outcome, and StopSystem sent once or not at all |
| ActorSystem.System.CreateActorPath | actor/src/system.rs:174-214 | an existing path is refused; the start hook creates children of its own; a start that fails takes back its own path and leaves theirs |
| ActorSystem.System.CreateRootActor | actor/src/system.rs:234-250 | the same at the user path, a root that started being the newest |
| ActorSystem.System.CreateChild | actor/src/actor.rs:295-311 | the same for a child, which becomes the youngest of its parent |
| Shutdown.StopCompletesIff | actor/src/actor.rs:158-167 | a stop request is answered exactly when no actor that has to answer waits for the verdict of a stopping supervisor, those below an actor already ending included |
| Shutdown.StopOrder | actor/src/runner.rs:217-235 | the removals a request causes are the exact reverse of creation order over the running subtree; `pre_stop` runs parent first |
| Shutdown.AcknowledgedLast | actor/src/runner.rs:224-229 | the acknowledgement comes after every removal the request causes |
| Shutdown.StopConserves | actor/src/actor.rs:158-167 | whatever a request can do, every actor is gone from the registry or runs in the tree that is left, once |
| Shutdown.StopTwice | actor/src/actor.rs:158-167 | a second request causes nothing, is answered as the first was, and leaves the tree as it is |
| SystemRuns.WaitingBlocksStops | actor/src/actor.rs:158-167 | no stop is answered while an actor below waits for a verdict |
| Shutdown.SubtreeLeavesRegistry | actor/src/system.rs:257-260 | by the time a request is answered the registry has lost the subtree, ending actors included, and nothing else |
| SystemRuns.RunKeepsRegistered | actor/src/system.rs:174-260 | over every run of creations with failing starts, stops, faults, verdicts and shutdown, the registry is the running actors, each once |
| CreationOrder.RunInOrder | actor/src/actor.rs:295-311 | over every run, start hooks included: running siblings stand in the order of their creation, read off a history of all creations |
| CreationOrder.ChildIsYoungest | actor/src/actor.rs:309 | a child that starts becomes the last of its parent's children, the others stay as they were |
| CreationOrder.StopByAge | actor/src/actor.rs:158-167 | over every run an answered stop removes in reverse of the history: of two paths the lower one first, otherwise the one on the younger branch |
| CreationOrder.YoungerSiblingFirst | actor/src/actor.rs:158-167 | so of two siblings the one created later goes first |
| SystemRuns.VerdictUndoesFault | actor/src/runner.rs:308-338 | a fault makes an actor wait where it stands, and the verdict makes everything as it was |
| SystemRuns.StopLeavesOrphans | actor/src/system.rs:257-260 | with names of one token, after an answered stop the paths below the actor that are still registered are exactly those left by failed starts |
| SystemRuns.OrderlyRunLeavesNone | actor/src/runner.rs:175-199 | over every run in which no failing start has created a child, there are none |
| SystemRuns.OrphanSurvives | actor/src/runner.rs:130-142 | the input: a child whose hook creates an actor and then fails; that actor survives the stop of the root and a completed shutdown |
| SystemRuns.SlashNameStays | actor/src/system.rs:242-246 | two roots, one name with a slash: the second stays registered below the first when that has stopped |
| SystemRuns.BlankNameIsAbove | actor/src/system.rs:242-246 | the same with a blank name, whose root sits above all others |
| SystemRuns.ShutdownCompletesIff | actor/src/system.rs:127-141 | StopSystem is sent exactly when no root's channel is closed and no actor waits in vain; then the actors stopped went newest root first |
| SystemRuns.ShutdownLeavesOrphans | actor/src/system.rs:127-141 | over every run, a completed shutdown leaves registered exactly what has been left behind |
| SystemRuns.ClosedRootEndsShutdown | actor/src/system.rs:133-134 | the first closed root ends the task: newer roots are stopped, older ones get no request |
| SystemRuns.StoppedRootEndsShutdown | actor/src/system.rs:133-134 | once a root has been stopped, no shutdown completes |
| Shutdown.ClosedChildIsSkipped | actor/src/actor.rs:161-162 | among children a closed channel is only skipped, wherever it stands |

## Left out

- Encryption and bincode: one abstract encode/decode pair stands for both; unlocking the key and its failures are not modelled.
- The RocksDB and SQLite backends: `MemoryStore` is the concrete database, with writes that may fail for any reason.
- Failing reads, poisoned locks and partly executed writes or purges of a backend.
- The race between the check and the insertion in `create_actor_path`: registry operations are atomic.
- Channel capacity: the stop channel holds 100 requests in the source and any number here.
- Real time: a wait is recorded, not waited for.
- Counters at the top of u64: persisting requires that the next number still fits.
- Recovery after Purge: the retained counter breaks the relation between snapshot and log once the store is reopened; Purge is covered by the log invariant only.
- Children created while their parent is already stopping: no stop request reaches them.
- The status of an actor in the tree is the one it has when the request reaches it; a child that comes to wait for a verdict later is covered turn by turn in `FaultDeadlock`.
- Restarts inside the tree: a running actor is taken to end when it stops and to be registered until then. One that restarts instead answers a second request in its next run, and a restart that fails leaves its children behind as a failed start does.
- Database.GetByRange: asks for a quantity above the least isize, whose absolute value the source cannot form.
- Recovery.RecoveryReturnsLiveIff: says nothing of an actor whose last start could not recover and then could not store its own first snapshot, because the live state then has no relation to the database until the next stored snapshot.
- Type erasure, downcasting, helpers, sinks, broadcast lag, error texts, logging and deprecated aliases.
- Lists of children by path (`SystemRef::children`): a filter of the registry by `is_child_of`, whose meaning is proved.
