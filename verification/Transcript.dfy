/** What a run of an actor amounts to, read off the sequence of its turns: which
    hooks were called, what was emitted and answered, and where the lifecycle
    stands. A turn says which branch was taken and how the actor's code answered;
    nothing here refers to the state a turn finds. */
module Transcript {
  import opened Wrappers
  import opened Supervision
  import opened Lifecycle
  import opened RunnerProperties
  import opened LifecycleProperties

  // ---------------------------------------------------- what turns record

  /** The events, errors and faults that an actor emits. */
  function Emits<V>(effects: seq<Effect<V>>): seq<InnerAction<V>>
    decreases |effects|
  {
    if effects == [] then []
    else
      Emits(effects[..|effects| - 1]) +
      match effects[|effects| - 1]
      case Publish(v) => [Event(v)]
      case EmitError(x) => [Error(x)]
      case EmitFail(x) => [Fail(x)]
      case RequestStop => []
  }

  /** The fault emitted last. */
  function LastFault<V>(effects: seq<Effect<V>>): Option<ActorError>
    decreases |effects|
  {
    if effects == [] then None
    else if effects[|effects| - 1].EmitFail? then Some(effects[|effects| - 1].error)
    else LastFault(effects[..|effects| - 1])
  }

  /** The stops an actor asks of itself. */
  function StopsIn<V>(effects: seq<Effect<V>>): seq<Option<nat>>
    decreases |effects|
  {
    if effects == [] then []
    else StopsIn(effects[..|effects| - 1]) + if effects[|effects| - 1].RequestStop? then [None] else []
  }

  /** The supervisor's strategy allows another restart after these turns. */
  predicate Retries<M, V, R>(strategy: SupervisionStrategy, turns: seq<Turn<M, V, R>>) {
    FailedInARow(turns) < Limit(strategy)
  }

  /** The hook a turn calls. */
  function HookOf<M, V, R>(strategy: SupervisionStrategy, before: seq<Turn<M, V, R>>, t: Turn<M, V, R>): seq<Hook> {
    match t
    case CallPreStart(_, _) => [PreStart]
    case Supervise(_, _) => if Retries(strategy, before) then [PreRestart] else []
    case TakeStop(_, _) => [PreStop]
    case CallPostStop(_) => [PostStop]
    case _ => []
  }

  /** What the actor's code does through its context during a turn. */
  function EffectsOf<M, V, R>(
      strategy: SupervisionStrategy, before: seq<Turn<M, V, R>>, t: Turn<M, V, R>): seq<Effect<V>>
  {
    match t
    case CallPreStart(effects, _) => effects
    case Supervise(effects, _) => if Retries(strategy, before) then effects else []
    case TakeStop(effects, failed) => effects + if failed then [EmitFail(STOP_ERROR)] else []
    case CallPostStop(effects) => effects
    case TakeReport(effects, _) => effects
    case TakeMessage(effects, _) => effects
    case _ => []
  }

  function Hooks<M, V, R>(strategy: SupervisionStrategy, turns: seq<Turn<M, V, R>>): seq<Hook>
    decreases |turns|
  {
    if turns == [] then []
    else
      var before := turns[..|turns| - 1];
      Hooks(strategy, before) + HookOf(strategy, before, turns[|turns| - 1])
  }

  function Emitted<M, V, R>(strategy: SupervisionStrategy, turns: seq<Turn<M, V, R>>): seq<InnerAction<V>>
    decreases |turns|
  {
    if turns == [] then []
    else
      var before := turns[..|turns| - 1];
      Emitted(strategy, before) + Emits(EffectsOf(strategy, before, turns[|turns| - 1]))
  }

  /** The messages sent to the actor. */
  function Sent<M, V, R>(turns: seq<Turn<M, V, R>>): seq<Envelope<M>>
    decreases |turns|
  {
    if turns == [] then []
    else
      var t := turns[|turns| - 1];
      Sent(turns[..|turns| - 1]) + if t.Enqueue? then [t.envelope] else []
  }

  /** The reports its children sent. */
  function Reports<M, V, R>(turns: seq<Turn<M, V, R>>): seq<ChildReport>
    decreases |turns|
  {
    if turns == [] then []
    else
      var t := turns[|turns| - 1];
      Reports(turns[..|turns| - 1]) + if t.ChildReports? then [t.report] else []
  }

  /** What its handler returned, message by message. */
  function Results<M, V, R>(turns: seq<Turn<M, V, R>>): seq<R>
    decreases |turns|
  {
    if turns == [] then []
    else
      var t := turns[|turns| - 1];
      Results(turns[..|turns| - 1]) + if t.TakeMessage? then [t.result] else []
  }

  /** What it decided about its children, report by report. */
  function Decisions<M, V, R>(turns: seq<Turn<M, V, R>>): seq<ChildAction>
    decreases |turns|
  {
    if turns == [] then []
    else
      var t := turns[|turns| - 1];
      Decisions(turns[..|turns| - 1]) + if t.TakeReport? then [t.action] else []
  }

  /** Each ask with the result of its own message. */
  function Answers<M, R>(handled: seq<Envelope<M>>, results: seq<R>): seq<(nat, R)>
    requires |handled| == |results|
    decreases |handled|
  {
    if handled == [] then []
    else
      var k := |handled| - 1;
      Answers(handled[..k], results[..k]) +
      if handled[k].rsvp.Some? then [(handled[k].rsvp.value, results[k])] else []
  }

  /** Each fault with the action decided for it. */
  function Verdicts(reports: seq<ChildReport>, decisions: seq<ChildAction>): seq<(nat, ChildAction)>
    requires |reports| == |decisions|
    decreases |reports|
  {
    if reports == [] then []
    else
      var k := |reports| - 1;
      Verdicts(reports[..k], decisions[..k]) +
      if reports[k].Faulted? then [(reports[k].child, decisions[k])] else []
  }

  // ------------------------------------------- where the turns have led

  /** The error the actor carries: the last one set, unless a verdict has been
      heard since. */
  function ErrorAfter<M, V, R>(strategy: SupervisionStrategy, turns: seq<Turn<M, V, R>>): Option<ActorError>
    decreases |turns|
  {
    if turns == [] then None
    else
      var (before, t) := (turns[..|turns| - 1], turns[|turns| - 1]);
      ErrorBy(strategy, before, t, ErrorAfter(strategy, before))
  }

  function ErrorBy<M, V, R>(
      strategy: SupervisionStrategy, before: seq<Turn<M, V, R>>, t: Turn<M, V, R>, error: Option<ActorError>)
    : Option<ActorError>
  {
    var fault := LastFault(EffectsOf(strategy, before, t));
    match t
    case CallPreStart(_, Some(failure)) => Some(failure)
    case Supervise(_, Some(failure)) => if Retries(strategy, before) then Some(failure) else error
    case HearVerdict(Some(_)) => None
    case _ => if fault.Some? then fault else error
  }

  /** The state of the lifecycle. */
  function LifecycleAfter<M, V, R>(
      strategy: SupervisionStrategy, hasParent: bool, turns: seq<Turn<M, V, R>>): Lifecycle
    decreases |turns|
  {
    if turns == [] then Created
    else
      var (before, t) := (turns[..|turns| - 1], turns[|turns| - 1]);
      LifecycleBy(strategy, hasParent, before, t, LifecycleAfter(strategy, hasParent, before))
  }

  function LifecycleBy<M, V, R>(
      strategy: SupervisionStrategy, hasParent: bool, before: seq<Turn<M, V, R>>, t: Turn<M, V, R>, now: Lifecycle)
    : Lifecycle
  {
    match t
    case CallPreStart(_, failure) => if failure.None? then Started else Failed
    case HearVerdict(Some(ActionRestart)) => Restarted
    case HearVerdict(Some(ActionDelegate)) => Restarted
    case ChildsStopped =>
      if ErrorAfter(strategy, before).Some? then Failed else if now == Started then Stopped else now
    case Escalate => if hasParent then Terminated else Restarted
    case Supervise(_, failure) =>
      if !Retries(strategy, before) then Stopped else if failure.None? then Started else now
    case CallPostStop(_) => Terminated
    case _ => now
  }

  function InnerTurns<M, V, R>(turns: seq<Turn<M, V, R>>): nat
    decreases |turns|
  {
    if turns == [] then 0 else InnerTurns(turns[..|turns| - 1]) + if turns[|turns| - 1].TakeInner? then 1 else 0
  }

  /** The inner action to be taken next is a fault. */
  predicate FaultNext<M, V, R>(strategy: SupervisionStrategy, turns: seq<Turn<M, V, R>>) {
    InnerTurns(turns) < |Emitted(strategy, turns)| && Emitted(strategy, turns)[InnerTurns(turns)].Fail?
  }

  /** A turn that ends the actor's work: its mailbox is closed, or its fault has
      been judged, by its parent or for want of one. */
  predicate EndsWork<M, V, R>(
      strategy: SupervisionStrategy, hasParent: bool, before: seq<Turn<M, V, R>>, t: Turn<M, V, R>)
  {
    t.MailboxClosed? || t.HearVerdict? || (t.TakeInner? && !hasParent && FaultNext(strategy, before))
  }

  /** The stop requests put on the actor's channel. */
  function Requests<M, V, R>(
      strategy: SupervisionStrategy, hasParent: bool, turns: seq<Turn<M, V, R>>): seq<Option<nat>>
    decreases |turns|
  {
    if turns == [] then []
    else
      var (before, t) := (turns[..|turns| - 1], turns[|turns| - 1]);
      Requests(strategy, hasParent, before) +
      if t.AskStop? then [t.ack]
      else if EndsWork(strategy, hasParent, before, t) then [None]
      else StopsIn(EffectsOf(strategy, before, t))
  }

  /** The stop signal has been set. */
  predicate WorkEnded<M, V, R>(strategy: SupervisionStrategy, hasParent: bool, turns: seq<Turn<M, V, R>>)
    decreases |turns|
  {
    turns != [] &&
    (var (before, t) := (turns[..|turns| - 1], turns[|turns| - 1]);
     WorkEnded(strategy, hasParent, before) || EndsWork(strategy, hasParent, before, t))
  }

  /** The actor is in its select loop. */
  predicate InRun<M, V, R>(turns: seq<Turn<M, V, R>>)
    decreases |turns|
  {
    turns != [] &&
    (var t := turns[|turns| - 1]; t.BeginRun? || (!t.ChildsStopped? && InRun(turns[..|turns| - 1])))
  }

  /** The actor waits for its children to stop. */
  predicate InStopChilds<M, V, R>(turns: seq<Turn<M, V, R>>)
    decreases |turns|
  {
    turns != [] &&
    (var t := turns[|turns| - 1];
     t.TakeStop? || (!t.ChildsStopped? && !t.BeginRun? && InStopChilds(turns[..|turns| - 1])))
  }

  /** The actor, which has a parent, waits for the verdict on a fault. */
  predicate InJudgement<M, V, R>(strategy: SupervisionStrategy, hasParent: bool, turns: seq<Turn<M, V, R>>)
    decreases |turns|
  {
    turns != [] &&
    (var (before, t) := (turns[..|turns| - 1], turns[|turns| - 1]);
     || (t.TakeInner? && hasParent && FaultNext(strategy, before))
     || (!t.HearVerdict? && !t.TakeStop? && !t.BeginRun? && InJudgement(strategy, hasParent, before)))
  }

  /** The path has been taken out of the registry. */
  predicate Unregistered<M, V, R>(turns: seq<Turn<M, V, R>>)
    decreases |turns|
  {
    turns != [] &&
    (Unregistered(turns[..|turns| - 1]) || turns[|turns| - 1].ChildsStopped? || turns[|turns| - 1].Finish?)
  }

  // -------------------------------------------------------------- proofs

  // What a list of effects leaves in the records.
  lemma {:induction false} ApplyRecords<M, V, R>(s: State<M, V, R>, effects: seq<Effect<V>>)
    ensures var n := Apply(s, effects);
            && n.trace.pushed == s.trace.pushed + Emits(effects)
            && n.trace.asked == s.trace.asked + StopsIn(effects)
            && n.error == if LastFault(effects).Some? then LastFault(effects) else s.error
    decreases |effects|
  {
    if effects != [] {
      var (init, last) := (effects[..|effects| - 1], effects[|effects| - 1]);
      ApplyRecords(s, init);
      ApplyOneRecords(Apply(s, init), last);
      hide ApplyOne;
    }
  }

  lemma ApplyOneRecords<M, V, R>(s: State<M, V, R>, e: Effect<V>)
    ensures var n := ApplyOne(s, e);
            && n.trace.asked == s.trace.asked + (if e.RequestStop? then [None] else [])
            && match e
               case Publish(v) => n.trace.pushed == s.trace.pushed + [Event(v)] && n.error == s.error
               case EmitError(x) => n.trace.pushed == s.trace.pushed + [Error(x)] && n.error == s.error
               case EmitFail(x) => n.trace.pushed == s.trace.pushed + [Fail(x)] && n.error == Some(x)
               case RequestStop => n.trace.pushed == s.trace.pushed && n.error == s.error
  {
    assert s.trace.asked + [] == s.trace.asked;
  }

  // What a turn adds to each record.
  ghost predicate Adds<M, V, R>(
      s: State<M, V, R>, n: State<M, V, R>, hooks: seq<Hook>, effects: seq<Effect<V>>)
  {
    && n.trace.hooks == s.trace.hooks + hooks
    && n.trace.pushed == s.trace.pushed + Emits(effects)
  }

  // The same for stop requests and the two flags.
  ghost predicate Flags<M, V, R>(
      strategy: SupervisionStrategy, s: State<M, V, R>, before: seq<Turn<M, V, R>>, t: Turn<M, V, R>, n: State<M, V, R>)
    requires Enabled(s, t)
  {
    var ends := t.MailboxClosed? || t.HearVerdict? || (t.TakeInner? && !s.hasParent && s.channels.inner[0].Fail?);
    && n.trace.asked == s.trace.asked +
         (if t.AskStop? then [t.ack] else if ends then [None] else StopsIn(EffectsOf(strategy, before, t)))
    && n.stopSignal == (s.stopSignal || ends)
    && n.registered == (s.registered && !t.ChildsStopped? && !t.Finish?)
    && n.running == (t.BeginRun? || (s.running && !t.ChildsStopped?))
    && n.wait.ForChilds? == (t.TakeStop? || (s.wait.ForChilds? && !t.ChildsStopped? && !t.BeginRun?))
    && n.wait.ForVerdict? ==
         ((t.TakeInner? && s.hasParent && s.channels.inner[0].Fail?)
          || (s.wait.ForVerdict? && !t.HearVerdict? && !t.TakeStop? && !t.BeginRun?))
  }

  lemma {:induction false} EmitsSnoc<V>(effects: seq<Effect<V>>, e: Effect<V>)
    ensures Emits(effects + [e]) == Emits(effects) + Emits([e])
    ensures LastFault(effects + [e]) == if e.EmitFail? then Some(e.error) else LastFault(effects)
    ensures e.EmitFail? ==> Emits([e]) == [Fail(e.error)]
    ensures e.EmitFail? ==> StopsIn(effects + [e]) == StopsIn(effects)
  {
    assert (effects + [e])[..|effects|] == effects;
    assert [e][..0] == [] && Emits<V>([]) == [];
  }

  lemma HookAdds<M, V, R>(s: State<M, V, R>, hook: Hook, effects: seq<Effect<V>>)
    ensures var n := Apply(Called(s, hook), effects);
            && Adds(s, n, [hook], effects)
            && n.trace.asked == s.trace.asked + StopsIn(effects)
            && n.error == if LastFault(effects).Some? then LastFault(effects) else s.error
  {
    hide Apply, Emits, StopsIn, LastFault;
    ApplyFrame(Called(s, hook), effects);
    ApplyRecords(Called(s, hook), effects);
  }

  // What a turn adds to the records and leaves of the error, for a state in which
  // the runner's counter agrees with the failed restarts.
  ghost predicate Records<M, V, R>(
      strategy: SupervisionStrategy, s: State<M, V, R>, before: seq<Turn<M, V, R>>, t: Turn<M, V, R>, n: State<M, V, R>)
  {
    && Adds(s, n, HookOf(strategy, before, t), EffectsOf(strategy, before, t))
    && n.error == ErrorBy(strategy, before, t, s.error)
  }

  lemma StopRecords<M, V, R>(
      strategy: SupervisionStrategy, s: State<M, V, R>, before: seq<Turn<M, V, R>>,
      effects: seq<Effect<V>>, failed: bool)
    requires s.channels.stops != []
    ensures Records(strategy, s, before, TakeStop(effects, failed), StopNext(s, effects, failed))
  {
    hide Emits, LastFault, Apply, ApplyOne;
    var taken := StopTaken(s);
    HookAdds(taken, PreStop, effects);
    StopFrame(s, effects, failed);
    EmitsSnoc(effects, EmitFail(STOP_ERROR));
    ApplyOneRecords(Apply(Called(taken, PreStop), effects), EmitFail(STOP_ERROR));
    assert effects + [] == effects;
  }

  lemma PreRestartedAdds<M, V, R>(retry: Strategy, s: State<M, V, R>, effects: seq<Effect<V>>)
    ensures var n := PreRestarted(retry, s, effects);
            && Adds(s, n, [PreRestart], effects)
            && n.trace.asked == s.trace.asked + StopsIn(effects)
            && n.error == if LastFault(effects).Some? then LastFault(effects) else s.error
  {
    hide Emits, LastFault, Apply, NextBackoff;
    var waited := s.(retries := s.retries + 1,
                     trace := s.trace.(backoffs := s.trace.backoffs + [NextBackoff(retry).0]));
    HookAdds(waited, PreRestart, effects);
  }

  lemma RestartRecords<M, V, R>(
      retry: Strategy, s: State<M, V, R>, before: seq<Turn<M, V, R>>, effects: seq<Effect<V>>,
      failure: Option<ActorError>)
    requires s.retries == FailedInARow(before) < MaxRetries(retry)
    ensures Records(SupervisionStrategy.Retry(retry), s, before, Supervise(effects, failure),
                    SuperviseNext(SupervisionStrategy.Retry(retry), s, effects, failure))
  {
    hide Emits, LastFault, PreRestarted, MaxRetries, FailedInARow;
    PreRestartedAdds(retry, s, effects);
  }

  lemma SuperviseRecords<M, V, R>(
      strategy: SupervisionStrategy, s: State<M, V, R>, before: seq<Turn<M, V, R>>, effects: seq<Effect<V>>,
      failure: Option<ActorError>)
    requires s.retries == FailedInARow(before)
    ensures Records(strategy, s, before, Supervise(effects, failure), SuperviseNext(strategy, s, effects, failure))
  {
    hide Emits, LastFault, PreRestarted, MaxRetries, FailedInARow;
    if Retries(strategy, before) {
      RestartRecords(strategy.strategy, s, before, effects, failure);
    } else {
      NoEffects<V>();
      assert SuperviseNext(strategy, s, effects, failure) == s.(lifecycle := Stopped);
      hide SuperviseNext;
      assert s.trace.hooks + [] == s.trace.hooks && s.trace.pushed + [] == s.trace.pushed;
    }
  }

  lemma NoEffects<V>()
    ensures Emits<V>([]) == [] && LastFault<V>([]) == None && StopsIn<V>([]) == []
  {}

  lemma StartRecords<M, V, R>(
      strategy: SupervisionStrategy, s: State<M, V, R>, before: seq<Turn<M, V, R>>, effects: seq<Effect<V>>,
      failure: Option<ActorError>)
    ensures Records(strategy, s, before, CallPreStart(effects, failure), StartNext(s, effects, failure))
  {
    hide Emits, LastFault, Apply;
    HookAdds(s, PreStart, effects);
  }

  lemma PostStopRecords<M, V, R>(
      strategy: SupervisionStrategy, s: State<M, V, R>, before: seq<Turn<M, V, R>>, effects: seq<Effect<V>>)
    ensures Records(strategy, s, before, CallPostStop(effects),
                    Apply(Called(s, PostStop), effects).(lifecycle := Terminated))
  {
    hide Emits, LastFault, Apply;
    HookAdds(s, PostStop, effects);
  }

  lemma WorkRecords<M, V, R>(
      strategy: SupervisionStrategy, s: State<M, V, R>, before: seq<Turn<M, V, R>>, t: Turn<M, V, R>)
    requires Enabled(s, t) && (t.TakeReport? || t.TakeMessage?)
    ensures Records(strategy, s, before, t, Next(strategy, s, t))
  {
    hide Emits, LastFault, Apply;
    assert s.trace.hooks + [] == s.trace.hooks;
    match t
    case TakeReport(effects, _) =>
      ApplyFrame(s.(channels := s.channels.(reports := s.channels.reports[1..])), effects);
      ApplyRecords(s.(channels := s.channels.(reports := s.channels.reports[1..])), effects);
    case TakeMessage(effects, _) =>
      ApplyFrame(s.(channels := s.channels.(mailbox := s.channels.mailbox[1..])), effects);
      ApplyRecords(s.(channels := s.channels.(mailbox := s.channels.mailbox[1..])), effects);
  }

  lemma QuietRecords<M, V, R>(
      strategy: SupervisionStrategy, s: State<M, V, R>, before: seq<Turn<M, V, R>>, t: Turn<M, V, R>)
    requires Enabled(s, t)
    requires FromOutside(t) || t.BeginRun? || t.ChildsStopped? || t.TakeInner? || t.HearVerdict?
             || t.MailboxClosed? || t.Escalate? || t.Finish?
    ensures Records(strategy, s, before, t, Next(strategy, s, t))
  {
    hide Emits, LastFault;
    NoEffects<V>();
    assert s.trace.hooks + [] == s.trace.hooks && s.trace.pushed + [] == s.trace.pushed;
  }

  lemma TurnRecords<M, V, R>(
      strategy: SupervisionStrategy, s: State<M, V, R>, before: seq<Turn<M, V, R>>, t: Turn<M, V, R>)
    requires Enabled(s, t) && (t.Supervise? ==> s.retries == FailedInARow(before))
    ensures Records(strategy, s, before, t, Next(strategy, s, t))
  {
    hide Records, Apply, StartNext, StopNext, LeaveLoop, ReportNext, InnerNext, Judged, MessageNext, SuperviseNext;
    match t
    case CallPreStart(effects, failure) => StartRecords(strategy, s, before, effects, failure);
    case TakeStop(effects, failed) => StopRecords(strategy, s, before, effects, failed);
    case Supervise(effects, failure) => SuperviseRecords(strategy, s, before, effects, failure);
    case CallPostStop(effects) => PostStopRecords(strategy, s, before, effects);
    case TakeReport(_, _) => WorkRecords(strategy, s, before, t);
    case TakeMessage(_, _) => WorkRecords(strategy, s, before, t);
    case _ => QuietRecords(strategy, s, before, t);
  }

  lemma StopFlags<M, V, R>(
      strategy: SupervisionStrategy, s: State<M, V, R>, before: seq<Turn<M, V, R>>,
      effects: seq<Effect<V>>, failed: bool)
    requires Enabled(s, TakeStop(effects, failed))
    ensures Flags(strategy, s, before, TakeStop(effects, failed), StopNext(s, effects, failed))
  {
    hide Emits, LastFault, StopsIn, Apply, ApplyOne;
    var taken := StopTaken(s);
    HookAdds(taken, PreStop, effects);
    StopFrame(s, effects, failed);
    EmitsSnoc(effects, EmitFail(STOP_ERROR));
    ApplyOneRecords(Apply(Called(taken, PreStop), effects), EmitFail(STOP_ERROR));
    assert effects + [] == effects;
    assert StopsIn(effects) + [] == StopsIn(effects);
  }

  lemma PreRestartedWaits<M, V, R>(retry: Strategy, s: State<M, V, R>, effects: seq<Effect<V>>)
    ensures PreRestarted(retry, s, effects).wait == s.wait
  {
    hide Apply, NextBackoff;
    var waited := s.(retries := s.retries + 1,
                     trace := s.trace.(backoffs := s.trace.backoffs + [NextBackoff(retry).0]));
    ApplyFrame(Called(waited, PreRestart), effects);
  }

  lemma SuperviseFlags<M, V, R>(
      strategy: SupervisionStrategy, s: State<M, V, R>, before: seq<Turn<M, V, R>>, effects: seq<Effect<V>>,
      failure: Option<ActorError>)
    requires Enabled(s, Supervise(effects, failure)) && s.retries == FailedInARow(before)
    ensures Flags(strategy, s, before, Supervise(effects, failure), SuperviseNext(strategy, s, effects, failure))
  {
    hide Emits, LastFault, StopsIn, PreRestarted, MaxRetries, FailedInARow;
    SuperviseFrame(strategy, s, effects, failure);
    NoEffects<V>();
    if Retries(strategy, before) {
      PreRestartedAdds(strategy.strategy, s, effects);
      PreRestartedWaits(strategy.strategy, s, effects);
    } else {
      assert SuperviseNext(strategy, s, effects, failure) == s.(lifecycle := Stopped);
      assert s.trace.asked + [] == s.trace.asked;
    }
  }

  lemma WorkFlags<M, V, R>(
      strategy: SupervisionStrategy, s: State<M, V, R>, before: seq<Turn<M, V, R>>, t: Turn<M, V, R>)
    requires Enabled(s, t) && (t.TakeReport? || t.TakeMessage?)
    ensures Flags(strategy, s, before, t, Next(strategy, s, t))
  {
    hide StopsIn, Apply;
    match t
    case TakeReport(effects, _) =>
      ApplyFrame(s.(channels := s.channels.(reports := s.channels.reports[1..])), effects);
      ApplyRecords(s.(channels := s.channels.(reports := s.channels.reports[1..])), effects);
    case TakeMessage(effects, _) =>
      ApplyFrame(s.(channels := s.channels.(mailbox := s.channels.mailbox[1..])), effects);
      ApplyRecords(s.(channels := s.channels.(mailbox := s.channels.mailbox[1..])), effects);
  }

  lemma StartFlags<M, V, R>(
      strategy: SupervisionStrategy, s: State<M, V, R>, before: seq<Turn<M, V, R>>, effects: seq<Effect<V>>,
      failure: Option<ActorError>)
    requires Enabled(s, CallPreStart(effects, failure))
    ensures Flags(strategy, s, before, CallPreStart(effects, failure), StartNext(s, effects, failure))
  {
    hide StopsIn, Apply, Emits, LastFault;
    HookAdds(s, PreStart, effects);
    ApplyFrame(Called(s, PreStart), effects);
  }

  lemma PostStopFlags<M, V, R>(
      strategy: SupervisionStrategy, s: State<M, V, R>, before: seq<Turn<M, V, R>>, effects: seq<Effect<V>>)
    requires Enabled(s, CallPostStop(effects))
    ensures Flags(strategy, s, before, CallPostStop(effects),
                  Apply(Called(s, PostStop), effects).(lifecycle := Terminated))
  {
    hide StopsIn, Apply, Emits, LastFault;
    HookAdds(s, PostStop, effects);
    ApplyFrame(Called(s, PostStop), effects);
  }

  lemma InnerFlags<M, V, R>(
      strategy: SupervisionStrategy, s: State<M, V, R>, before: seq<Turn<M, V, R>>)
    requires Enabled(s, TakeInner)
    ensures Flags(strategy, s, before, TakeInner, InnerNext(s))
  {
    hide StopsIn;
    NoEffects<V>();
    assert s.trace.asked + [] == s.trace.asked;
  }

  lemma QuietFlags<M, V, R>(
      strategy: SupervisionStrategy, s: State<M, V, R>, before: seq<Turn<M, V, R>>, t: Turn<M, V, R>)
    requires Enabled(s, t)
    requires FromOutside(t) || t.BeginRun? || t.ChildsStopped? || t.HearVerdict?
             || t.MailboxClosed? || t.Escalate? || t.Finish?
    ensures Flags(strategy, s, before, t, Next(strategy, s, t))
  {
    hide StopsIn;
    NoEffects<V>();
    assert s.trace.asked + [] == s.trace.asked;
  }

  lemma TurnFlags<M, V, R>(
      strategy: SupervisionStrategy, s: State<M, V, R>, before: seq<Turn<M, V, R>>, t: Turn<M, V, R>)
    requires Enabled(s, t) && (t.Supervise? ==> s.retries == FailedInARow(before))
    ensures Flags(strategy, s, before, t, Next(strategy, s, t))
  {
    hide Flags, Apply, StartNext, StopNext, LeaveLoop, ReportNext, InnerNext, Judged, MessageNext, SuperviseNext;
    match t
    case CallPreStart(effects, failure) => StartFlags(strategy, s, before, effects, failure);
    case CallPostStop(effects) => PostStopFlags(strategy, s, before, effects);
    case TakeInner => InnerFlags(strategy, s, before);
    case TakeStop(effects, failed) => StopFlags(strategy, s, before, effects, failed);
    case Supervise(effects, failure) => SuperviseFlags(strategy, s, before, effects, failure);
    case TakeReport(_, _) => WorkFlags(strategy, s, before, t);
    case TakeMessage(_, _) => WorkFlags(strategy, s, before, t);
    case _ => QuietFlags(strategy, s, before, t);
  }

  // The lifecycle after a turn.
  lemma JudgedLifecycle<M, V, R>(s: State<M, V, R>, verdict: Option<ChildAction>)
    ensures Judged(s, verdict).lifecycle ==
              if verdict == Some(ActionRestart) || verdict == Some(ActionDelegate) then Restarted else s.lifecycle
  {}

  lemma InnerLifecycle<M, V, R>(s: State<M, V, R>)
    requires s.channels.inner != []
    ensures InnerNext(s).lifecycle == s.lifecycle
  {
    JudgedLifecycle(Passed(s.(channels := s.channels.(inner := s.channels.inner[1..])), s.channels.inner[0]), None);
    hide Judged;
  }

  lemma WorkLifecycle<M, V, R>(s: State<M, V, R>, t: Turn<M, V, R>)
    requires Enabled(s, t) && (t.TakeReport? || t.TakeMessage?)
    ensures Next(Stop, s, t).lifecycle == s.lifecycle
  {
    hide Apply;
    match t
    case TakeReport(effects, _) =>
      ApplyFrame(s.(channels := s.channels.(reports := s.channels.reports[1..])), effects);
    case TakeMessage(effects, _) =>
      ApplyFrame(s.(channels := s.channels.(mailbox := s.channels.mailbox[1..])), effects);
  }

  lemma TurnLifecycle<M, V, R>(
      strategy: SupervisionStrategy, s: State<M, V, R>, before: seq<Turn<M, V, R>>, t: Turn<M, V, R>)
    requires Enabled(s, t) && s.error == ErrorAfter(strategy, before)
    requires t.Supervise? ==> s.retries == FailedInARow(before)
    ensures Next(strategy, s, t).lifecycle == LifecycleBy(strategy, s.hasParent, before, t, s.lifecycle)
  {
    hide Apply, StartNext, StopNext, LeaveLoop, ReportNext, InnerNext, Judged, MessageNext, SuperviseNext, ErrorAfter;
    match t
    case CallPreStart(effects, failure) => StartFrame(s, effects, failure);
    case TakeStop(effects, failed) => StopFrame(s, effects, failed);
    case ChildsStopped => LeaveFrame(s);
    case Supervise(effects, failure) => SuperviseFrame(strategy, s, effects, failure);
    case CallPostStop(effects) =>
    case TakeReport(_, _) => WorkLifecycle(s, t);
    case TakeMessage(_, _) => WorkLifecycle(s, t);
    case TakeInner => InnerLifecycle(s);
    case HearVerdict(verdict) => JudgedLifecycle(s, verdict);
    case _ =>
  }

  // The runner's counter is the number of restarts that have failed in a row, as
  // long as it can still matter.
  ghost predicate CounterHolds<M, V, R>(s: State<M, V, R>, turns: seq<Turn<M, V, R>>) {
    s.lifecycle == Stopped || s.lifecycle == Terminated || s.retries == FailedInARow(turns)
  }

  lemma TurnCounter<M, V, R>(
      strategy: SupervisionStrategy, s: State<M, V, R>, turns: seq<Turn<M, V, R>>)
    requires turns != [] && Signalled(s)
    requires var (before, t) := (turns[..|turns| - 1], turns[|turns| - 1]); Enabled(s, t) && CounterHolds(s, before)
    ensures CounterHolds(Next(strategy, s, turns[|turns| - 1]), turns)
  {
    hide Apply, StartNext, StopNext, LeaveLoop, ReportNext, InnerNext, Judged, MessageNext, SuperviseNext;
    var t := turns[|turns| - 1];
    match t
    case CallPreStart(effects, failure) => StartFrame(s, effects, failure);
    case TakeStop(effects, failed) => StopFrame(s, effects, failed);
    case ChildsStopped => LeaveFrame(s);
    case Supervise(effects, failure) => SuperviseFrame(strategy, s, effects, failure);
    case CallPostStop(effects) =>
    case BeginRun =>
    case Escalate =>
    case Finish =>
    case _ => LoopTurns(strategy, s, t);
  }

  // The parent of a runner does not change.
  lemma TurnParent<M, V, R>(strategy: SupervisionStrategy, s: State<M, V, R>, t: Turn<M, V, R>)
    requires Enabled(s, t)
    ensures Next(strategy, s, t).hasParent == s.hasParent
  {
    hide Apply, StartNext, StopNext, LeaveLoop, ReportNext, InnerNext, Judged, MessageNext, SuperviseNext;
    match t
    case CallPreStart(effects, failure) => StartFrame(s, effects, failure);
    case TakeStop(effects, failed) => StopFrame(s, effects, failed);
    case ChildsStopped => LeaveFrame(s);
    case Supervise(effects, failure) => SuperviseFrame(strategy, s, effects, failure);
    case CallPostStop(effects) => TouchedHook(s, PostStop, effects);
    case BeginRun =>
    case Escalate =>
    case Finish =>
    case _ => LoopTurns(strategy, s, t);
  }

  // -------------------------------------------------------- main results

  /** Over every run the state is what the turns say: each hook in its order, what
      was emitted, the error carried, the lifecycle and the count of restarts. */
  ghost predicate Agrees<M, V, R>(
      strategy: SupervisionStrategy, hasParent: bool, turns: seq<Turn<M, V, R>>, s: State<M, V, R>)
  {
    && s.hasParent == hasParent
    && s.trace.hooks == Hooks(strategy, turns)
    && s.trace.pushed == Emitted(strategy, turns)
    && s.error == ErrorAfter(strategy, turns)
    && s.lifecycle == LifecycleAfter(strategy, hasParent, turns)
    && CounterHolds(s, turns)
  }

  lemma AgreesTurn<M, V, R>(
      strategy: SupervisionStrategy, hasParent: bool, turns: seq<Turn<M, V, R>>, s: State<M, V, R>, n: State<M, V, R>)
    requires turns != [] && n.hasParent == s.hasParent && CounterHolds(n, turns)
    requires var (before, t) := (turns[..|turns| - 1], turns[|turns| - 1]);
             && Agrees(strategy, hasParent, before, s) && Records(strategy, s, before, t, n)
             && n.lifecycle == LifecycleBy(strategy, hasParent, before, t, s.lifecycle)
    ensures Agrees(strategy, hasParent, turns, n)
  {
    hide CounterHolds, LifecycleBy, ErrorBy, HookOf, EffectsOf, Emits;
  }

  lemma {:induction false} RunAgrees<M, V, R>(strategy: SupervisionStrategy, hasParent: bool, turns: seq<Turn<M, V, R>>)
    requires Runs(strategy, Initial(hasParent), turns)
    ensures Agrees(strategy, hasParent, turns, Exec(strategy, Initial(hasParent), turns))
    decreases |turns|
  {
    if turns != [] {
      var (before, t) := (turns[..|turns| - 1], turns[|turns| - 1]);
      RunAgrees(strategy, hasParent, before);
      ExecSignalled(strategy, hasParent, before);
      var s := Exec(strategy, Initial(hasParent), before);
      hide Next, Signalled, PostStopLast, Records, LifecycleBy, CounterHolds, Hooks, Emitted;
      if t.Supervise? { SuperviseCounter(s, before, t); }
      TurnRecords(strategy, s, before, t);
      TurnLifecycle(strategy, s, before, t);
      TurnCounter(strategy, s, turns);
      TurnParent(strategy, s, t);
      AgreesTurn(strategy, hasParent, turns, s, Next(strategy, s, t));
    }
  }

  ghost predicate FlagsAgree<M, V, R>(
      strategy: SupervisionStrategy, hasParent: bool, turns: seq<Turn<M, V, R>>, s: State<M, V, R>)
  {
    && s.hasParent == hasParent
    && |s.trace.taken| == InnerTurns(turns)
    && s.trace.asked == Requests(strategy, hasParent, turns)
    && (s.stopSignal <==> WorkEnded(strategy, hasParent, turns))
    && (s.registered <==> !Unregistered(turns))
    && (s.running <==> InRun(turns))
    && (s.wait.ForChilds? <==> InStopChilds(turns))
    && (s.wait.ForVerdict? <==> InJudgement(strategy, hasParent, turns))
  }

  lemma SuperviseCounter<M, V, R>(s: State<M, V, R>, turns: seq<Turn<M, V, R>>, t: Turn<M, V, R>)
    requires CounterHolds(s, turns) && Enabled(s, t) && t.Supervise?
    ensures s.retries == FailedInARow(turns)
  {}

  lemma FlagsTurn<M, V, R>(
      strategy: SupervisionStrategy, hasParent: bool, turns: seq<Turn<M, V, R>>, s: State<M, V, R>, n: State<M, V, R>)
    requires turns != [] && n.hasParent == s.hasParent
    requires var (before, t) := (turns[..|turns| - 1], turns[|turns| - 1]);
             && Enabled(s, t) && FlagsAgree(strategy, hasParent, before, s) && Flags(strategy, s, before, t, n)
             && n.trace.taken == s.trace.taken + (if t.TakeInner? then [s.channels.inner[0]] else [])
             && (t.TakeInner? ==> (s.channels.inner[0].Fail? <==> FaultNext(strategy, before)))
    ensures FlagsAgree(strategy, hasParent, turns, n)
  {
    hide FaultNext, EffectsOf, StopsIn;
  }

  // The action taken next is the one emitted first of those not taken.
  lemma NextTaken<M, V, R>(
      strategy: SupervisionStrategy, hasParent: bool, turns: seq<Turn<M, V, R>>, s: State<M, V, R>)
    requires Agrees(strategy, hasParent, turns, s) && FlagsAgree(strategy, hasParent, turns, s) && Conserved(s)
    requires s.channels.inner != []
    ensures s.channels.inner[0].Fail? <==> FaultNext(strategy, turns)
  {
    hide Emitted, Hooks, ErrorAfter, LifecycleAfter, Requests, WorkEnded, Unregistered, InnerTurns;
    hide EventsOf, FaultsOf, AskIds, ReplyIds, FaultIds, AcksOf;
    assert s.trace.pushed[|s.trace.taken|] == s.channels.inner[0];
  }

  /** Over every run: the stop requests made, and from whom; when the stop signal
      is set; when the path leaves the registry; and where the select loop stands. */
  lemma {:induction false} RunFlags<M, V, R>(strategy: SupervisionStrategy, hasParent: bool, turns: seq<Turn<M, V, R>>)
    requires Runs(strategy, Initial(hasParent), turns)
    ensures FlagsAgree(strategy, hasParent, turns, Exec(strategy, Initial(hasParent), turns))
    decreases |turns|
  {
    if turns != [] {
      var (before, t) := (turns[..|turns| - 1], turns[|turns| - 1]);
      RunFlags(strategy, hasParent, before);
      RunAgrees(strategy, hasParent, before);
      StartsConserved<M, V, R>(hasParent);
      ExecConserves(strategy, Initial(hasParent), before);
      var s := Exec(strategy, Initial(hasParent), before);
      if t.Supervise? { SuperviseCounter(s, before, t); }
      hide Next, Agrees, FlagsAgree, Flags, FaultNext, Conserved, CounterHolds;
      TurnFlags(strategy, s, before, t);
      TakenTurn(strategy, s, t);
      TurnParent(strategy, s, t);
      if t.TakeInner? { NextTaken(strategy, hasParent, before, s); }
      FlagsTurn(strategy, hasParent, turns, s, Next(strategy, s, t));
    }
  }

  // ------------------------------------------------ what goes in and out

  // What a turn takes in and answers.
  ghost predicate Deals<M, V, R>(s: State<M, V, R>, t: Turn<M, V, R>, n: State<M, V, R>)
    requires Enabled(s, t)
  {
    && n.trace.enqueued == s.trace.enqueued + (if t.Enqueue? then [t.envelope] else [])
    && n.trace.received == s.trace.received + (if t.ChildReports? then [t.report] else [])
    && (if t.TakeMessage?
        then var e := s.channels.mailbox[0];
             && n.trace.handled == s.trace.handled + [e]
             && n.trace.replies == s.trace.replies + if e.rsvp.Some? then [(e.rsvp.value, t.result)] else []
        else n.trace.handled == s.trace.handled && n.trace.replies == s.trace.replies)
    && (if t.TakeReport?
        then var report := s.channels.reports[0];
             && n.trace.answered == s.trace.answered + [report]
             && n.trace.actions == s.trace.actions + if report.Faulted? then [(report.child, t.action)] else []
        else n.trace.answered == s.trace.answered && n.trace.actions == s.trace.actions)
  }

  ghost predicate NoDeals<M, V, R>(s: State<M, V, R>, n: State<M, V, R>) {
    && n.trace.enqueued == s.trace.enqueued && n.trace.received == s.trace.received
    && n.trace.handled == s.trace.handled && n.trace.replies == s.trace.replies
    && n.trace.answered == s.trace.answered && n.trace.actions == s.trace.actions
  }

  lemma HookNoDeals<M, V, R>(s: State<M, V, R>, hook: Hook, effects: seq<Effect<V>>)
    ensures NoDeals(s, Apply(Called(s, hook), effects))
  {
    hide Apply;
    ApplyFrame(Called(s, hook), effects);
  }

  lemma StopNoDeals<M, V, R>(s: State<M, V, R>, effects: seq<Effect<V>>, failed: bool)
    requires s.channels.stops != []
    ensures NoDeals(s, StopNext(s, effects, failed))
  {
    hide Apply, ApplyOne;
    var taken := StopTaken(s);
    HookNoDeals(taken, PreStop, effects);
    ApplyOneFrame(Apply(Called(taken, PreStop), effects), EmitFail(STOP_ERROR));
  }

  lemma PreRestartedNoDeals<M, V, R>(retry: Strategy, s: State<M, V, R>, effects: seq<Effect<V>>)
    ensures NoDeals(s, PreRestarted(retry, s, effects))
  {
    hide Apply, NextBackoff;
    var waited := s.(retries := s.retries + 1,
                     trace := s.trace.(backoffs := s.trace.backoffs + [NextBackoff(retry).0]));
    HookNoDeals(waited, PreRestart, effects);
  }

  lemma SuperviseNoDeals<M, V, R>(
      strategy: SupervisionStrategy, s: State<M, V, R>, effects: seq<Effect<V>>, failure: Option<ActorError>)
    ensures NoDeals(s, SuperviseNext(strategy, s, effects, failure))
  {
    hide PreRestarted, MaxRetries;
    if strategy.Retry? { PreRestartedNoDeals(strategy.strategy, s, effects); }
  }

  lemma WorkDeals<M, V, R>(strategy: SupervisionStrategy, s: State<M, V, R>, t: Turn<M, V, R>)
    requires Enabled(s, t) && (t.TakeReport? || t.TakeMessage?)
    ensures Deals(s, t, Next(strategy, s, t))
  {
    hide Apply;
    match t
    case TakeReport(effects, _) =>
      ApplyFrame(s.(channels := s.channels.(reports := s.channels.reports[1..])), effects);
    case TakeMessage(effects, _) =>
      ApplyFrame(s.(channels := s.channels.(mailbox := s.channels.mailbox[1..])), effects);
  }

  lemma InnerNoDeals<M, V, R>(s: State<M, V, R>)
    requires s.channels.inner != []
    ensures NoDeals(s, InnerNext(s))
  {
    var passed := Passed(s.(channels := s.channels.(inner := s.channels.inner[1..])), s.channels.inner[0]);
    assert NoDeals(s, passed);
    assert NoDeals(passed, Judged(passed, None));
    hide Passed, Judged;
  }

  lemma TurnDeals<M, V, R>(strategy: SupervisionStrategy, s: State<M, V, R>, t: Turn<M, V, R>)
    requires Enabled(s, t)
    ensures Deals(s, t, Next(strategy, s, t))
  {
    hide Apply, StartNext, StopNext, ReportNext, InnerNext, MessageNext, SuperviseNext;
    match t
    case CallPreStart(effects, failure) => StartNoDeals(s, effects, failure);
    case TakeStop(effects, failed) => StopNoDeals(s, effects, failed);
    case Supervise(effects, failure) => SuperviseNoDeals(strategy, s, effects, failure);
    case CallPostStop(effects) => HookNoDeals(s, PostStop, effects);
    case TakeReport(_, _) => WorkDeals(strategy, s, t);
    case TakeMessage(_, _) => WorkDeals(strategy, s, t);
    case TakeInner => InnerNoDeals(s);
    case _ =>
  }

  lemma StartNoDeals<M, V, R>(s: State<M, V, R>, effects: seq<Effect<V>>, failure: Option<ActorError>)
    ensures NoDeals(s, StartNext(s, effects, failure))
  {
    hide Apply;
    HookNoDeals(s, PreStart, effects);
  }

  lemma AnswersSnoc<M, R>(handled: seq<Envelope<M>>, results: seq<R>, e: Envelope<M>, result: R)
    requires |handled| == |results|
    ensures Answers(handled + [e], results + [result]) ==
              Answers(handled, results) + if e.rsvp.Some? then [(e.rsvp.value, result)] else []
  {
    assert (handled + [e])[..|handled|] == handled && (results + [result])[..|results|] == results;
  }

  lemma VerdictsSnoc(reports: seq<ChildReport>, decisions: seq<ChildAction>, report: ChildReport, action: ChildAction)
    requires |reports| == |decisions|
    ensures Verdicts(reports + [report], decisions + [action]) ==
              Verdicts(reports, decisions) + if report.Faulted? then [(report.child, action)] else []
  {
    assert (reports + [report])[..|reports|] == reports && (decisions + [action])[..|decisions|] == decisions;
  }

  ghost predicate Answered<M, V, R>(turns: seq<Turn<M, V, R>>, s: State<M, V, R>) {
    && s.trace.enqueued == Sent(turns) && s.trace.received == Reports(turns)
    && |s.trace.handled| == |Results(turns)|
    && s.trace.replies == Answers(s.trace.handled, Results(turns))
    && |s.trace.answered| == |Decisions(turns)|
    && s.trace.actions == Verdicts(s.trace.answered, Decisions(turns))
  }

  lemma AnsweredTurn<M, V, R>(turns: seq<Turn<M, V, R>>, s: State<M, V, R>, n: State<M, V, R>)
    requires turns != [] && Enabled(s, turns[|turns| - 1])
    requires Answered(turns[..|turns| - 1], s) && Deals(s, turns[|turns| - 1], n)
    ensures Answered(turns, n)
  {
    var (before, t) := (turns[..|turns| - 1], turns[|turns| - 1]);
    hide Answers, Verdicts;
    assert Results(before) + [] == Results(before) && Decisions(before) + [] == Decisions(before);
    if t.TakeMessage? {
      AnswersSnoc(s.trace.handled, Results(before), s.channels.mailbox[0], t.result);
    } else if t.TakeReport? {
      VerdictsSnoc(s.trace.answered, Decisions(before), s.channels.reports[0], t.action);
    }
  }

  /** Over every run: what was sent is what arrived; each ask handled is answered
      with what the handler returned for its own message; and each fault taken is
      answered with the action decided for it. */
  lemma {:induction false} RunAnswers<M, V, R>(
      strategy: SupervisionStrategy, hasParent: bool, turns: seq<Turn<M, V, R>>)
    requires Runs(strategy, Initial(hasParent), turns)
    ensures Answered(turns, Exec(strategy, Initial(hasParent), turns))
    decreases |turns|
  {
    if turns != [] {
      var (before, t) := (turns[..|turns| - 1], turns[|turns| - 1]);
      RunAnswers(strategy, hasParent, before);
      var s := Exec(strategy, Initial(hasParent), before);
      hide Next, Answered, Deals;
      TurnDeals(strategy, s, t);
      AnsweredTurn(turns, s, Next(strategy, s, t));
    }
  }

  /** Over every run: what is broadcast are the events among the actions taken so
      far of those that the hooks and handlers emitted, in order; what goes to the
      parent are the errors and faults among them. */
  lemma RunBroadcasts<M, V, R>(strategy: SupervisionStrategy, hasParent: bool, turns: seq<Turn<M, V, R>>)
    requires Runs(strategy, Initial(hasParent), turns)
    ensures var s := Exec(strategy, Initial<M, V, R>(hasParent), turns);
            var taken := InnerTurns(turns);
            && taken <= |Emitted(strategy, turns)|
            && s.trace.broadcast == EventsOf(Emitted(strategy, turns)[..taken])
            && s.trace.toParent == if hasParent then FaultsOf(Emitted(strategy, turns)[..taken]) else []
  {
    RunAgrees(strategy, hasParent, turns);
    RunFlags(strategy, hasParent, turns);
    StartsConserved<M, V, R>(hasParent);
    ExecConserves(strategy, Initial(hasParent), turns);
    hide Runs, Exec, Emitted, EventsOf, FaultsOf, Hooks, ErrorAfter, LifecycleAfter, Requests, WorkEnded, Unregistered;
    hide AskIds, ReplyIds, FaultIds, AcksOf, InnerTurns;
    var s := Exec(strategy, Initial<M, V, R>(hasParent), turns);
    assert s.trace.pushed[..|s.trace.taken|] == s.trace.taken;
  }

  // --------------------------------------------------------- post_stop

  /** The actor is in Stopped after these turns or has been before. */
  predicate EverStopped<M, V, R>(strategy: SupervisionStrategy, hasParent: bool, turns: seq<Turn<M, V, R>>)
    decreases |turns|
  {
    || LifecycleAfter(strategy, hasParent, turns) == Stopped
    || (turns != [] && EverStopped(strategy, hasParent, turns[..|turns| - 1]))
  }

  ghost predicate PostStopFollows<M, V, R>(
      strategy: SupervisionStrategy, hasParent: bool, turns: seq<Turn<M, V, R>>, s: State<M, V, R>)
  {
    match s.lifecycle
    case Stopped => EverStopped(strategy, hasParent, turns)
    case Terminated =>
      && (EverStopped(strategy, hasParent, turns) <==>
            s.trace.hooks != [] && s.trace.hooks[|s.trace.hooks| - 1] == PostStop)
      && (!hasParent ==> EverStopped(strategy, hasParent, turns))
    case _ => !EverStopped(strategy, hasParent, turns)
  }

  lemma PostStopTurn<M, V, R>(
      strategy: SupervisionStrategy, hasParent: bool, turns: seq<Turn<M, V, R>>, s: State<M, V, R>, n: State<M, V, R>)
    requires turns != [] && Signalled(s) && PostStopLast(s) && s.hasParent == hasParent
    requires var (before, t) := (turns[..|turns| - 1], turns[|turns| - 1]);
             && Enabled(s, t) && PostStopFollows(strategy, hasParent, before, s)
             && s.lifecycle == LifecycleAfter(strategy, hasParent, before)
             && n.lifecycle == LifecycleBy(strategy, hasParent, before, t, s.lifecycle)
             && n.trace.hooks == s.trace.hooks + HookOf(strategy, before, t)
    ensures PostStopFollows(strategy, hasParent, turns, n)
  {
    var (before, t) := (turns[..|turns| - 1], turns[|turns| - 1]);
    assert EverStopped(strategy, hasParent, turns) <==>
             LifecycleAfter(strategy, hasParent, turns) == Stopped || EverStopped(strategy, hasParent, before);
    assert n.lifecycle == LifecycleAfter(strategy, hasParent, turns);
    hide EverStopped, LifecycleAfter, ErrorAfter, Retries;
    if s.lifecycle != Terminated && s.trace.hooks != [] { PostStopNotYet(s); }
  }

  /** Over every run: an actor that has ended has called `post_stop` as its last
      hook exactly when it has been in Stopped, which a root always has; one that
      went from Failed to its end has not called it. */
  lemma {:induction false} PostStopIff<M, V, R>(
      strategy: SupervisionStrategy, hasParent: bool, turns: seq<Turn<M, V, R>>)
    requires Runs(strategy, Initial(hasParent), turns)
    ensures PostStopFollows(strategy, hasParent, turns, Exec(strategy, Initial(hasParent), turns))
    decreases |turns|
  {
    RunAgrees(strategy, hasParent, turns);
    if turns == [] {
      assert LifecycleAfter(strategy, hasParent, turns) == Created;
    } else {
      var (before, t) := (turns[..|turns| - 1], turns[|turns| - 1]);
      PostStopIff(strategy, hasParent, before);
      RunAgrees(strategy, hasParent, before);
      ExecSignalled(strategy, hasParent, before);
      var s := Exec(strategy, Initial(hasParent), before);
      hide Next, PostStopFollows, Signalled, PostStopLast, HookOf, LifecycleBy, CounterHolds, Emitted, ErrorAfter;
      PostStopTurn(strategy, hasParent, turns, s, Next(strategy, s, t));
    }
  }

  lemma PostStopNotYet<M, V, R>(s: State<M, V, R>)
    requires PostStopLast(s) && s.lifecycle != Terminated && s.trace.hooks != []
    ensures s.trace.hooks[|s.trace.hooks| - 1] != PostStop
  {
    assert s.trace.hooks[|s.trace.hooks| - 1] in s.trace.hooks;
  }

  // ----------------------------------------------------------- verdicts

  predicate Orders(verdict: Option<ChildAction>) {
    verdict == Some(ActionRestart) || verdict == Some(ActionDelegate)
  }

  /** A verdict has been heard that orders a restart. */
  predicate RestartOrdered<M, V, R>(turns: seq<Turn<M, V, R>>) {
    exists i | 0 <= i < |turns| :: turns[i].HearVerdict? && Orders(turns[i].verdict)
  }

  /** Over every run of a child: without such a verdict it is never restarted, and
      `pre_restart` is not called. */
  lemma {:induction false} RestartNeedsOrder<M, V, R>(strategy: SupervisionStrategy, turns: seq<Turn<M, V, R>>)
    requires Runs(strategy, Initial(true), turns) && !RestartOrdered(turns)
    ensures var s := Exec(strategy, Initial<M, V, R>(true), turns);
            s.lifecycle != Restarted && PreRestart !in s.trace.hooks
    decreases |turns|
  {
    RunAgrees(strategy, true, turns);
    if turns != [] {
      var (before, t) := (turns[..|turns| - 1], turns[|turns| - 1]);
      RestartNeedsOrder(strategy, before);
      RunAgrees(strategy, true, before);
      assert t.HearVerdict? ==> !Orders(t.verdict);
      hide Next, Emitted, ErrorAfter, CounterHolds, RestartOrdered;
    }
  }

  lemma AfterSnoc<M, V, R>(strategy: SupervisionStrategy, hasParent: bool, turns: seq<Turn<M, V, R>>, t: Turn<M, V, R>)
    ensures ErrorAfter(strategy, turns + [t]) == ErrorBy(strategy, turns, t, ErrorAfter(strategy, turns))
    ensures LifecycleAfter(strategy, hasParent, turns + [t]) ==
              LifecycleBy(strategy, hasParent, turns, t, LifecycleAfter(strategy, hasParent, turns))
  {
    assert (turns + [t])[..|turns|] == turns;
  }

  // What arrives changes neither the error nor the lifecycle.
  lemma {:induction false} AfterArrivals<M, V, R>(
      strategy: SupervisionStrategy, hasParent: bool, turns: seq<Turn<M, V, R>>, arrivals: seq<Turn<M, V, R>>)
    requires OwnTurns(arrivals) == 0
    ensures ErrorAfter(strategy, turns + arrivals) == ErrorAfter(strategy, turns)
    ensures LifecycleAfter(strategy, hasParent, turns + arrivals) == LifecycleAfter(strategy, hasParent, turns)
    decreases |arrivals|
  {
    if arrivals == [] {
      assert turns + arrivals == turns;
    } else {
      var (init, last) := (arrivals[..|arrivals| - 1], arrivals[|arrivals| - 1]);
      assert FromOutside(last) && OwnTurns(init) == 0;
      hide ErrorAfter, LifecycleAfter, ErrorBy, LifecycleBy, OwnTurns;
      AfterArrivals(strategy, hasParent, turns, init);
      AfterSnoc(strategy, hasParent, turns + init, last);
      ArrivalBy(strategy, hasParent, turns + init, last);
      assert turns + arrivals == turns + init + [last];
    }
  }

  lemma ArrivalBy<M, V, R>(strategy: SupervisionStrategy, hasParent: bool, before: seq<Turn<M, V, R>>, t: Turn<M, V, R>)
    requires FromOutside(t)
    ensures forall error :: ErrorBy(strategy, before, t, error) == error
    ensures forall now :: LifecycleBy(strategy, hasParent, before, t, now) == now
  {
    NoEffects<V>();
  }

  /** A verdict, what arrives after it, and the stop that follows. */
  function AfterVerdict<M, V, R>(
      turns: seq<Turn<M, V, R>>, verdict: Option<ChildAction>, early: seq<Turn<M, V, R>>,
      effects: seq<Effect<V>>, failed: bool, late: seq<Turn<M, V, R>>): seq<Turn<M, V, R>>
  {
    turns + [HearVerdict(verdict)] + early + [TakeStop(effects, failed)] + late + [ChildsStopped]
  }

  /** What becomes of a child that has heard its verdict, or that none will come,
      when it stops: it fails if `pre_stop` fails or emits a fault, or if nobody
      has cleared its error; otherwise it is restarted exactly when that was
      ordered, and else it has stopped for good. */
  lemma VerdictDecides<M, V, R>(
      strategy: SupervisionStrategy, turns: seq<Turn<M, V, R>>, verdict: Option<ChildAction>, early: seq<Turn<M, V, R>>,
      effects: seq<Effect<V>>, failed: bool, late: seq<Turn<M, V, R>>)
    requires Runs(strategy, Initial(true), turns) && Enabled(Exec(strategy, Initial(true), turns), HearVerdict(verdict))
    requires OwnTurns(early) == 0 == OwnTurns(late)
    requires Runs(strategy, Initial(true), AfterVerdict(turns, verdict, early, effects, failed, late))
    ensures var error := Exec(strategy, Initial<M, V, R>(true), turns).error;
            var s := Exec(strategy, Initial(true), AfterVerdict(turns, verdict, early, effects, failed, late));
            s.lifecycle == if failed || LastFault(effects).Some? || (verdict.None? && error.Some?) then Failed
                           else if Orders(verdict) then Restarted
                           else Stopped
  {
    hide AfterVerdict, Runs, Exec, Hooks, Emitted, CounterHolds, ErrorAfter, LifecycleAfter;
    hide LastFault, Orders, OwnTurns;
    var all := AfterVerdict(turns, verdict, early, effects, failed, late);
    RunAgrees(strategy, true, turns);
    RunAgrees(strategy, true, all);
    JudgedIsStarted(strategy, turns);
    VerdictTable(strategy, turns, verdict, early, effects, failed, late);
  }

  // The same read off the turns.
  lemma VerdictTable<M, V, R>(
      strategy: SupervisionStrategy, turns: seq<Turn<M, V, R>>, verdict: Option<ChildAction>, early: seq<Turn<M, V, R>>,
      effects: seq<Effect<V>>, failed: bool, late: seq<Turn<M, V, R>>)
    requires LifecycleAfter(strategy, true, turns) == Started && OwnTurns(early) == 0 == OwnTurns(late)
    ensures LifecycleAfter(strategy, true, AfterVerdict(turns, verdict, early, effects, failed, late)) ==
              if failed || LastFault(effects).Some? || (verdict.None? && ErrorAfter(strategy, turns).Some?) then Failed
              else if Orders(verdict) then Restarted
              else Stopped
  {
    hide ErrorAfter, LifecycleAfter, LastFault, OwnTurns;
    NoEffects<V>();
    var t1 := turns + [HearVerdict(verdict)];
    AfterSnoc(strategy, true, turns, HearVerdict(verdict));
    AfterArrivals(strategy, true, t1, early);
    StopAfter(strategy, t1 + early, effects, failed);
    var t2 := t1 + early + [TakeStop(effects, failed)];
    AfterArrivals(strategy, true, t2, late);
    AfterSnoc(strategy, true, t2 + late, ChildsStopped);
  }

  lemma StopAfter<M, V, R>(
      strategy: SupervisionStrategy, turns: seq<Turn<M, V, R>>, effects: seq<Effect<V>>, failed: bool)
    ensures var all := turns + [TakeStop(effects, failed)];
            && LifecycleAfter(strategy, true, all) == LifecycleAfter(strategy, true, turns)
            && (ErrorAfter(strategy, all).None? <==>
                  !failed && LastFault(effects).None? && ErrorAfter(strategy, turns).None?)
  {
    AfterSnoc(strategy, true, turns, TakeStop(effects, failed));
    FaultOfStop(effects, failed);
    hide ErrorAfter, LifecycleAfter, LastFault;
  }

  lemma FaultOfStop<V>(effects: seq<Effect<V>>, failed: bool)
    ensures var all := effects + if failed then [EmitFail(STOP_ERROR)] else [];
            LastFault(all) == if failed then Some(STOP_ERROR) else LastFault(effects)
  {
    EmitsSnoc(effects, EmitFail(STOP_ERROR));
    assert effects + [] == effects;
  }

  // A child waits for a verdict in its first run only.
  lemma JudgedIsStarted<M, V, R>(strategy: SupervisionStrategy, turns: seq<Turn<M, V, R>>)
    requires Runs(strategy, Initial(true), turns)
    ensures var s := Exec(strategy, Initial<M, V, R>(true), turns);
            s.running && s.wait.ForVerdict? ==> s.lifecycle == Started
  {
    ExecRestarted(strategy, turns);
    ExecSignalled(strategy, true, turns);
    SignalledRunCanStop(strategy, true, turns);
  }
}
