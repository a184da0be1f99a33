/** The lifecycle of one runner over every run: its startup signal, its hooks, how
    long a supervised start takes, and when a stop is final. */
module LifecycleProperties {
  import opened Wrappers
  import opened Supervision
  import opened Lifecycle
  import opened RunnerProperties

  // What a turn of the select loop leaves alone.
  ghost predicate LoopFrame<M, V, R>(s: State<M, V, R>, n: State<M, V, R>) {
    && n.running == s.running && n.hasParent == s.hasParent && n.retries == s.retries
    && n.startSender == s.startSender && n.registered == s.registered && n.finished == s.finished
    && n.trace.signals == s.trace.signals && n.trace.starts == s.trace.starts
    && n.trace.hooks == s.trace.hooks && n.trace.backoffs == s.trace.backoffs
    && (n.lifecycle == s.lifecycle || (s.hasParent && n.lifecycle == Restarted))
    && (!s.hasParent && s.error.Some? ==> n.error.Some?)
  }

  // The stop signal comes with a stop request, and a restart with the signal.
  ghost predicate SignalFrame<M, V, R>(s: State<M, V, R>, n: State<M, V, R>) {
    && s.channels.stops <= n.channels.stops
    && (s.stopSignal ==> n.stopSignal)
    && (n.stopSignal ==> s.stopSignal || n.channels.stops != [])
    && (n.lifecycle == s.lifecycle || n.stopSignal)
    && (s.wait.ForChilds? ==> n.wait == s.wait)
    && (n.wait.ForVerdict? ==> n.stopSignal == s.stopSignal)
  }

  // The turns that neither call a lifecycle hook nor change the lifecycle loop.
  predicate InLoop<M, V, R>(t: Turn<M, V, R>) {
    || FromOutside(t) || t.TakeReport? || t.TakeInner? || t.HearVerdict?
    || t.TakeMessage? || t.MailboxClosed?
  }

  lemma ReportFrame<M, V, R>(s: State<M, V, R>, effects: seq<Effect<V>>, action: ChildAction)
    requires s.channels.reports != []
    ensures LoopFrame(s, ReportNext(s, effects, action)) && SignalFrame(s, ReportNext(s, effects, action))
  {
    ApplyFrame(s.(channels := s.channels.(reports := s.channels.reports[1..])), effects);
  }

  lemma MessageFrame<M, V, R>(s: State<M, V, R>, effects: seq<Effect<V>>, result: R)
    requires s.channels.mailbox != []
    ensures LoopFrame(s, MessageNext(s, effects, result)) && SignalFrame(s, MessageNext(s, effects, result))
  {
    ApplyFrame(s.(channels := s.channels.(mailbox := s.channels.mailbox[1..])), effects);
  }

  lemma PassedFrame<M, V, R>(s: State<M, V, R>, action: InnerAction<V>)
    ensures LoopFrame(s, Passed(s, action)) && SignalFrame(s, Passed(s, action))
  {}

  lemma JudgedFrame<M, V, R>(s: State<M, V, R>, verdict: Option<ChildAction>)
    requires !s.wait.ForChilds? && (verdict.Some? ==> s.hasParent)
    ensures LoopFrame(s, Judged(s, verdict)) && SignalFrame(s, Judged(s, verdict))
  {}

  lemma InnerFrame<M, V, R>(s: State<M, V, R>)
    requires s.wait.AtSelect? && s.channels.inner != []
    ensures LoopFrame(s, InnerNext(s)) && SignalFrame(s, InnerNext(s))
  {
    var moved := s.(channels := s.channels.(inner := s.channels.inner[1..]));
    var passed := Passed(moved, s.channels.inner[0]);
    PassedFrame(moved, s.channels.inner[0]);
    JudgedFrame(passed, None);
    hide Passed, Judged;
    assert LoopFrame(s, moved) && SignalFrame(s, moved);
  }

  lemma LoopTurns<M, V, R>(strategy: SupervisionStrategy, s: State<M, V, R>, t: Turn<M, V, R>)
    requires Enabled(s, t) && InLoop(t)
    ensures LoopFrame(s, Next(strategy, s, t)) && SignalFrame(s, Next(strategy, s, t))
  {
    hide Apply, ReportNext, InnerNext, Judged, MessageNext;
    match t
    case TakeReport(effects, action) => ReportFrame(s, effects, action);
    case TakeInner => InnerFrame(s);
    case HearVerdict(verdict) => JudgedFrame(s, verdict);
    case TakeMessage(effects, result) => MessageFrame(s, effects, result);
    case _ =>
  }

  // -------------------------------------------------- the startup signal

  ghost predicate Signalled<M, V, R>(s: State<M, V, R>) {
    && (s.running ==> (s.lifecycle == Started || s.lifecycle == Restarted) && s.trace.starts > 0)
    && (s.startSender <==> s.trace.signals == [])
    && |s.trace.signals| <= 1
    && (s.trace.signals == [true] <==> s.trace.starts > 0)
    && (s.trace.signals == [false] ==> s.finished)
    && (s.finished ==> s.lifecycle == Terminated && s.trace.signals != [] && !s.registered)
  }

  // `post_stop` is never called twice and no hook follows it.
  ghost predicate PostStopLast<M, V, R>(s: State<M, V, R>) {
    if s.lifecycle == Terminated
    then s.trace.hooks != [] ==> PostStop !in s.trace.hooks[..|s.trace.hooks| - 1]
    else PostStop !in s.trace.hooks
  }

  lemma NextSignalled<M, V, R>(strategy: SupervisionStrategy, s: State<M, V, R>, t: Turn<M, V, R>)
    requires Enabled(s, t) && Signalled(s)
    ensures Signalled(Next(strategy, s, t))
  {
    hide Apply, StartNext, StopNext, LeaveLoop, ReportNext, InnerNext, Judged, MessageNext, SuperviseNext;
    match t
    case CallPreStart(effects, failure) => StartFrame(s, effects, failure);
    case TakeStop(effects, failed) => StopFrame(s, effects, failed);
    case ChildsStopped => LeaveFrame(s);
    case Supervise(effects, failure) => SuperviseFrame(strategy, s, effects, failure);
    case CallPostStop(effects) => TouchedHook(s, PostStop, effects);
    case BeginRun => OneSignal(s.trace.signals);
    case Escalate =>
    case Finish => OneSignal(s.trace.signals);
    case _ => LoopTurns(strategy, s, t);
  }

  lemma NextPostStop<M, V, R>(strategy: SupervisionStrategy, s: State<M, V, R>, t: Turn<M, V, R>)
    requires Enabled(s, t) && Signalled(s) && PostStopLast(s)
    ensures PostStopLast(Next(strategy, s, t))
  {
    hide Apply, StartNext, StopNext, LeaveLoop, ReportNext, InnerNext, Judged, MessageNext, SuperviseNext;
    match t
    case CallPreStart(effects, failure) => StartFrame(s, effects, failure);
    case TakeStop(effects, failed) => StopFrame(s, effects, failed);
    case ChildsStopped => LeaveFrame(s);
    case Supervise(effects, failure) => SuperviseFrame(strategy, s, effects, failure);
    case CallPostStop(effects) =>
      TouchedHook(s, PostStop, effects);
      assert (s.trace.hooks + [PostStop])[..|s.trace.hooks|] == s.trace.hooks;
    case BeginRun =>
    case Escalate =>
    case Finish =>
    case _ => LoopTurns(strategy, s, t);
  }

  lemma OneSignal(signals: seq<bool>)
    ensures |signals| <= 1 ==> signals == [] || signals == [true] || signals == [false]
    ensures [false] != [true]
  {
    if |signals| == 1 { assert signals == if signals[0] then [true] else [false]; }
    assert [false][0] != [true][0];
  }

  lemma {:induction false} ExecSignalled<M, V, R>(
      strategy: SupervisionStrategy, hasParent: bool, turns: seq<Turn<M, V, R>>)
    requires Runs(strategy, Initial(hasParent), turns)
    ensures var s := Exec(strategy, Initial(hasParent), turns); Signalled(s) && PostStopLast(s)
    decreases |turns|
  {
    if turns != [] {
      var before := turns[..|turns| - 1];
      ExecSignalled(strategy, hasParent, before);
      NextSignalled(strategy, Exec(strategy, Initial(hasParent), before), turns[|turns| - 1]);
      NextPostStop(strategy, Exec(strategy, Initial(hasParent), before), turns[|turns| - 1]);
    }
  }

  /** For every sequence of hook outcomes and verdicts: the startup signal is sent
      at most once, is true exactly when the actor entered Started, and has been
      sent when the run is over; then the path is not registered, no turn is
      left, and `post_stop` was called at most once with no hook after it. */
  lemma LifecycleSignalling<M, V, R>(
      strategy: SupervisionStrategy, hasParent: bool, turns: seq<Turn<M, V, R>>, t: Turn<M, V, R>)
    requires Runs(strategy, Initial(hasParent), turns)
    ensures var s := Exec(strategy, Initial(hasParent), turns);
            && |s.trace.signals| <= 1
            && (s.trace.signals == [true] <==> s.trace.starts > 0)
            && (s.finished ==> |s.trace.signals| == 1 && !s.registered && !Enabled(s, t))
            && (forall i | 0 <= i < |s.trace.hooks| :: s.trace.hooks[i] == PostStop ==> i == |s.trace.hooks| - 1)
  {
    ExecSignalled(strategy, hasParent, turns);
    var s := Exec(strategy, Initial(hasParent), turns);
    forall i | 0 <= i < |s.trace.hooks| - 1 ensures s.trace.hooks[i] != PostStop {
      assert s.trace.hooks[i] == s.trace.hooks[..|s.trace.hooks| - 1][i];
    }
  }

  // ---------------------------------------------------- supervised startup

  function Limit(strategy: SupervisionStrategy): nat {
    match strategy case Stop => 0 case Retry(retry) => MaxRetries(retry)
  }

  function CountHook(hooks: seq<Hook>, hook: Hook): nat {
    multiset(hooks)[hook]
  }

  // The hooks called and the waits taken before the first entry into `run`.
  ghost predicate Starting<M, V, R>(strategy: SupervisionStrategy, s: State<M, V, R>) {
    && s.trace.starts == 0 && !s.running && (s.finished ==> s.lifecycle == Terminated)
    && CountHook(s.trace.hooks, PreStart) == (if s.lifecycle == Created then 0 else 1)
    && s.retries <= Limit(strategy)
    && |s.trace.backoffs| == CountHook(s.trace.hooks, PreRestart) <= Limit(strategy)
    && (s.lifecycle != Started ==> CountHook(s.trace.hooks, PreRestart) == s.retries)
    && (strategy.Retry? ==> forall b | b in s.trace.backoffs :: b == NextBackoff(strategy.strategy).0)
    && (s.hasParent ==> s.lifecycle != Restarted && s.lifecycle != Stopped && s.trace.backoffs == [])
  }

  /** Decreases with every turn of a runner that has not entered `run`. */
  function Left<M, V, R>(strategy: SupervisionStrategy, s: State<M, V, R>): nat {
    var tries := if s.retries <= Limit(strategy) then Limit(strategy) - s.retries else 0;
    match s.lifecycle
    case Created => tries + 5
    case Failed => tries + 4
    case Restarted => tries + 3
    case Stopped => 2
    case Started => 0
    case Terminated => if s.finished then 0 else 1
  }

  // One turn keeps what a start has used, and uses up some of what is left.
  ghost predicate GoesOn<M, V, R>(strategy: SupervisionStrategy, s: State<M, V, R>, n: State<M, V, R>) {
    Starting(strategy, n) && n.hasParent == s.hasParent && Left(strategy, n) < Left(strategy, s)
  }

  lemma StartingPreStart<M, V, R>(
      strategy: SupervisionStrategy, s: State<M, V, R>, effects: seq<Effect<V>>, failure: Option<ActorError>)
    requires Starting(strategy, s) && s.lifecycle == Created
    ensures GoesOn(strategy, s, StartNext(s, effects, failure))
  {
    hide StartNext, CountHook;
    StartFrame(s, effects, failure);
    CountSnoc(s.trace.hooks, PreStart);
  }

  lemma StartingSupervise<M, V, R>(
      strategy: SupervisionStrategy, s: State<M, V, R>, effects: seq<Effect<V>>, failure: Option<ActorError>)
    requires Starting(strategy, s) && s.lifecycle == Restarted
    ensures GoesOn(strategy, s, SuperviseNext(strategy, s, effects, failure))
  {
    hide SuperviseNext, CountHook;
    SuperviseFrame(strategy, s, effects, failure);
    CountSnoc(s.trace.hooks, PreRestart);
    var n := SuperviseNext(strategy, s, effects, failure);
    assert s.trace.hooks + [] == s.trace.hooks && s.trace.backoffs + [] == s.trace.backoffs;
    if n.trace.backoffs != s.trace.backoffs {
      assert n.trace.backoffs == s.trace.backoffs + [NextBackoff(strategy.strategy).0];
    }
  }

  lemma StartingPostStop<M, V, R>(strategy: SupervisionStrategy, s: State<M, V, R>, effects: seq<Effect<V>>)
    requires Starting(strategy, s) && s.lifecycle == Stopped
    ensures GoesOn(strategy, s, Apply(Called(s, PostStop), effects).(lifecycle := Terminated))
  {
    hide Apply, CountHook;
    TouchedHook(s, PostStop, effects);
    CountSnoc(s.trace.hooks, PostStop);
  }

  lemma StartingTurn<M, V, R>(strategy: SupervisionStrategy, s: State<M, V, R>, t: Turn<M, V, R>)
    requires Starting(strategy, s) && Enabled(s, t) && !t.BeginRun?
    ensures var n := Next(strategy, s, t);
            if FromOutside(t)
            then Starting(strategy, n) && n.hasParent == s.hasParent && Left(strategy, n) == Left(strategy, s)
            else GoesOn(strategy, s, n)
  {
    hide Apply, StartNext, SuperviseNext, CountHook;
    match t
    case CallPreStart(effects, failure) => StartingPreStart(strategy, s, effects, failure);
    case Supervise(effects, failure) => StartingSupervise(strategy, s, effects, failure);
    case CallPostStop(effects) => StartingPostStop(strategy, s, effects);
    case _ =>
  }

  lemma CountSnoc(hooks: seq<Hook>, hook: Hook)
    ensures forall h :: CountHook(hooks + [hook], h) == CountHook(hooks, h) + if h == hook then 1 else 0
    ensures hooks + [] == hooks
  {
  }

  predicate BeforeRun<M, V, R>(turns: seq<Turn<M, V, R>>) {
    forall i | 0 <= i < |turns| :: !turns[i].BeginRun?
  }

  function OwnTurns<M, V, R>(turns: seq<Turn<M, V, R>>): nat
    decreases |turns|
  {
    if turns == [] then 0
    else OwnTurns(turns[..|turns| - 1]) + if FromOutside(turns[|turns| - 1]) then 0 else 1
  }

  lemma {:induction false} StartingRun<M, V, R>(
      strategy: SupervisionStrategy, hasParent: bool, turns: seq<Turn<M, V, R>>)
    requires Runs(strategy, Initial(hasParent), turns) && BeforeRun(turns)
    ensures var s := Exec(strategy, Initial(hasParent), turns);
            && Starting(strategy, s) && s.hasParent == hasParent
            && OwnTurns(turns) + Left(strategy, s) <= Limit(strategy) + 5
    decreases |turns|
  {
    if turns != [] {
      var before := turns[..|turns| - 1];
      StartingRun(strategy, hasParent, before);
      StartingTurn(strategy, Exec(strategy, Initial(hasParent), before), turns[|turns| - 1]);
    }
  }

  // A start that has not ended always has a turn left, whatever its hook answers.
  lemma StartingGoesOn<M, V, R>(
      strategy: SupervisionStrategy, s: State<M, V, R>, effects: seq<Effect<V>>, failure: Option<ActorError>)
    requires Starting(strategy, s) && s.lifecycle != Started && !s.finished
    ensures var turns: set<Turn<M, V, R>> :=
              {CallPreStart(effects, failure), Supervise(effects, failure), CallPostStop(effects), Escalate, Finish};
            exists t | t in turns :: Enabled(s, t)
  {
    var t: Turn<M, V, R> := match s.lifecycle
      case Created => CallPreStart(effects, failure)
      case Restarted => Supervise(effects, failure)
      case Stopped => CallPostStop(effects)
      case Failed => Escalate
      case _ => Finish;
    assert Enabled(s, t);
  }

  /** A start takes at most max_retries + 5 turns of the runner. Until it is over,
      `pre_start` is called at most once and `pre_restart` and `next_backoff` at
      most max_retries times each, none under Stop; every wait is the first wait
      of the strategy, which is made anew each time; a child retries nothing. */
  lemma StartupBound<M, V, R>(strategy: SupervisionStrategy, hasParent: bool, turns: seq<Turn<M, V, R>>)
    requires Runs(strategy, Initial(hasParent), turns) && BeforeRun(turns)
    ensures var s := Exec(strategy, Initial(hasParent), turns);
            && OwnTurns(turns) <= Limit(strategy) + 5
            && CountHook(s.trace.hooks, PreStart) <= 1
            && CountHook(s.trace.hooks, PreRestart) == |s.trace.backoffs| <= Limit(strategy)
            && (strategy.Retry? ==> forall b | b in s.trace.backoffs :: b == NextBackoff(strategy.strategy).0)
            && (hasParent ==> s.trace.backoffs == [] && OwnTurns(turns) <= 3)
            && (OwnTurns(turns) == Limit(strategy) + 5 ==> s.lifecycle == Started || s.finished)
  {
    StartingRun(strategy, hasParent, turns);
    if hasParent { ChildStarts(strategy, turns); }
  }

  // Every wait so far was the first of the strategy.
  ghost predicate FirstWaits<M, V, R>(strategy: SupervisionStrategy, s: State<M, V, R>) {
    if strategy.Stop? then s.trace.backoffs == []
    else forall b | b in s.trace.backoffs :: b == NextBackoff(strategy.strategy).0
  }

  lemma NextWaits<M, V, R>(strategy: SupervisionStrategy, s: State<M, V, R>, t: Turn<M, V, R>)
    requires Enabled(s, t) && FirstWaits(strategy, s)
    ensures FirstWaits(strategy, Next(strategy, s, t))
  {
    hide Apply, StartNext, StopNext, LeaveLoop, ReportNext, InnerNext, Judged, MessageNext, SuperviseNext;
    match t
    case CallPreStart(effects, failure) => StartFrame(s, effects, failure);
    case TakeStop(effects, failed) => StopFrame(s, effects, failed);
    case ChildsStopped => LeaveFrame(s);
    case Supervise(effects, failure) =>
      SuperviseFrame(strategy, s, effects, failure);
      assert s.trace.backoffs + [] == s.trace.backoffs;
    case CallPostStop(effects) => TouchedHook(s, PostStop, effects);
    case BeginRun =>
    case Escalate =>
    case Finish =>
    case _ => LoopTurns(strategy, s, t);
  }

  /** Over every run, restarts after failures included, every wait is the first
      wait of the strategy: a custom list of durations never gets further. */
  lemma {:induction false} WaitsAreFirst<M, V, R>(
      strategy: SupervisionStrategy, hasParent: bool, turns: seq<Turn<M, V, R>>)
    requires Runs(strategy, Initial(hasParent), turns)
    ensures FirstWaits(strategy, Exec(strategy, Initial(hasParent), turns))
    decreases |turns|
  {
    if turns != [] {
      var before := turns[..|turns| - 1];
      WaitsAreFirst(strategy, hasParent, before);
      NextWaits(strategy, Exec(strategy, Initial(hasParent), before), turns[|turns| - 1]);
    }
  }

  /** How far a child's start has gone. */
  function Stage<M, V, R>(s: State<M, V, R>): nat {
    match s.lifecycle
    case Created => 0
    case Terminated => if s.finished then 3 else 2
    case _ => 1
  }

  lemma ChildTurn<M, V, R>(strategy: SupervisionStrategy, s: State<M, V, R>, t: Turn<M, V, R>)
    requires Starting(strategy, s) && s.hasParent && Enabled(s, t) && !t.BeginRun?
    ensures Stage(Next(strategy, s, t)) == Stage(s) + if FromOutside(t) then 0 else 1
  {
    hide Apply, StartNext, SuperviseNext, CountHook;
    match t
    case CallPreStart(effects, failure) => StartFrame(s, effects, failure);
    case _ =>
  }

  lemma {:induction false} ChildStarts<M, V, R>(strategy: SupervisionStrategy, turns: seq<Turn<M, V, R>>)
    requires Runs(strategy, Initial(true), turns) && BeforeRun(turns)
    ensures OwnTurns(turns) == Stage(Exec(strategy, Initial(true), turns))
    decreases |turns|
  {
    if turns != [] {
      var before := turns[..|turns| - 1];
      StartingRun(strategy, true, before);
      ChildStarts(strategy, before);
      var s := Exec(strategy, Initial(true), before);
      ChildTurn(strategy, s, turns[|turns| - 1]);
      assert Exec(strategy, Initial(true), turns) == Next(strategy, s, turns[|turns| - 1]);
    }
  }

  // ------------------------------------------------------ final and not

  // In the first run a stop signal comes with a stop request, taken or to take.
  ghost predicate RequestPending<M, V, R>(s: State<M, V, R>) {
    && (s.trace.starts == 0 ==> !s.running && !s.stopSignal)
    && (s.running && s.wait.ForVerdict? ==> !s.stopSignal)
    && (s.running && s.trace.starts == 1 && s.stopSignal ==>
          s.wait.ForChilds? || (s.wait.AtSelect? && s.channels.stops != []))
  }

  lemma OutsideKeepsSignal<M, V, R>(strategy: SupervisionStrategy, s: State<M, V, R>, t: Turn<M, V, R>)
    requires Enabled(s, t)
    ensures FromOutside(t) ==> Next(strategy, s, t).stopSignal == s.stopSignal
  {
    hide Apply, StartNext, StopNext, LeaveLoop, ReportNext, InnerNext, Judged, MessageNext, SuperviseNext;
  }

  lemma NextPending<M, V, R>(strategy: SupervisionStrategy, s: State<M, V, R>, t: Turn<M, V, R>)
    requires Enabled(s, t) && RequestPending(s) && Signalled(s)
    ensures RequestPending(Next(strategy, s, t))
  {
    hide Apply, StartNext, StopNext, LeaveLoop, ReportNext, InnerNext, Judged, MessageNext, SuperviseNext;
    match t
    case CallPreStart(effects, failure) => StartFrame(s, effects, failure);
    case TakeStop(effects, failed) => StopFrame(s, effects, failed);
    case ChildsStopped => LeaveFrame(s);
    case Supervise(effects, failure) => SuperviseFrame(strategy, s, effects, failure);
    case CallPostStop(effects) => TouchedHook(s, PostStop, effects);
    case BeginRun =>
    case Escalate =>
    case Finish =>
    case _ =>
      LoopTurns(strategy, s, t);
      OutsideKeepsSignal(strategy, s, t);
  }

  /** A first run whose stop signal is set can always end: its stop branch has
      begun or has a request to take. (A restarted run may have none: see RestartedChildWaits.) */
  lemma {:induction false} SignalledRunCanStop<M, V, R>(
      strategy: SupervisionStrategy, hasParent: bool, turns: seq<Turn<M, V, R>>)
    requires Runs(strategy, Initial(hasParent), turns)
    ensures RequestPending(Exec(strategy, Initial(hasParent), turns))
    decreases |turns|
  {
    if turns != [] {
      var before := turns[..|turns| - 1];
      SignalledRunCanStop(strategy, hasParent, before);
      ExecSignalled(strategy, hasParent, before);
      NextPending(strategy, Exec(strategy, Initial(hasParent), before), turns[|turns| - 1]);
    }
  }

  // A child is restarted only on a verdict, and the verdict sets the stop signal.
  ghost predicate RestartedSignalled<M, V, R>(s: State<M, V, R>) {
    && s.hasParent
    && (s.lifecycle == Created ==> s.trace.starts == 0)
    && (s.lifecycle == Restarted ==> s.stopSignal)
    && (s.lifecycle == Started && !s.running && s.trace.starts > 0 ==> s.stopSignal)
    && (s.trace.starts > 1 ==> s.stopSignal)
  }

  lemma NextRestarted<M, V, R>(strategy: SupervisionStrategy, s: State<M, V, R>, t: Turn<M, V, R>)
    requires Enabled(s, t) && RestartedSignalled(s) && Signalled(s)
    ensures RestartedSignalled(Next(strategy, s, t))
  {
    hide Apply, StartNext, StopNext, LeaveLoop, ReportNext, InnerNext, Judged, MessageNext, SuperviseNext;
    match t
    case CallPreStart(effects, failure) => StartFrame(s, effects, failure);
    case TakeStop(effects, failed) => StopFrame(s, effects, failed);
    case ChildsStopped => LeaveFrame(s);
    case Supervise(effects, failure) => SuperviseFrame(strategy, s, effects, failure);
    case CallPostStop(effects) => TouchedHook(s, PostStop, effects);
    case BeginRun =>
    case Escalate =>
    case Finish =>
    case _ => LoopTurns(strategy, s, t);
  }

  lemma {:induction false} ExecRestarted<M, V, R>(strategy: SupervisionStrategy, turns: seq<Turn<M, V, R>>)
    requires Runs(strategy, Initial(true), turns)
    ensures RestartedSignalled(Exec(strategy, Initial(true), turns))
    decreases |turns|
  {
    if turns != [] {
      var before := turns[..|turns| - 1];
      ExecRestarted(strategy, before);
      ExecSignalled(strategy, true, before);
      NextRestarted(strategy, Exec(strategy, Initial(true), before), turns[|turns| - 1]);
    }
  }

  ghost predicate HasFault<V>(taken: seq<InnerAction<V>>) {
    exists i | 0 <= i < |taken| :: taken[i].Fail?
  }

  // The inner queue, the mailbox and the reports are not read again.
  ghost predicate Deafened<M, V, R>(s: State<M, V, R>) {
    s.stopSignal || (s.running && s.wait.ForVerdict?)
  }

  lemma TakenTurn<M, V, R>(strategy: SupervisionStrategy, s: State<M, V, R>, t: Turn<M, V, R>)
    requires Enabled(s, t)
    ensures Next(strategy, s, t).trace.taken == s.trace.taken + if t.TakeInner? then [s.channels.inner[0]] else []
  {
    hide Apply, StartNext, StopNext, LeaveLoop, Judged, SuperviseNext;
    match t
    case CallPreStart(_, _) => HookTurns(strategy, s, t);
    case TakeStop(_, _) => HookTurns(strategy, s, t);
    case ChildsStopped => LeaveFrame(s);
    case Supervise(_, _) => HookTurns(strategy, s, t);
    case CallPostStop(_) => HookTurns(strategy, s, t);
    case TakeReport(effects, _) =>
      ApplyFrame(s.(channels := s.channels.(reports := s.channels.reports[1..])), effects);
    case TakeMessage(effects, _) =>
      ApplyFrame(s.(channels := s.channels.(mailbox := s.channels.mailbox[1..])), effects);
    case TakeInner => InnerTaken(s);
    case HearVerdict(verdict) => JudgedTaken(s, verdict);
    case _ =>
  }

  lemma InnerTaken<M, V, R>(s: State<M, V, R>)
    requires s.channels.inner != []
    ensures InnerNext(s).trace.taken == s.trace.taken + [s.channels.inner[0]]
    ensures s.running && s.channels.inner[0].Fail? ==> Deafened(InnerNext(s))
  {
    JudgedTaken(Passed(s.(channels := s.channels.(inner := s.channels.inner[1..])), s.channels.inner[0]), None);
    hide Judged;
  }

  lemma JudgedTaken<M, V, R>(s: State<M, V, R>, verdict: Option<ChildAction>)
    ensures Judged(s, verdict).trace.taken == s.trace.taken && Judged(s, verdict).stopSignal
    ensures SameWork(s, Judged(s, verdict))
  {}

  lemma DeafenedTurn<M, V, R>(strategy: SupervisionStrategy, s: State<M, V, R>, t: Turn<M, V, R>)
    requires Deafened(s) && Signalled(s) && Enabled(s, t)
    ensures SameWork(s, Next(strategy, s, t)) && Deafened(Next(strategy, s, t))
  {
    if s.stopSignal {
      FrozenTurn(strategy, s, t);
    } else {
      hide Apply, StartNext, StopNext, LeaveLoop, ReportNext, InnerNext, Judged, MessageNext, SuperviseNext;
      if t.HearVerdict? { JudgedTaken(s, t.verdict); }
    }
  }

  lemma {:induction false} DeafenedRun<M, V, R>(
      strategy: SupervisionStrategy, s: State<M, V, R>, turns: seq<Turn<M, V, R>>)
    requires Deafened(s) && Signalled(s) && Runs(strategy, s, turns)
    ensures var n := Exec(strategy, s, turns); SameWork(s, n) && Deafened(n) && Signalled(n)
    decreases |turns|
  {
    if turns != [] {
      var (before, t) := (turns[..|turns| - 1], turns[|turns| - 1]);
      DeafenedRun(strategy, s, before);
      DeafenedTurn(strategy, Exec(strategy, s, before), t);
      NextSignalled(strategy, Exec(strategy, s, before), t);
    }
  }

  lemma {:induction false} FaultDeafens<M, V, R>(
      strategy: SupervisionStrategy, hasParent: bool, turns: seq<Turn<M, V, R>>)
    requires Runs(strategy, Initial(hasParent), turns)
    ensures var s := Exec(strategy, Initial(hasParent), turns); HasFault(s.trace.taken) ==> Deafened(s)
    decreases |turns|
  {
    if turns != [] {
      var (before, t) := (turns[..|turns| - 1], turns[|turns| - 1]);
      FaultDeafens(strategy, hasParent, before);
      ExecSignalled(strategy, hasParent, before);
      var s := Exec(strategy, Initial(hasParent), before);
      TakenTurn(strategy, s, t);
      if HasFault(s.trace.taken) {
        DeafenedTurn(strategy, s, t);
      } else if t.TakeInner? {
        InnerTaken(s);
      }
    }
  }

  /** A fault is the last thing an actor processes. Once one has been taken from
      the inner queue, of a child or of a root, no message, inner action or child
      report is processed again, in this run or after any restart. */
  lemma FaultIsLast<M, V, R>(
      strategy: SupervisionStrategy, hasParent: bool, turns: seq<Turn<M, V, R>>, more: seq<Turn<M, V, R>>)
    requires Runs(strategy, Initial(hasParent), turns)
    requires HasFault(Exec(strategy, Initial<M, V, R>(hasParent), turns).trace.taken)
    requires Runs(strategy, Exec(strategy, Initial<M, V, R>(hasParent), turns), more)
    ensures var s := Exec(strategy, Initial<M, V, R>(hasParent), turns);
            SameWork(s, Exec(strategy, s, more))
  {
    FaultDeafens(strategy, hasParent, turns);
    ExecSignalled(strategy, hasParent, turns);
    DeafenedRun(strategy, Exec(strategy, Initial(hasParent), turns), more);
  }

  /** A child restarted by its supervisor runs again but never handles another
      message, inner action or child report, whatever follows. */
  lemma RestartedChildIsDeaf<M, V, R>(
      strategy: SupervisionStrategy, turns: seq<Turn<M, V, R>>, more: seq<Turn<M, V, R>>)
    requires Runs(strategy, Initial(true), turns)
    requires Exec(strategy, Initial<M, V, R>(true), turns).trace.starts > 1
    requires Runs(strategy, Exec(strategy, Initial<M, V, R>(true), turns), more)
    ensures var s := Exec(strategy, Initial<M, V, R>(true), turns);
            SameWork(s, Exec(strategy, s, more))
  {
    ExecRestarted(strategy, turns);
    StopSignalIsFinal(strategy, Exec(strategy, Initial(true), turns), more);
  }

  /** A message makes the child fail, its parent orders a restart, and the stop
      and the restart go through. */
  function RestartTurns<M, V, R>(result: R, error: ActorError): seq<Turn<M, V, R>> {
    [TakeMessage([EmitFail(error)], result), TakeInner, HearVerdict(Some(ActionRestart)),
     TakeStop([], false), ChildsStopped, Supervise([], None), BeginRun]
  }

  // A child told to restart, with the one request that its own fault made.
  ghost predicate ToldToRestart<M, V, R>(s: State<M, V, R>) {
    && s.hasParent && s.retries == 0 && s.lifecycle == Restarted && Selecting(s) && s.error.None? && s.stopSignal
    && !s.startSender && s.channels.stops == [None]
  }

  lemma FaultRestarts<M, V, R>(strategy: SupervisionStrategy, s: State<M, V, R>, result: R, error: ActorError)
    requires s.hasParent && s.retries == 0 && s.lifecycle == Started && Selecting(s) && !s.stopSignal && !s.startSender
    requires s.channels.inner == [] && s.channels.stops == [] && s.channels.mailbox != []
    ensures var t := RestartTurns<M, V, R>(result, error);
            && Runs(strategy, s, t[..3])
            && ToldToRestart(Exec(strategy, s, t[..3])) && Exec(strategy, s, t[..3]).trace.starts == s.trace.starts
  {
    hide Apply, InnerNext, Judged, MessageNext;
    var t := RestartTurns<M, V, R>(result, error);
    ExecNothing(strategy, s, t);
    hide Exec, Runs;
    ExecTo(strategy, s, t, 0);
    FailingMessage(s, result, error);
    ExecTo(strategy, s, t, 1);
    RestartVerdict(Exec(strategy, s, t[..1]));
    ExecTo(strategy, s, t, 2);
  }

  lemma StopThenRun<M, V, R>(strategy: SupervisionStrategy, s: State<M, V, R>)
    requires ToldToRestart(s) && Limit(strategy) > 0
    ensures var stopping := StopNext(s, [], false);
            var restarted := SuperviseNext(strategy, LeaveLoop(stopping), [], None);
            && LeaveLoop(stopping).lifecycle == Restarted && !LeaveLoop(stopping).running
            && stopping.running && stopping.wait.ForChilds?
            && restarted.lifecycle == Started && !restarted.running
            && restarted.stopSignal && restarted.channels.stops == [] && restarted.trace.starts == s.trace.starts
  {
    hide Apply, StopNext, LeaveLoop, SuperviseNext;
    QuietStop(s);
    StopFrame(s, [], false);
    var stopping := StopNext(s, [], false);
    LeaveFrame(stopping);
    LeaveKeepsStops(stopping);
    SuperviseFrame(strategy, LeaveLoop(stopping), [], None);
    QuietRestart(strategy, LeaveLoop(stopping));
  }

  /** A child at rest whose next message makes it fail, and whose parent orders a
      restart, comes to run so, with no request left that would stop it. */
  lemma RestartedChildWaits<M, V, R>(strategy: SupervisionStrategy, s: State<M, V, R>, result: R, error: ActorError)
    requires Limit(strategy) > 0 && s.retries == 0
    requires s.hasParent && s.lifecycle == Started && Selecting(s) && !s.stopSignal && !s.startSender
    requires s.channels.inner == [] && s.channels.stops == [] && s.channels.mailbox != []
    ensures var t := RestartTurns<M, V, R>(result, error);
            && Runs(strategy, s, t)
            && var n := Exec(strategy, s, t);
               n.running && n.trace.starts == s.trace.starts + 1 && n.stopSignal && n.channels.stops == []
  {
    hide Exec, Runs, Apply, StopNext, LeaveLoop, SuperviseNext;
    var t := RestartTurns<M, V, R>(result, error);
    FaultRestarts(strategy, s, result, error);
    StopThenRun(strategy, Exec(strategy, s, t[..3]));
    ExecTo(strategy, s, t, 3);
    ExecTo(strategy, s, t, 4);
    ExecTo(strategy, s, t, 5);
    ExecTo(strategy, s, t, 6);
    assert t[..7] == t;
  }

  /** Such a child: a new one that has started and been sent a message. */
  lemma StartedChild<M, V, R>(strategy: SupervisionStrategy, message: Envelope<M>)
    ensures var t: seq<Turn<M, V, R>> := [CallPreStart([], None), BeginRun, Enqueue(message)];
            && Runs(strategy, Initial(true), t)
            && var s := Exec(strategy, Initial<M, V, R>(true), t);
               && s.hasParent && s.retries == 0 && s.lifecycle == Started && Selecting(s)
               && !s.stopSignal && !s.startSender
               && s.channels.inner == [] && s.channels.stops == [] && s.channels.mailbox == [message]
  {
    var t: seq<Turn<M, V, R>> := [CallPreStart([], None), BeginRun, Enqueue(message)];
    var s0 := Initial<M, V, R>(true);
    assert t[..0] == [];
    ExecTo(strategy, s0, t, 0);
    ExecTo(strategy, s0, t, 1);
    ExecTo(strategy, s0, t, 2);
    assert t[..3] == t;
  }

  lemma FailingMessage<M, V, R>(s: State<M, V, R>, result: R, error: ActorError)
    requires s.channels.mailbox != [] && s.channels.inner == []
    ensures var n := MessageNext(s, [EmitFail(error)], result);
            && n.channels.inner == [Fail(error)] && n.channels.stops == s.channels.stops
            && n.lifecycle == s.lifecycle && n.hasParent == s.hasParent && n.running == s.running && n.wait == s.wait
            && n.stopSignal == s.stopSignal && n.retries == s.retries && n.finished == s.finished
            && n.trace.starts == s.trace.starts && n.trace.acks == s.trace.acks && n.startSender == s.startSender
  {
    hide Apply;
    ApplyOnly(s.(channels := s.channels.(mailbox := s.channels.mailbox[1..])), EmitFail(error));
  }

  lemma RestartVerdict<M, V, R>(s: State<M, V, R>)
    requires s.hasParent && |s.channels.inner| == 1 && s.channels.inner[0].Fail?
    ensures InnerNext(s).wait.ForVerdict? && InnerNext(s).hasParent && InnerNext(s).running == s.running
    ensures var n := Judged(InnerNext(s), Some(ActionRestart));
            && n.channels.stops == s.channels.stops + [None] && n.lifecycle == Restarted
            && n.error.None? && n.wait.AtSelect?
            && n.hasParent && n.running == s.running && n.stopSignal && n.retries == s.retries
            && n.trace.starts == s.trace.starts && n.startSender == s.startSender
  {}

  lemma LeaveKeepsStops<M, V, R>(s: State<M, V, R>)
    requires s.wait.ForChilds?
    ensures LeaveLoop(s).channels == s.channels
  {}

  lemma ApplyNothing<M, V, R>(s: State<M, V, R>)
    ensures Apply(s, []) == s
  {}

  lemma ApplyOnly<M, V, R>(s: State<M, V, R>, e: Effect<V>)
    ensures Apply(s, [e]) == ApplyOne(s, e)
  {
    assert [e][..0] == [];
  }

  lemma QuietStop<M, V, R>(s: State<M, V, R>)
    requires s.channels.stops != []
    ensures var n := StopNext(s, [], false);
            n.channels.stops == s.channels.stops[1..] && n.error == s.error
  {
    hide Apply;
    ApplyNothing(Called(StopTaken(s), PreStop));
  }

  lemma QuietRestart<M, V, R>(strategy: SupervisionStrategy, s: State<M, V, R>)
    ensures SuperviseNext(strategy, s, [], None).channels.stops == s.channels.stops
  {
    hide Apply, NextBackoff, MaxRetries;
    if strategy.Retry? {
      var waited := s.(retries := s.retries + 1,
                       trace := s.trace.(backoffs := s.trace.backoffs + [NextBackoff(strategy.strategy).0]));
      ApplyNothing(Called(waited, PreRestart));
    }
  }

  lemma ExecNothing<M, V, R>(strategy: SupervisionStrategy, s: State<M, V, R>, turns: seq<Turn<M, V, R>>)
    ensures Runs(strategy, s, turns[..0]) && Exec(strategy, s, turns[..0]) == s
  {}

  lemma ExecTo<M, V, R>(strategy: SupervisionStrategy, s: State<M, V, R>, turns: seq<Turn<M, V, R>>, i: nat)
    requires i < |turns| && Runs(strategy, s, turns[..i]) && Enabled(Exec(strategy, s, turns[..i]), turns[i])
    ensures Runs(strategy, s, turns[..i + 1])
    ensures Exec(strategy, s, turns[..i + 1]) == Next(strategy, Exec(strategy, s, turns[..i]), turns[i])
  {
    ExecSnoc(strategy, s, turns[..i], turns[i]);
    assert turns[..i] + [turns[i]] == turns[..i + 1];
  }

  predicate Faultless<V>(effects: seq<Effect<V>>) {
    forall i | 0 <= i < |effects| :: !effects[i].EmitFail?
  }

  lemma ApplyOneError<M, V, R>(s: State<M, V, R>, e: Effect<V>)
    ensures ApplyOne(s, e).error.None? <==> s.error.None? && !e.EmitFail?
  {
    hide Push, PushStop;
    match e
    case Publish(v) => PushKeepsError(s, Event(v));
    case EmitError(x) => PushKeepsError(s, Error(x));
    case EmitFail(x) => PushKeepsError(s.(error := Some(x)), Fail(x));
    case RequestStop => PushStopKeepsError(s);
  }

  lemma PushKeepsError<M, V, R>(s: State<M, V, R>, a: InnerAction<V>)
    ensures Push(s, a).error == s.error
  {}

  lemma PushStopKeepsError<M, V, R>(s: State<M, V, R>)
    ensures PushStop(s).error == s.error
  {}

  lemma {:induction false} ApplyError<M, V, R>(s: State<M, V, R>, effects: seq<Effect<V>>)
    ensures Apply(s, effects).error.None? <==> s.error.None? && Faultless(effects)
    decreases |effects|
  {
    if effects != [] {
      var (init, last) := (effects[..|effects| - 1], effects[|effects| - 1]);
      ApplyError(s, init);
      ApplyOneError(Apply(s, init), last);
      hide ApplyOne;
      assert effects == init + [last];
    }
  }

  // What arrives from outside leaves the stop branch where it is.
  lemma {:induction false} ArrivalsFrame<M, V, R>(
      strategy: SupervisionStrategy, s: State<M, V, R>, arrivals: seq<Turn<M, V, R>>)
    requires Runs(strategy, s, arrivals) && OwnTurns(arrivals) == 0
    ensures var n := Exec(strategy, s, arrivals);
            n.lifecycle == s.lifecycle && n.error == s.error && n.wait == s.wait && n.running == s.running
    decreases |arrivals|
  {
    if arrivals != [] {
      ArrivalsFrame(strategy, s, arrivals[..|arrivals| - 1]);
    }
  }

  /** A stop leads to Stopped, and so to the actor's end, exactly when the actor
      carries no error, no restart was ordered before, and `pre_stop` neither
      fails nor emits a fault; whatever arrives while the children stop. */
  lemma StopIsFinalIff<M, V, R>(
      strategy: SupervisionStrategy, s: State<M, V, R>, effects: seq<Effect<V>>, failed: bool,
      arrivals: seq<Turn<M, V, R>>)
    requires Selecting(s) && (s.lifecycle == Started || s.lifecycle == Restarted) && s.channels.stops != []
    requires Runs(strategy, StopNext(s, effects, failed), arrivals) && OwnTurns(arrivals) == 0
    ensures var n := Exec(strategy, StopNext(s, effects, failed), arrivals);
            && Enabled(n, ChildsStopped)
            && (Next(strategy, n, ChildsStopped).lifecycle == Stopped <==>
                  s.lifecycle == Started && s.error.None? && !failed && Faultless(effects))
  {
    hide Apply;
    StopFrame(s, effects, failed);
    ApplyError(Called(StopTaken(s), PreStop), effects);
    ArrivalsFrame(strategy, StopNext(s, effects, failed), arrivals);
    hide Exec, Runs;
  }

  // A root that still carries an error, and has not been told to stop retrying.
  ghost predicate ErroredRoot<M, V, R>(s: State<M, V, R>) {
    && !s.hasParent && !s.finished && s.error.Some?
    && (s.lifecycle == Started || s.lifecycle == Failed || s.lifecycle == Restarted)
  }

  /** How many calls of `pre_restart` have failed since the last one succeeded. */
  function FailedInARow<M, V, R>(turns: seq<Turn<M, V, R>>): nat
    decreases |turns|
  {
    if turns == [] then 0
    else
      var (before, t) := (turns[..|turns| - 1], turns[|turns| - 1]);
      if !t.Supervise? then FailedInARow(before)
      else if t.failure.Some? then FailedInARow(before) + 1 else 0
  }

  /** A restart was asked for when as many in a row had failed as are allowed. */
  predicate Exhausted<M, V, R>(strategy: SupervisionStrategy, turns: seq<Turn<M, V, R>>) {
    exists i | 0 <= i < |turns| :: turns[i].Supervise? && FailedInARow(turns[..i]) >= Limit(strategy)
  }

  lemma ExhaustedSnoc<M, V, R>(strategy: SupervisionStrategy, turns: seq<Turn<M, V, R>>)
    requires turns != []
    ensures var (before, t) := (turns[..|turns| - 1], turns[|turns| - 1]);
            Exhausted(strategy, turns) <==>
              Exhausted(strategy, before) || (t.Supervise? && FailedInARow(before) >= Limit(strategy))
  {
    var before := turns[..|turns| - 1];
    assert forall i | 0 <= i <= |before| :: turns[..i] == before[..i];
    assert before[..|before|] == before;
    if Exhausted(strategy, before) {
      var i :| 0 <= i < |before| && before[i].Supervise? && FailedInARow(before[..i]) >= Limit(strategy);
      assert turns[i].Supervise? && FailedInARow(turns[..i]) >= Limit(strategy);
    }
  }

  lemma ErroredRootTurn<M, V, R>(strategy: SupervisionStrategy, s: State<M, V, R>, t: Turn<M, V, R>)
    requires ErroredRoot(s) && Enabled(s, t)
    ensures var n := Next(strategy, s, t);
            if t.Supervise? && s.retries >= Limit(strategy) then n.lifecycle == Stopped
            else && ErroredRoot(n)
                 && n.retries == (if !t.Supervise? then s.retries else if t.failure.Some? then s.retries + 1 else 0)
  {
    hide Apply, StartNext, StopNext, LeaveLoop, ReportNext, InnerNext, Judged, MessageNext, SuperviseNext;
    match t
    case TakeStop(effects, failed) => StopFrame(s, effects, failed);
    case ChildsStopped => LeaveFrame(s);
    case Supervise(effects, failure) => SuperviseFrame(strategy, s, effects, failure);
    case BeginRun =>
    case Escalate =>
    case _ => LoopTurns(strategy, s, t);
  }

  lemma EndedTurn<M, V, R>(strategy: SupervisionStrategy, s: State<M, V, R>, t: Turn<M, V, R>)
    requires (s.lifecycle == Stopped || s.lifecycle == Terminated) && !s.running && Enabled(s, t)
    ensures var n := Next(strategy, s, t); (n.lifecycle == Stopped || n.lifecycle == Terminated) && !n.running
  {
    hide Apply, StartNext, StopNext, LeaveLoop, ReportNext, InnerNext, Judged, MessageNext, SuperviseNext;
    if t.CallPostStop? { TouchedHook(s, PostStop, t.effects); }
  }

  /** A root that carries an error ends exactly when as many restarts in a row
      have failed as its strategy allows and it is then asked to restart again;
      at once if none is allowed. The error is never cleared, so until then
      every stop leads back through Failed to another restart. */
  lemma {:induction false} ErroredRootEndsIff<M, V, R>(
      strategy: SupervisionStrategy, s: State<M, V, R>, turns: seq<Turn<M, V, R>>)
    requires ErroredRoot(s) && s.retries == 0 && Runs(strategy, s, turns)
    ensures var n := Exec(strategy, s, turns);
            && (Exhausted(strategy, turns) <==> n.lifecycle == Stopped || n.lifecycle == Terminated)
            && (Exhausted(strategy, turns) ==> !n.running)
            && (!Exhausted(strategy, turns) ==> ErroredRoot(n) && n.retries == FailedInARow(turns))
    decreases |turns|
  {
    if turns != [] {
      var (before, t) := (turns[..|turns| - 1], turns[|turns| - 1]);
      ErroredRootEndsIff(strategy, s, before);
      ExhaustedSnoc(strategy, turns);
      var n := Exec(strategy, s, before);
      hide Next, Exhausted;
      if Exhausted(strategy, before) {
        EndedTurn(strategy, n, t);
      } else {
        ErroredRootTurn(strategy, n, t);
      }
    }
  }

  predicate RestartsSucceed<M, V, R>(turns: seq<Turn<M, V, R>>) {
    forall i | 0 <= i < |turns| :: turns[i].Supervise? ==> turns[i].failure.None?
  }

  /** In particular it never ends while its restarts succeed. */
  lemma {:induction false} RestartedRootNeverEnds<M, V, R>(
      strategy: SupervisionStrategy, s: State<M, V, R>, turns: seq<Turn<M, V, R>>)
    requires ErroredRoot(s) && s.retries == 0 && Limit(strategy) > 0
    requires Runs(strategy, s, turns) && RestartsSucceed(turns)
    ensures ErroredRoot(Exec(strategy, s, turns))
  {
    ErroredRootEndsIff(strategy, s, turns);
    forall i | 0 <= i < |turns| ensures FailedInARow(turns[..i]) == 0 { NoneFailed(turns[..i]); }
  }

  lemma {:induction false} NoneFailed<M, V, R>(turns: seq<Turn<M, V, R>>)
    requires RestartsSucceed(turns)
    ensures FailedInARow(turns) == 0
    decreases |turns|
  {
    if turns != [] { NoneFailed(turns[..|turns| - 1]); }
  }

  /** Such a root: `pre_start` fails once, the strategy allows a retry, and
      `pre_restart` succeeds. */
  lemma FailedStartIsUnstoppable<M, V, R>(strategy: SupervisionStrategy, error: ActorError)
    requires Limit(strategy) > 0
    ensures var turns: seq<Turn<M, V, R>> := [CallPreStart([], Some(error)), Escalate, Supervise([], None)];
            && Runs(strategy, Initial(false), turns)
            && ErroredRoot(Exec(strategy, Initial<M, V, R>(false), turns))
            && Exec(strategy, Initial<M, V, R>(false), turns).retries == 0
            && Exec(strategy, Initial<M, V, R>(false), turns).lifecycle == Started
  {
    hide Apply, StartNext, SuperviseNext;
    var turns: seq<Turn<M, V, R>> := [CallPreStart([], Some(error)), Escalate, Supervise([], None)];
    var s0 := Initial<M, V, R>(false);
    ExecNothing(strategy, s0, turns);
    hide Exec, Runs;
    ExecTo(strategy, s0, turns, 0);
    FailedStart(s0, error);
    StartFrame(s0, [], Some(error));
    ExecTo(strategy, s0, turns, 1);
    ExecTo(strategy, s0, turns, 2);
    SuperviseFrame(strategy, Exec(strategy, s0, turns[..2]), [], None);
    assert turns[..3] == turns;
  }

  lemma FailedStart<M, V, R>(s: State<M, V, R>, error: ActorError)
    ensures StartNext(s, [], Some(error)).error == Some(error)
  {}

  lemma ExecSnoc<M, V, R>(strategy: SupervisionStrategy, s: State<M, V, R>, turns: seq<Turn<M, V, R>>, t: Turn<M, V, R>)
    requires Runs(strategy, s, turns) && Enabled(Exec(strategy, s, turns), t)
    ensures Runs(strategy, s, turns + [t])
    ensures Exec(strategy, s, turns + [t]) == Next(strategy, Exec(strategy, s, turns), t)
  {
    assert (turns + [t])[..|turns|] == turns;
  }

  /** Once the stop branch has run, the path stays out of the registry: a
      restarted actor runs unregistered. */
  lemma {:induction false} NeverReregistered<M, V, R>(
      strategy: SupervisionStrategy, s: State<M, V, R>, turns: seq<Turn<M, V, R>>)
    requires !s.registered && Runs(strategy, s, turns)
    ensures !Exec(strategy, s, turns).registered
    decreases |turns|
  {
    if turns != [] {
      var before := turns[..|turns| - 1];
      NeverReregistered(strategy, s, before);
      RegistryTurn(strategy, Exec(strategy, s, before), turns[|turns| - 1]);
    }
  }

  lemma RegistryTurn<M, V, R>(strategy: SupervisionStrategy, s: State<M, V, R>, t: Turn<M, V, R>)
    requires Enabled(s, t) && !s.registered
    ensures !Next(strategy, s, t).registered
  {
    hide Apply, StartNext, StopNext, LeaveLoop, ReportNext, InnerNext, Judged, MessageNext, SuperviseNext;
    match t
    case CallPreStart(effects, failure) => StartFrame(s, effects, failure);
    case TakeStop(effects, failed) => StopFrame(s, effects, failed);
    case ChildsStopped => LeaveFrame(s);
    case Supervise(effects, failure) => SuperviseFrame(strategy, s, effects, failure);
    case CallPostStop(effects) => TouchedHook(s, PostStop, effects);
    case BeginRun =>
    case Escalate =>
    case Finish =>
    case _ => LoopTurns(strategy, s, t);
  }
}
