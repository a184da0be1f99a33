/** What every interleaving of a runner's turns keeps of its four queues, and what
    the stop signal ends. */
module RunnerProperties {
  import opened Wrappers
  import opened Supervision
  import opened Lifecycle

  // -------------------------------------------------- queues are conserved

  function AskIds<M>(handled: seq<Envelope<M>>): seq<nat> {
    if handled == [] then []
    else AskIds(handled[..|handled| - 1]) +
         if handled[|handled| - 1].rsvp.Some? then [handled[|handled| - 1].rsvp.value] else []
  }

  function ReplyIds<R>(replies: seq<(nat, R)>): (r: seq<nat>)
    ensures |r| == |replies| && forall i | 0 <= i < |r| :: r[i] == replies[i].0
  {
    seq(|replies|, i requires 0 <= i < |replies| => replies[i].0)
  }

  function EventsOf<V>(taken: seq<InnerAction<V>>): seq<V> {
    if taken == [] then []
    else EventsOf(taken[..|taken| - 1]) +
         if taken[|taken| - 1].Event? then [taken[|taken| - 1].event] else []
  }

  function FaultsOf<V>(taken: seq<InnerAction<V>>): seq<InnerAction<V>> {
    if taken == [] then []
    else FaultsOf(taken[..|taken| - 1]) +
         if taken[|taken| - 1].Event? then [] else [taken[|taken| - 1]]
  }

  function FaultIds(reports: seq<ChildReport>): seq<nat> {
    if reports == [] then []
    else FaultIds(reports[..|reports| - 1]) +
         if reports[|reports| - 1].Faulted? then [reports[|reports| - 1].child] else []
  }

  function AcksOf(stopped: seq<Option<nat>>): seq<nat> {
    if stopped == [] then []
    else AcksOf(stopped[..|stopped| - 1]) +
         if stopped[|stopped| - 1].Some? then [stopped[|stopped| - 1].value] else []
  }

  // The acknowledgement due when the children have stopped.
  function Owed(wait: Wait): seq<nat> {
    if wait.ForChilds? && wait.ack.Some? then [wait.ack.value] else []
  }

  // What went in is what came out and what still waits, queue by queue.
  ghost predicate Balanced<M, V, R>(hasParent: bool, owed: seq<nat>, channels: Channels<M, V>, trace: Trace<M, V, R>) {
    && trace.enqueued == trace.handled + channels.mailbox
    && trace.received == trace.answered + channels.reports
    && trace.pushed == trace.taken + channels.inner
    && trace.asked == trace.stopped + channels.stops
    && trace.acks + owed == AcksOf(trace.stopped)
    && trace.broadcast == EventsOf(trace.taken)
    && trace.toParent == (if hasParent then FaultsOf(trace.taken) else [])
    && ReplyIds(trace.replies) == AskIds(trace.handled)
    && ReplyIds(trace.actions) == FaultIds(trace.answered)
  }

  ghost predicate Conserved<M, V, R>(s: State<M, V, R>) {
    Balanced(s.hasParent, Owed(s.wait), s.channels, s.trace) && (s.running || s.wait.AtSelect?)
  }

  // What was put on the inner and the stop queue came out or still waits.
  ghost predicate Pushes<M, V, R>(s: State<M, V, R>) {
    && s.trace.pushed == s.trace.taken + s.channels.inner
    && s.trace.asked == s.trace.stopped + s.channels.stops
  }

  lemma PushPushes<M, V, R>(s: State<M, V, R>, a: InnerAction<V>)
    requires Pushes(s)
    ensures Pushes(Push(s, a))
  {}

  lemma AddStopPushes<M, V, R>(s: State<M, V, R>, ack: Option<nat>)
    requires Pushes(s)
    ensures Pushes(AddStop(s, ack))
  {}

  lemma ApplyOnePushes<M, V, R>(s: State<M, V, R>, e: Effect<V>)
    requires Pushes(s)
    ensures Pushes(ApplyOne(s, e))
  {
    hide Push, AddStop;
    match e
    case Publish(v) => PushPushes(s, Event(v));
    case EmitError(x) => PushPushes(s, Error(x));
    case EmitFail(x) => PushPushes(s.(error := Some(x)), Fail(x));
    case RequestStop => AddStopPushes(s, None);
  }

  lemma {:induction false} ApplyPushes<M, V, R>(s: State<M, V, R>, effects: seq<Effect<V>>)
    requires Pushes(s)
    ensures Pushes(Apply(s, effects))
    decreases |effects|
  {
    hide Pushes, ApplyOne;
    if effects != [] {
      ApplyPushes(s, effects[..|effects| - 1]);
      ApplyOnePushes(Apply(s, effects[..|effects| - 1]), effects[|effects| - 1]);
    }
  }

  ghost predicate Balance<M, V, R>(s: State<M, V, R>, owed: seq<nat>) {
    Balanced(s.hasParent, owed, s.channels, s.trace)
  }

  // Effects keep the balance, whatever acknowledgement is due.
  lemma ApplyBalance<M, V, R>(s: State<M, V, R>, effects: seq<Effect<V>>, owed: seq<nat>)
    requires Balance(s, owed)
    ensures Balance(Apply(s, effects), owed)
  {
    hide EventsOf, FaultsOf, AskIds, ReplyIds, FaultIds, AcksOf, Apply;
    ApplyFrame(s, effects);
    ApplyPushes(s, effects);
  }

  lemma ApplyOneBalance<M, V, R>(s: State<M, V, R>, e: Effect<V>, owed: seq<nat>)
    requires Balance(s, owed)
    ensures Balance(ApplyOne(s, e), owed)
  {
    hide EventsOf, FaultsOf, AskIds, ReplyIds, FaultIds, AcksOf, ApplyOne;
    ApplyOneFrame(s, e);
    ApplyOnePushes(s, e);
  }

  lemma ApplyConserves<M, V, R>(s: State<M, V, R>, effects: seq<Effect<V>>)
    requires Conserved(s)
    ensures Conserved(Apply(s, effects))
  {
    hide Balanced, Owed, Apply;
    ApplyFrame(s, effects);
    ApplyBalance(s, effects, Owed(s.wait));
  }

  lemma AcksSnoc(stopped: seq<Option<nat>>, ack: Option<nat>)
    ensures AcksOf(stopped + [ack]) == AcksOf(stopped) + Owed(ForChilds(ack))
  {
    assert (stopped + [ack])[..|stopped|] == stopped;
  }

  lemma TakenBalance<M, V, R>(s: State<M, V, R>)
    requires Balance(s, []) && s.channels.stops != []
    ensures Balance(Called(StopTaken(s), PreStop), Owed(ForChilds(s.channels.stops[0])))
  {
    hide EventsOf, FaultsOf, AskIds, ReplyIds, FaultIds, AcksOf, Owed;
    var ack := s.channels.stops[0];
    AcksSnoc(s.trace.stopped, ack);
    assert s.trace.stopped + s.channels.stops == (s.trace.stopped + [ack]) + s.channels.stops[1..];
    assert s.trace.acks + [] == s.trace.acks;
  }

  lemma StopConserves<M, V, R>(s: State<M, V, R>, effects: seq<Effect<V>>, failed: bool)
    requires Conserved(s) && s.running && s.wait.AtSelect? && s.channels.stops != []
    ensures Conserved(StopNext(s, effects, failed))
  {
    hide Balanced, Apply, ApplyOne, StopTaken;
    var taken := Called(StopTaken(s), PreStop);
    var owed := Owed(ForChilds(s.channels.stops[0]));
    TakenBalance(s);
    ApplyBalance(taken, effects, owed);
    ApplyOneBalance(Apply(taken, effects), EmitFail(STOP_ERROR), owed);
    StopFrame(s, effects, failed);
    hide PreStopped;
  }

  lemma LeaveConserves<M, V, R>(s: State<M, V, R>)
    requires Conserved(s) && s.wait.ForChilds?
    ensures Conserved(LeaveLoop(s))
  {
    hide EventsOf, FaultsOf, AskIds, ReplyIds, FaultIds, AcksOf;
    assert (s.trace.acks + Owed(s.wait)) + [] == s.trace.acks + Owed(s.wait);
  }

  lemma AnsweredSnoc<M, R>(handled: seq<Envelope<M>>, replies: seq<(nat, R)>, envelope: Envelope<M>, result: R)
    requires ReplyIds(replies) == AskIds(handled)
    ensures var more := if envelope.rsvp.Some? then [(envelope.rsvp.value, result)] else [];
            ReplyIds(replies + more) == AskIds(handled + [envelope])
  {
    var more := if envelope.rsvp.Some? then [(envelope.rsvp.value, result)] else [];
    assert (handled + [envelope])[..|handled|] == handled;
    assert ReplyIds(replies + more) == ReplyIds(replies) + ReplyIds(more);
  }

  lemma ActedSnoc(
      answered: seq<ChildReport>, actions: seq<(nat, ChildAction)>, report: ChildReport, action: ChildAction)
    requires ReplyIds(actions) == FaultIds(answered)
    ensures var more := if report.Faulted? then [(report.child, action)] else [];
            ReplyIds(actions + more) == FaultIds(answered + [report])
  {
    var more := if report.Faulted? then [(report.child, action)] else [];
    assert (answered + [report])[..|answered|] == answered;
    assert ReplyIds(actions + more) == ReplyIds(actions) + ReplyIds(more);
  }

  // The mailbox queue moves its head to the handled messages.
  lemma MessageConserves<M, V, R>(s: State<M, V, R>, effects: seq<Effect<V>>, result: R)
    requires Conserved(s) && s.channels.mailbox != []
    ensures Conserved(MessageNext(s, effects, result))
  {
    hide EventsOf, FaultsOf, AskIds, ReplyIds, FaultIds, AcksOf, Apply, Owed;
    var envelope := s.channels.mailbox[0];
    var taken := s.(channels := s.channels.(mailbox := s.channels.mailbox[1..]));
    assert Pushes(taken);
    ApplyFrame(taken, effects);
    ApplyPushes(taken, effects);
    AnsweredSnoc(s.trace.handled, s.trace.replies, envelope, result);
    assert s.trace.handled + s.channels.mailbox == (s.trace.handled + [envelope]) + s.channels.mailbox[1..];
  }

  lemma ReportConserves<M, V, R>(s: State<M, V, R>, effects: seq<Effect<V>>, action: ChildAction)
    requires Conserved(s) && s.channels.reports != []
    ensures Conserved(ReportNext(s, effects, action))
  {
    hide EventsOf, FaultsOf, AskIds, ReplyIds, FaultIds, AcksOf, Apply, Owed;
    var report := s.channels.reports[0];
    var taken := s.(channels := s.channels.(reports := s.channels.reports[1..]));
    assert Pushes(taken);
    ApplyFrame(taken, effects);
    ApplyPushes(taken, effects);
    ActedSnoc(s.trace.answered, s.trace.actions, report, action);
    assert s.trace.answered + s.channels.reports == (s.trace.answered + [report]) + s.channels.reports[1..];
  }

  lemma TakenSnoc<V>(taken: seq<InnerAction<V>>, a: InnerAction<V>)
    ensures EventsOf(taken + [a]) == EventsOf(taken) + if a.Event? then [a.event] else []
    ensures FaultsOf(taken + [a]) == FaultsOf(taken) + if a.Event? then [] else [a]
  {
    assert (taken + [a])[..|taken|] == taken;
  }

  lemma PassedConserves<M, V, R>(s: State<M, V, R>)
    requires Conserved(s) && s.channels.inner != []
    ensures Conserved(Passed(s.(channels := s.channels.(inner := s.channels.inner[1..])), s.channels.inner[0]))
  {
    hide EventsOf, FaultsOf, AskIds, ReplyIds, FaultIds, AcksOf, Owed;
    var action := s.channels.inner[0];
    TakenSnoc(s.trace.taken, action);
    assert s.trace.taken + s.channels.inner == (s.trace.taken + [action]) + s.channels.inner[1..];
  }

  lemma JudgedConserves<M, V, R>(s: State<M, V, R>, verdict: Option<ChildAction>)
    requires Conserved(s) && !s.wait.ForChilds?
    ensures Conserved(Judged(s, verdict))
  {
    hide EventsOf, FaultsOf, AskIds, ReplyIds, FaultIds, AcksOf;
  }

  lemma InnerConserves<M, V, R>(s: State<M, V, R>)
    requires Conserved(s) && s.running && s.wait.AtSelect? && s.channels.inner != []
    ensures Conserved(InnerNext(s))
  {
    PassedConserves(s);
    var passed := Passed(s.(channels := s.channels.(inner := s.channels.inner[1..])), s.channels.inner[0]);
    assert passed.wait == s.wait && passed.running == s.running;
    JudgedConserves(passed, None);
    hide Passed, Judged, EventsOf, FaultsOf, AskIds, ReplyIds, FaultIds, AcksOf;
  }

  lemma ArriveConserves<M, V, R>(strategy: SupervisionStrategy, s: State<M, V, R>, t: Turn<M, V, R>)
    requires Conserved(s) && Enabled(s, t)
    requires FromOutside(t) || t.BeginRun? || t.MailboxClosed? || t.Escalate? || t.Finish?
    ensures Conserved(Next(strategy, s, t))
  {
    hide EventsOf, FaultsOf, AskIds, ReplyIds, FaultIds, AcksOf, Owed;
    match t
    case Enqueue(e) => assert s.trace.enqueued + [e] == s.trace.handled + (s.channels.mailbox + [e]);
    case ChildReports(r) => assert s.trace.received + [r] == s.trace.answered + (s.channels.reports + [r]);
    case _ =>
  }

  lemma CalledConserves<M, V, R>(s: State<M, V, R>, hook: Hook, effects: seq<Effect<V>>)
    requires Conserved(s)
    ensures Conserved(Apply(Called(s, hook), effects))
  {
    hide EventsOf, FaultsOf, AskIds, ReplyIds, FaultIds, AcksOf, Apply, Owed;
    ApplyConserves(Called(s, hook), effects);
  }

  lemma StartConserves<M, V, R>(s: State<M, V, R>, effects: seq<Effect<V>>, failure: Option<ActorError>)
    requires Conserved(s)
    ensures Conserved(StartNext(s, effects, failure))
    ensures Conserved(Apply(Called(s, PostStop), effects).(lifecycle := Terminated))
  {
    hide Balanced, Apply, Owed;
    CalledConserves(s, PreStart, effects);
    CalledConserves(s, PostStop, effects);
  }

  lemma PreRestartedConserves<M, V, R>(retry: Strategy, s: State<M, V, R>, effects: seq<Effect<V>>)
    requires Conserved(s)
    ensures Conserved(PreRestarted(retry, s, effects))
  {
    hide EventsOf, FaultsOf, AskIds, ReplyIds, FaultIds, AcksOf, Apply, Owed, NextBackoff;
    var waited := s.(retries := s.retries + 1,
                     trace := s.trace.(backoffs := s.trace.backoffs + [NextBackoff(retry).0]));
    assert Conserved(waited);
    CalledConserves(waited, PreRestart, effects);
  }

  lemma SuperviseConserves<M, V, R>(
      strategy: SupervisionStrategy, s: State<M, V, R>, effects: seq<Effect<V>>, failure: Option<ActorError>)
    requires Conserved(s)
    ensures Conserved(SuperviseNext(strategy, s, effects, failure))
  {
    hide Balanced, Owed, PreRestarted;
    if strategy.Retry? {
      PreRestartedConserves(strategy.strategy, s, effects);
    }
  }

  lemma NextConserves<M, V, R>(strategy: SupervisionStrategy, s: State<M, V, R>, t: Turn<M, V, R>)
    requires Conserved(s) && Enabled(s, t)
    ensures Conserved(Next(strategy, s, t))
  {
    hide Conserved, Apply, StartNext, StopNext, LeaveLoop, ReportNext, InnerNext, Judged, MessageNext, SuperviseNext;
    match t
    case CallPreStart(effects, failure) => StartConserves(s, effects, failure);
    case TakeStop(effects, failed) => StopConserves(s, effects, failed);
    case TakeReport(effects, action) => ReportConserves(s, effects, action);
    case ChildsStopped => LeaveConserves(s);
    case TakeInner => InnerConserves(s);
    case HearVerdict(verdict) => JudgedConserves(s, verdict);
    case TakeMessage(effects, result) => MessageConserves(s, effects, result);
    case Supervise(effects, failure) => SuperviseConserves(strategy, s, effects, failure);
    case CallPostStop(effects) => StartConserves(s, effects, None);
    case _ => ArriveConserves(strategy, s, t);
  }

  lemma {:induction false} ExecConserves<M, V, R>(
      strategy: SupervisionStrategy, s: State<M, V, R>, turns: seq<Turn<M, V, R>>)
    requires Conserved(s) && Runs(strategy, s, turns)
    ensures Conserved(Exec(strategy, s, turns))
    decreases |turns|
  {
    if turns != [] {
      var before := turns[..|turns| - 1];
      ExecConserves(strategy, s, before);
      NextConserves(strategy, Exec(strategy, s, before), turns[|turns| - 1]);
    }
  }

  ghost predicate Distinct(ids: seq<nat>) {
    forall i, j | 0 <= i < j < |ids| :: ids[i] != ids[j]
  }

  lemma {:induction false} AskIdsOfPrefix<M>(a: seq<Envelope<M>>, b: seq<Envelope<M>>)
    ensures AskIds(a) <= AskIds(a + b)
    decreases |b|
  {
    if b == [] {
      assert a + b == a;
    } else {
      assert (a + b)[..|a + b| - 1] == a + b[..|b| - 1];
      AskIdsOfPrefix(a, b[..|b| - 1]);
    }
  }

  lemma {:induction false} PushedPrefix<V>(a: seq<InnerAction<V>>, b: seq<InnerAction<V>>)
    ensures EventsOf(a) <= EventsOf(a + b) && FaultsOf(a) <= FaultsOf(a + b)
    decreases |b|
  {
    if b == [] {
      assert a + b == a;
    } else {
      assert (a + b)[..|a + b| - 1] == a + b[..|b| - 1];
      PushedPrefix(a, b[..|b| - 1]);
    }
  }

  /** For every interleaving of the four queues: messages are handled in the
      order they were sent, none skipped; the replies are the answers to the
      asks handled so far, in that order, so an ask whose channel is its own is
      answered at most once; inner actions are taken in order, and what was
      broadcast is a prefix of the events emitted, what the parent was sent a
      prefix of the errors and faults; child reports are taken in order and each
      fault gets one action; stop requests are taken in order and each one taken
      is acknowledged, or will be when the children have stopped. */
  lemma QueuesAreFifo<M, V, R>(strategy: SupervisionStrategy, hasParent: bool, turns: seq<Turn<M, V, R>>)
    requires Runs(strategy, Initial(hasParent), turns)
    ensures var s := Exec(strategy, Initial(hasParent), turns);
            && s.trace.handled <= s.trace.enqueued
            && ReplyIds(s.trace.replies) == AskIds(s.trace.handled)
            && (Distinct(AskIds(s.trace.enqueued)) ==> Distinct(ReplyIds(s.trace.replies)))
            && s.trace.taken <= s.trace.pushed
            && s.trace.broadcast == EventsOf(s.trace.taken) <= EventsOf(s.trace.pushed)
            && s.trace.toParent == (if s.hasParent then FaultsOf(s.trace.taken) else []) <= FaultsOf(s.trace.pushed)
            && s.trace.answered <= s.trace.received
            && ReplyIds(s.trace.actions) == FaultIds(s.trace.answered)
            && s.trace.stopped <= s.trace.asked
            && s.trace.acks + Owed(s.wait) == AcksOf(s.trace.stopped)
  {
    hide EventsOf, FaultsOf, AskIds, ReplyIds, FaultIds, AcksOf, Exec, Runs, Distinct;
    StartsConserved<M, V, R>(hasParent);
    ExecConserves(strategy, Initial(hasParent), turns);
    var s := Exec(strategy, Initial(hasParent), turns);
    AskIdsOfPrefix(s.trace.handled, s.channels.mailbox);
    DistinctPrefix(AskIds(s.trace.handled), AskIds(s.trace.enqueued));
    PushedPrefix(s.trace.taken, s.channels.inner);
  }

  lemma StartsConserved<M, V, R>(hasParent: bool)
    ensures Conserved<M, V, R>(Initial(hasParent))
  {}

  lemma DistinctPrefix(a: seq<nat>, b: seq<nat>)
    requires a <= b
    ensures Distinct(b) ==> Distinct(a)
  {}

  // ------------------------------------------ nothing after the stop signal

  ghost predicate SameWork<M, V, R>(s: State<M, V, R>, t: State<M, V, R>) {
    && t.trace.handled == s.trace.handled
    && t.trace.replies == s.trace.replies
    && t.trace.taken == s.trace.taken
    && t.trace.broadcast == s.trace.broadcast
    && t.trace.answered == s.trace.answered
    && t.trace.actions == s.trace.actions
    && t.trace.toParent == s.trace.toParent
  }

  // What a turn that calls a hook leaves alone.
  ghost predicate HookFrame<M, V, R>(s: State<M, V, R>, n: State<M, V, R>) {
    && SameWork(s, n) && n.stopSignal == s.stopSignal && n.hasParent == s.hasParent
    && n.startSender == s.startSender && n.finished == s.finished
    && n.trace.signals == s.trace.signals && n.trace.starts == s.trace.starts
    && (n.running ==> s.running) && (s.error.Some? ==> n.error.Some?)
  }

  lemma TouchedHook<M, V, R>(s: State<M, V, R>, hook: Hook, effects: seq<Effect<V>>)
    ensures var n := Apply(Called(s, hook), effects);
            && HookFrame(s, n) && n.running == s.running && n.registered == s.registered
            && n.lifecycle == s.lifecycle && n.retries == s.retries
            && n.trace.hooks == s.trace.hooks + [hook] && n.trace.backoffs == s.trace.backoffs
  {
    ApplyFrame(Called(s, hook), effects);
  }

  lemma StopFrame<M, V, R>(s: State<M, V, R>, effects: seq<Effect<V>>, failed: bool)
    requires s.channels.stops != []
    ensures var n := StopNext(s, effects, failed);
            && HookFrame(s, n) && n.running == s.running && n.registered == s.registered && n.retries == s.retries
            && n.trace.hooks == s.trace.hooks + [PreStop] && n.trace.backoffs == s.trace.backoffs
            && n.lifecycle == s.lifecycle && n.wait == ForChilds(s.channels.stops[0])
  {
    TouchedHook(StopTaken(s), PreStop, effects);
    var hooked := Apply(Called(StopTaken(s), PreStop), effects);
    ApplyOneFrame(hooked, EmitFail(STOP_ERROR));
    hide Apply, ApplyOne;
    assert HookFrame(s, PreStopped(s, effects, failed));
  }

  lemma LeaveFrame<M, V, R>(s: State<M, V, R>)
    requires s.wait.ForChilds?
    ensures var n := LeaveLoop(s);
            && HookFrame(s, n) && !n.running && !n.registered && n.retries == s.retries && n.error == s.error
            && n.trace.hooks == s.trace.hooks && n.trace.backoffs == s.trace.backoffs
            && n.lifecycle ==
                 (if n.error.Some? then Failed else if s.lifecycle == Started then Stopped else s.lifecycle)
  {}

  lemma PreRestartedFrame<M, V, R>(retry: Strategy, s: State<M, V, R>, effects: seq<Effect<V>>)
    ensures var n := PreRestarted(retry, s, effects);
            && HookFrame(s, n) && n.running == s.running && n.registered == s.registered
            && n.lifecycle == s.lifecycle && n.retries == s.retries + 1
            && n.trace.hooks == s.trace.hooks + [PreRestart]
            && n.trace.backoffs == s.trace.backoffs + [NextBackoff(retry).0]
  {
    hide Apply, NextBackoff;
    var waited := s.(retries := s.retries + 1,
                     trace := s.trace.(backoffs := s.trace.backoffs + [NextBackoff(retry).0]));
    TouchedHook(waited, PreRestart, effects);
  }

  lemma SuperviseFrame<M, V, R>(
      strategy: SupervisionStrategy, s: State<M, V, R>, effects: seq<Effect<V>>, failure: Option<ActorError>)
    ensures var n := SuperviseNext(strategy, s, effects, failure);
            var tries := strategy.Retry? && s.retries < MaxRetries(strategy.strategy);
            && HookFrame(s, n) && n.running == s.running && n.registered == s.registered
            && n.lifecycle == (if !tries then Stopped else if failure.None? then Started else s.lifecycle)
            && n.retries == (if !tries then s.retries else if failure.None? then 0 else s.retries + 1)
            && n.trace.hooks == s.trace.hooks + (if tries then [PreRestart] else [])
            && n.trace.backoffs == s.trace.backoffs + (if tries then [NextBackoff(strategy.strategy).0] else [])
  {
    hide PreRestarted, NextBackoff, MaxRetries;
    if strategy.Retry? {
      PreRestartedFrame(strategy.strategy, s, effects);
    }
  }

  lemma StartFrame<M, V, R>(s: State<M, V, R>, effects: seq<Effect<V>>, failure: Option<ActorError>)
    ensures var n := StartNext(s, effects, failure);
            && HookFrame(s, n) && n.running == s.running && n.registered == s.registered && n.retries == s.retries
            && n.lifecycle == (if failure.None? then Started else Failed)
            && n.trace.hooks == s.trace.hooks + [PreStart] && n.trace.backoffs == s.trace.backoffs
  {
    TouchedHook(s, PreStart, effects);
  }

  lemma HookTurns<M, V, R>(strategy: SupervisionStrategy, s: State<M, V, R>, t: Turn<M, V, R>)
    requires Enabled(s, t) && (t.CallPreStart? || t.TakeStop? || t.Supervise? || t.CallPostStop?)
    ensures HookFrame(s, Next(strategy, s, t))
  {
    hide Apply, StartNext, StopNext, SuperviseNext;
    match t
    case CallPreStart(effects, failure) => StartFrame(s, effects, failure);
    case TakeStop(effects, failed) => StopFrame(s, effects, failed);
    case Supervise(effects, failure) => SuperviseFrame(strategy, s, effects, failure);
    case CallPostStop(effects) => TouchedHook(s, PostStop, effects);
  }

  lemma FrozenTurn<M, V, R>(strategy: SupervisionStrategy, s: State<M, V, R>, t: Turn<M, V, R>)
    requires s.stopSignal && Enabled(s, t)
    ensures Next(strategy, s, t).stopSignal && SameWork(s, Next(strategy, s, t))
  {
    if t.CallPreStart? || t.TakeStop? || t.Supervise? || t.CallPostStop? {
      HookTurns(strategy, s, t);
    }
  }

  /** Once the stop signal is set, no message, inner action or child report is
      processed again, whatever turns follow, restarts included. */
  lemma {:induction false} StopSignalIsFinal<M, V, R>(
      strategy: SupervisionStrategy, s: State<M, V, R>, turns: seq<Turn<M, V, R>>)
    requires s.stopSignal && Runs(strategy, s, turns)
    ensures Exec(strategy, s, turns).stopSignal && SameWork(s, Exec(strategy, s, turns))
    decreases |turns|
  {
    if turns != [] {
      var before := turns[..|turns| - 1];
      StopSignalIsFinal(strategy, s, before);
      FrozenTurn(strategy, Exec(strategy, s, before), turns[|turns| - 1]);
    }
  }
}
