/** The state of one actor's runner, and what each turn of its loops does. A turn
    names the branch taken and the outcome of the hook it calls, so a sequence
    of turns is one interleaving of the four queues with one set of outcomes. */
module Lifecycle {
  import opened Wrappers
  import opened Supervision

  datatype Lifecycle = Created | Started | Restarted | Failed | Stopped | Terminated

  datatype ChildAction = ActionStop | ActionRestart | ActionDelegate

  type ActorError = string

  /** `Error::Stop`, raised when `pre_stop` fails. */
  const STOP_ERROR: ActorError := "Stop"

  /** What a hook can do through its context. */
  datatype Effect<+V> =
    | Publish(event: V)
    | EmitError(error: ActorError)
    | EmitFail(error: ActorError)
    | RequestStop

  datatype InnerAction<+V> = Event(event: V) | Error(error: ActorError) | Fail(error: ActorError)

  /** A message; an ask carries the identity of its reply channel. */
  datatype Envelope<+M> = Envelope(message: M, rsvp: Option<nat>)

  /** An error of a child, or a fault whose child waits for an action. */
  datatype ChildReport = Reported(error: ActorError) | Faulted(error: ActorError, child: nat)

  datatype Hook = PreStart | PreRestart | PreStop | PostStop

  datatype Channels<+M, +V> = Channels(
    mailbox: seq<Envelope<M>>,
    inner: seq<InnerAction<V>>,
    reports: seq<ChildReport>,
    stops: seq<Option<nat>>)

  /** What has come out of the runner, and what was put in. */
  datatype Trace<+M, +V, +R> = Trace(
    handled: seq<Envelope<M>>,
    replies: seq<(nat, R)>,
    broadcast: seq<V>,
    answered: seq<ChildReport>,
    actions: seq<(nat, ChildAction)>,
    toParent: seq<InnerAction<V>>,
    acks: seq<nat>,
    signals: seq<bool>,
    hooks: seq<Hook>,
    backoffs: seq<Option<Duration>>,
    starts: nat,
    taken: seq<InnerAction<V>>,
    stopped: seq<Option<nat>>,
    enqueued: seq<Envelope<M>>,
    pushed: seq<InnerAction<V>>,
    received: seq<ChildReport>,
    asked: seq<Option<nat>>)

  /** Where the select loop stands: between two branches, waiting for the parent's
      verdict on a fault, or waiting for the children to stop, with the
      acknowledgement that is due afterwards. */
  datatype Wait = AtSelect | ForVerdict | ForChilds(ack: Option<nat>)

  datatype State<+M, +V, +R> = State(
    hasParent: bool,
    lifecycle: Lifecycle,
    running: bool,
    wait: Wait,
    stopSignal: bool,
    error: Option<ActorError>,
    retries: nat,
    startSender: bool,
    registered: bool,
    finished: bool,
    channels: Channels<M, V>,
    trace: Trace<M, V, R>)

  datatype Turn<+M, +V, +R> =
    | Enqueue(envelope: Envelope<M>)
    | ChildReports(report: ChildReport)
    | AskStop(ack: Option<nat>)
    | CallPreStart(effects: seq<Effect<V>>, failure: Option<ActorError>)
    | BeginRun
    | TakeStop(effects: seq<Effect<V>>, failed: bool)
    | ChildsStopped
    | TakeReport(effects: seq<Effect<V>>, action: ChildAction)
    | TakeInner
    | HearVerdict(verdict: Option<ChildAction>)
    | TakeMessage(effects: seq<Effect<V>>, result: R)
    | MailboxClosed
    | Supervise(effects: seq<Effect<V>>, failure: Option<ActorError>)
    | CallPostStop(effects: seq<Effect<V>>)
    | Escalate
    | Finish

  /** A runner registered by `create_actor_path`, before its first turn. */
  function Initial<M, V, R>(hasParent: bool): State<M, V, R> {
    State(hasParent, Created, false, AtSelect, false, None, 0, true, true, false,
          Channels([], [], [], []),
          Trace([], [], [], [], [], [], [], [], [], [], 0, [], [], [], [], [], []))
  }

  predicate FromOutside<M, V, R>(t: Turn<M, V, R>) {
    t.Enqueue? || t.ChildReports? || t.AskStop?
  }

  /** The next thing to come is a branch of the select loop. */
  predicate Selecting<M, V, R>(s: State<M, V, R>) {
    s.running && s.wait.AtSelect?
  }

  predicate Enabled<M, V, R>(s: State<M, V, R>, t: Turn<M, V, R>) {
    match t
    case Enqueue(_) => !s.finished
    case ChildReports(_) => !s.finished
    case AskStop(_) => !s.finished
    case CallPreStart(_, _) => s.lifecycle == Created
    case BeginRun => s.lifecycle == Started && !s.running
    case TakeStop(_, _) => Selecting(s) && s.channels.stops != []
    case ChildsStopped => s.running && s.wait.ForChilds?
    case TakeReport(_, _) => Selecting(s) && !s.stopSignal && s.channels.reports != []
    case TakeInner => Selecting(s) && !s.stopSignal && s.channels.inner != []
    case HearVerdict(_) => s.running && s.hasParent && s.wait.ForVerdict?
    case TakeMessage(_, _) => Selecting(s) && !s.stopSignal && s.channels.mailbox != []
    case MailboxClosed => Selecting(s) && !s.stopSignal && s.channels.mailbox == []
    case Supervise(_, _) => s.lifecycle == Restarted && !s.running
    case CallPostStop(_) => s.lifecycle == Stopped
    case Escalate => s.lifecycle == Failed
    case Finish => s.lifecycle == Terminated && !s.finished
  }

  /** The inner queue. */
  function Push<M, V, R>(s: State<M, V, R>, a: InnerAction<V>): State<M, V, R> {
    s.(channels := s.channels.(inner := s.channels.inner + [a]), trace := s.trace.(pushed := s.trace.pushed + [a]))
  }

  function ApplyOne<M, V, R>(s: State<M, V, R>, e: Effect<V>): State<M, V, R> {
    match e
    case Publish(v) => Push(s, Event(v))
    case EmitError(x) => Push(s, Error(x))
    case EmitFail(x) => Push(s.(error := Some(x)), Fail(x))
    case RequestStop => PushStop(s)
  }

  function Apply<M, V, R>(s: State<M, V, R>, effects: seq<Effect<V>>): State<M, V, R>
    decreases |effects|
  {
    if effects == [] then s else ApplyOne(Apply(s, effects[..|effects| - 1]), effects[|effects| - 1])
  }

  // Nothing differs but the error, the inner queue, the stop queue and what was
  // pushed; the queues only grow and an error is not forgotten.
  predicate Touched<M(==), V(==), R(==)>(s: State<M, V, R>, t: State<M, V, R>) {
    && t.hasParent == s.hasParent && t.lifecycle == s.lifecycle && t.running == s.running && t.wait == s.wait
    && t.stopSignal == s.stopSignal && t.retries == s.retries && t.startSender == s.startSender
    && t.registered == s.registered && t.finished == s.finished
    && t.channels.mailbox == s.channels.mailbox && t.channels.reports == s.channels.reports
    && t.trace == s.trace.(pushed := t.trace.pushed, asked := t.trace.asked)
    && (s.error.Some? ==> t.error.Some?)
    && s.channels.inner <= t.channels.inner && s.channels.stops <= t.channels.stops
  }

  lemma PushFrame<M, V, R>(s: State<M, V, R>, a: InnerAction<V>)
    ensures Touched(s, Push(s, a))
  {}

  lemma EmitFailFrame<M, V, R>(s: State<M, V, R>, x: ActorError)
    ensures Touched(s, ApplyOne(s, EmitFail(x)))
  {}

  lemma RequestStopFrame<M, V, R>(s: State<M, V, R>)
    ensures Touched(s, ApplyOne(s, RequestStop))
  {}

  lemma ApplyOneFrame<M, V, R>(s: State<M, V, R>, e: Effect<V>)
    ensures Touched(s, ApplyOne(s, e))
  {
    hide Touched, Push;
    match e
    case Publish(v) => PushFrame(s, Event(v));
    case EmitError(x) => PushFrame(s, Error(x));
    case EmitFail(x) => EmitFailFrame(s, x);
    case RequestStop => RequestStopFrame(s);
  }

  lemma TouchedTwice<M, V, R>(s: State<M, V, R>, t: State<M, V, R>, u: State<M, V, R>)
    requires Touched(s, t) && Touched(t, u)
    ensures Touched(s, u)
  {}

  lemma {:induction false} ApplyFrame<M, V, R>(s: State<M, V, R>, effects: seq<Effect<V>>)
    ensures Touched(s, Apply(s, effects))
    decreases |effects|
  {
    if effects != [] {
      var mid := Apply(s, effects[..|effects| - 1]);
      ApplyFrame(s, effects[..|effects| - 1]);
      ApplyOneFrame(mid, effects[|effects| - 1]);
      TouchedTwice(s, mid, Apply(s, effects));
    }
  }

  /** `ctx.stop(None)` */
  function PushStop<M, V, R>(s: State<M, V, R>): State<M, V, R> {
    AddStop(s, None)
  }

  function AddStop<M, V, R>(s: State<M, V, R>, ack: Option<nat>): State<M, V, R> {
    s.(channels := s.channels.(stops := s.channels.stops + [ack]), trace := s.trace.(asked := s.trace.asked + [ack]))
  }

  function Called<M, V, R>(s: State<M, V, R>, hook: Hook): State<M, V, R> {
    s.(trace := s.trace.(hooks := s.trace.hooks + [hook]))
  }

  function StopTaken<M, V, R>(s: State<M, V, R>): State<M, V, R>
    requires s.channels.stops != []
  {
    s.(channels := s.channels.(stops := s.channels.stops[1..]),
       trace := s.trace.(stopped := s.trace.stopped + [s.channels.stops[0]]))
  }

  /** `pre_stop`, and the failure it may raise. */
  function PreStopped<M, V, R>(s: State<M, V, R>, effects: seq<Effect<V>>, failed: bool): State<M, V, R>
    requires s.channels.stops != []
  {
    var hooked := Apply(Called(StopTaken(s), PreStop), effects);
    if failed then ApplyOne(hooked, EmitFail(STOP_ERROR)) else hooked
  }

  /** The stop branch up to `stop_childs`. */
  function StopNext<M, V, R>(s: State<M, V, R>, effects: seq<Effect<V>>, failed: bool): State<M, V, R>
    requires s.channels.stops != []
  {
    PreStopped(s, effects, failed).(wait := ForChilds(s.channels.stops[0]))
  }

  /** The rest of the stop branch: the path leaves the registry, the request is
      acknowledged, the loop ends, and an error turns the stop into a failure. */
  function LeaveLoop<M, V, R>(s: State<M, V, R>): State<M, V, R>
    requires s.wait.ForChilds?
  {
    s.(registered := false,
       trace := s.trace.(acks := s.trace.acks + if s.wait.ack.Some? then [s.wait.ack.value] else []),
       lifecycle := if s.error.Some? then Failed else if s.lifecycle == Started then Stopped else s.lifecycle,
       wait := AtSelect,
       running := false)
  }

  function ReportNext<M, V, R>(s: State<M, V, R>, effects: seq<Effect<V>>, action: ChildAction): State<M, V, R>
    requires s.channels.reports != []
  {
    var report := s.channels.reports[0];
    var done := Apply(s.(channels := s.channels.(reports := s.channels.reports[1..])), effects);
    done.(trace := done.trace.(
      answered := done.trace.answered + [report],
      actions := done.trace.actions + if report.Faulted? then [(report.child, action)] else []))
  }

  /** An event is broadcast; an error or a fault goes to the parent, if any. */
  function Passed<M, V, R>(s: State<M, V, R>, action: InnerAction<V>): State<M, V, R> {
    s.(trace := s.trace.(
         taken := s.trace.taken + [action],
         broadcast := if action.Event? then s.trace.broadcast + [action.event] else s.trace.broadcast,
         toParent := if s.hasParent && !action.Event? then s.trace.toParent + [action] else s.trace.toParent))
  }

  /** The end of a fault: the actor is to stop. The parent's verdict, if one
      came, cleans the error and may ask for a restart. */
  function Judged<M, V, R>(s: State<M, V, R>, verdict: Option<ChildAction>): State<M, V, R> {
    PushStop(s).(
      wait := AtSelect,
      stopSignal := true,
      error := if verdict.Some? then None else s.error,
      lifecycle := if verdict.Some? && verdict.value != ActionStop then Restarted else s.lifecycle)
  }

  /** `inner_handle`, up to the wait for the parent's verdict on a fault. */
  function InnerNext<M, V, R>(s: State<M, V, R>): State<M, V, R>
    requires s.channels.inner != []
  {
    var action := s.channels.inner[0];
    var passed := Passed(s.(channels := s.channels.(inner := s.channels.inner[1..])), action);
    if !action.Fail? then passed
    else if s.hasParent then passed.(wait := ForVerdict)
    else Judged(passed, None)
  }

  function MessageNext<M, V, R>(s: State<M, V, R>, effects: seq<Effect<V>>, result: R): State<M, V, R>
    requires s.channels.mailbox != []
  {
    var envelope := s.channels.mailbox[0];
    var done := Apply(s.(channels := s.channels.(mailbox := s.channels.mailbox[1..])), effects);
    done.(trace := done.trace.(
      handled := done.trace.handled + [envelope],
      replies := done.trace.replies + if envelope.rsvp.Some? then [(envelope.rsvp.value, result)] else []))
  }

  /** The wait before a restart, and `pre_restart`. */
  function PreRestarted<M, V, R>(retry: Strategy, s: State<M, V, R>, effects: seq<Effect<V>>): State<M, V, R> {
    var waited := s.(retries := s.retries + 1,
                     trace := s.trace.(backoffs := s.trace.backoffs + [NextBackoff(retry).0]));
    Apply(Called(waited, PreRestart), effects)
  }

  /** `apply_supervision_strategy`, with the strategy made anew for this call. */
  function SuperviseNext<M, V, R>(
      strategy: SupervisionStrategy, s: State<M, V, R>, effects: seq<Effect<V>>, failure: Option<ActorError>)
    : State<M, V, R>
  {
    match strategy
    case Stop => s.(lifecycle := Stopped)
    case Retry(retry) =>
      if s.retries < MaxRetries(retry) then
        var hooked := PreRestarted(retry, s, effects);
        if failure.None? then hooked.(lifecycle := Started, retries := 0) else hooked.(error := failure)
      else s.(lifecycle := Stopped)
  }

  function StartNext<M, V, R>(s: State<M, V, R>, effects: seq<Effect<V>>, failure: Option<ActorError>): State<M, V, R> {
    var hooked := Apply(Called(s, PreStart), effects);
    if failure.None? then hooked.(lifecycle := Started) else hooked.(lifecycle := Failed, error := failure)
  }

  /** The startup signal is sent once, by whichever comes first. */
  function Signal<M, V, R>(s: State<M, V, R>, value: bool): State<M, V, R> {
    if s.startSender then s.(startSender := false, trace := s.trace.(signals := s.trace.signals + [value])) else s
  }

  function Next<M, V, R>(strategy: SupervisionStrategy, s: State<M, V, R>, t: Turn<M, V, R>): State<M, V, R>
    requires Enabled(s, t)
  {
    match t
    case Enqueue(e) =>
      s.(channels := s.channels.(mailbox := s.channels.mailbox + [e]),
         trace := s.trace.(enqueued := s.trace.enqueued + [e]))
    case ChildReports(r) =>
      s.(channels := s.channels.(reports := s.channels.reports + [r]),
         trace := s.trace.(received := s.trace.received + [r]))
    case AskStop(ack) => AddStop(s, ack)
    case CallPreStart(effects, failure) => StartNext(s, effects, failure)
    case BeginRun =>
      var signalled := Signal(s, true);
      signalled.(running := true, wait := AtSelect, trace := signalled.trace.(starts := s.trace.starts + 1))
    case TakeStop(effects, failed) => StopNext(s, effects, failed)
    case ChildsStopped => LeaveLoop(s)
    case TakeReport(effects, action) => ReportNext(s, effects, action)
    case TakeInner => InnerNext(s)
    case HearVerdict(verdict) => Judged(s, verdict)
    case TakeMessage(effects, result) => MessageNext(s, effects, result)
    case MailboxClosed => PushStop(s).(stopSignal := true)
    case Supervise(effects, failure) => SuperviseNext(strategy, s, effects, failure)
    case CallPostStop(effects) => Apply(Called(s, PostStop), effects).(lifecycle := Terminated)
    case Escalate => s.(lifecycle := if s.hasParent then Terminated else Restarted)
    case Finish => Signal(s, false).(registered := false, finished := true)
  }

  /** Every turn is enabled where it is taken. */
  predicate Runs<M, V, R>(strategy: SupervisionStrategy, s: State<M, V, R>, turns: seq<Turn<M, V, R>>)
    decreases |turns|, 0
  {
    turns == [] ||
    (var before := turns[..|turns| - 1];
     Runs(strategy, s, before) && Enabled(Exec(strategy, s, before), turns[|turns| - 1]))
  }

  function Exec<M, V, R>(strategy: SupervisionStrategy, s: State<M, V, R>, turns: seq<Turn<M, V, R>>): State<M, V, R>
    requires Runs(strategy, s, turns)
    decreases |turns|, 1
  {
    if turns == [] then s
    else Next(strategy, Exec(strategy, s, turns[..|turns| - 1]), turns[|turns| - 1])
  }
}
