/** The actor runner as the object the source mutates: the lifecycle loop of
    `init`, the select loop of `run` inside it, and the helpers they call. */
module Runner {
  import opened Wrappers
  import opened Supervision
  import opened Lifecycle

  class ActorRunner<M, V, R> {
    const hasParent: bool
    const strategy: SupervisionStrategy
    var lifecycle: Lifecycle
    var running: bool
    var wait: Wait
    var stopSignal: bool
    var error: Option<ActorError>
    var retries: nat
    var startSender: bool
    var registered: bool
    var finished: bool
    var channels: Channels<M, V>
    var trace: Trace<M, V, R>

    constructor (hasParent: bool, strategy: SupervisionStrategy)
      ensures this.hasParent == hasParent && this.strategy == strategy
      ensures Abs() == Initial(hasParent)
    {
      this.hasParent, this.strategy := hasParent, strategy;
      lifecycle, running, wait, stopSignal, error, retries := Created, false, AtSelect, false, None, 0;
      startSender, registered, finished := true, true, false;
      channels := Channels([], [], [], []);
      trace := Trace([], [], [], [], [], [], [], [], [], [], 0, [], [], [], [], [], []);
    }

    function Abs(): State<M, V, R>
      reads this
    {
      State(hasParent, lifecycle, running, wait, stopSignal, error, retries,
            startSender, registered, finished, channels, trace)
    }

    /** A send on the inner queue. */
    method Send(a: InnerAction<V>)
      modifies this`channels, this`trace
      ensures Abs() == Push(old(Abs()), a)
    {
      channels := channels.(inner := channels.inner + [a]);
      trace := trace.(pushed := trace.pushed + [a]);
    }

    /** A send on the stop channel. */
    method RequestStop(ack: Option<nat>)
      modifies this`channels, this`trace
      ensures Abs() == AddStop(old(Abs()), ack)
    {
      channels := channels.(stops := channels.stops + [ack]);
      trace := trace.(asked := trace.asked + [ack]);
    }

    /** A hook acting through its context. */
    method Act(effects: seq<Effect<V>>)
      modifies this`error, this`channels, this`trace
      ensures Abs() == Apply(old(Abs()), effects)
    {
      var i := 0;
      while i < |effects|
        invariant 0 <= i <= |effects|
        invariant Abs() == Apply(old(Abs()), effects[..i])
      {
        match effects[i] {
          case Publish(v) =>
            Send(Event(v));
          case EmitError(x) =>
            Send(Error(x));
          case EmitFail(x) =>
            error := Some(x);
            Send(Fail(x));
          case RequestStop =>
            RequestStop(None);
        }
        assert effects[..i + 1][..i] == effects[..i];
        i := i + 1;
      }
      assert effects[..i] == effects;
    }

    /** `inner_handle`; a fault with a parent to judge it leaves the loop waiting. */
    method InnerHandle()
      requires channels.inner != []
      modifies this`wait, this`lifecycle, this`stopSignal, this`error, this`channels, this`trace
      ensures Abs() == InnerNext(old(Abs()))
      ensures lifecycle == old(lifecycle)
    {
      var action := channels.inner[0];
      channels := channels.(inner := channels.inner[1..]);
      trace := trace.(taken := trace.taken + [action]);
      match action
      case Event(v) =>
        trace := trace.(broadcast := trace.broadcast + [v]);
      case Error(_) =>
        if hasParent {
          trace := trace.(toParent := trace.toParent + [action]);
        }
      case Fail(_) =>
        if hasParent {
          trace := trace.(toParent := trace.toParent + [action]);
          wait := ForVerdict;
        } else {
          EndFault(None);
        }
    }

    /** `inner_handle` from the verdict on; None when no verdict can come. */
    method EndFault(verdict: Option<ChildAction>)
      modifies this`wait, this`lifecycle, this`stopSignal, this`error, this`channels, this`trace
      ensures Abs() == Judged(old(Abs()), verdict)
      ensures lifecycle == old(lifecycle) || lifecycle == Restarted
    {
      wait := AtSelect;
      if verdict.Some? {
        error := None; // the verdict cleans the error
        if verdict.value != ActionStop {
          lifecycle := Restarted;
        }
      }
      RequestStop(None);
      stopSignal := true;
    }

    /** The wait before a restart, and `pre_restart`. */
    method CallPreRestart(retry: Strategy, effects: seq<Effect<V>>)
      modifies this`retries, this`error, this`channels, this`trace
      ensures Abs() == PreRestarted(retry, old(Abs()), effects)
    {
      hide Apply;
      trace := trace.(backoffs := trace.backoffs + [NextBackoff(retry).0]);
      retries := retries + 1;
      trace := trace.(hooks := trace.hooks + [PreRestart]);
      Act(effects);
    }

    /** `apply_supervision_strategy` */
    method ApplySupervisionStrategy(effects: seq<Effect<V>>, failure: Option<ActorError>)
      modifies this`lifecycle, this`retries, this`error, this`channels, this`trace
      ensures Abs() == SuperviseNext(strategy, old(Abs()), effects, failure)
    {
      hide PreRestarted;
      match strategy
      case Stop =>
        lifecycle := Stopped;
      case Retry(retry) =>
        if retries < MaxRetries(retry) {
          CallPreRestart(retry, effects);
          if failure.None? {
            lifecycle := Started;
            retries := 0;
          } else {
            error := failure;
          }
        } else {
          lifecycle := Stopped;
        }
    }

    /** `pre_stop`; its failure is emitted as a fault. */
    method CallPreStop(effects: seq<Effect<V>>, failed: bool)
      requires channels.stops != []
      modifies this`error, this`channels, this`trace
      ensures Abs() == PreStopped(old(Abs()), effects, failed)
    {
      trace := trace.(stopped := trace.stopped + [channels.stops[0]]);
      channels := channels.(stops := channels.stops[1..]);
      trace := trace.(hooks := trace.hooks + [PreStop]);
      Act(effects);
      if failed {
        error := Some(STOP_ERROR);
        Send(Fail(STOP_ERROR));
      }
    }

    /** The stop branch of `run`, up to `stop_childs`. */
    method StopBranch(effects: seq<Effect<V>>, failed: bool)
      requires channels.stops != []
      modifies this`wait, this`error, this`channels, this`trace
      ensures Abs() == StopNext(old(Abs()), effects, failed)
    {
      var ack := channels.stops[0];
      CallPreStop(effects, failed);
      hide PreStopped;
      wait := ForChilds(ack);
    }

    /** The stop branch once the children are gone, and the check `init` makes
        when `run` returns. */
    method EndRun()
      requires wait.ForChilds?
      modifies this`wait, this`lifecycle, this`running, this`registered, this`trace
      ensures Abs() == LeaveLoop(old(Abs()))
    {
      registered := false;
      trace := trace.(acks := trace.acks + if wait.ack.Some? then [wait.ack.value] else []);
      wait := AtSelect;
      if lifecycle == Started {
        lifecycle := Stopped;
      }
      running := false;
      if error.Some? {
        lifecycle := Failed;
      }
    }

    /** A sender putting something on one of the runner's channels. */
    method Arrive(t: Turn<M, V, R>)
      requires FromOutside(t) && !finished
      modifies this`channels, this`trace
      ensures Abs() == Next(strategy, old(Abs()), t)
    {
      match t
      case Enqueue(e) =>
        channels := channels.(mailbox := channels.mailbox + [e]);
        trace := trace.(enqueued := trace.enqueued + [e]);
      case ChildReports(r) =>
        channels := channels.(reports := channels.reports + [r]);
        trace := trace.(received := trace.received + [r]);
      case AskStop(ack) =>
        RequestStop(ack);
    }

    /** A branch of the select loop that runs the actor's code. */
    method Work(t: Turn<M, V, R>)
      requires Enabled(Abs(), t) && (t.TakeReport? || t.TakeMessage?)
      modifies this`error, this`channels, this`trace
      ensures Abs() == Next(strategy, old(Abs()), t)
    {
      match t
      case TakeReport(effects, action) =>
        var report := channels.reports[0];
        channels := channels.(reports := channels.reports[1..]);
        Act(effects);
        trace := trace.(
          answered := trace.answered + [report],
          actions := trace.actions + if report.Faulted? then [(report.child, action)] else []);
      case TakeMessage(effects, result) =>
        var envelope := channels.mailbox[0];
        channels := channels.(mailbox := channels.mailbox[1..]);
        Act(effects);
        trace := trace.(
          handled := trace.handled + [envelope],
          replies := trace.replies + if envelope.rsvp.Some? then [(envelope.rsvp.value, result)] else []);
    }

    /** One turn of the select loop that does not end it. */
    method Select(t: Turn<M, V, R>)
      requires running && (lifecycle == Started || lifecycle == Restarted)
      requires Enabled(Abs(), t) && !FromOutside(t) && !t.ChildsStopped?
      modifies this`wait, this`lifecycle, this`stopSignal, this`error, this`channels, this`trace
      ensures running && (lifecycle == Started || lifecycle == Restarted)
      ensures Abs() == Next(strategy, old(Abs()), t)
    {
      hide Apply, ReportNext, MessageNext, StopNext, InnerNext, Judged;
      match t
      case TakeStop(effects, failed) =>
        StopBranch(effects, failed);
      case TakeReport(_, _) =>
        Work(t);
      case TakeMessage(_, _) =>
        Work(t);
      case TakeInner =>
        InnerHandle();
      case HearVerdict(verdict) =>
        EndFault(verdict);
      case MailboxClosed =>
        RequestStop(None);
        stopSignal := true;
    }

    /** `run`: the select loop, until the stop branch ends it. */
    method Run(turns: seq<Turn<M, V, R>>, from: nat, ghost start: State<M, V, R>) returns (next: nat)
      requires from <= |turns| && running && Runs(strategy, start, turns)
      requires lifecycle == Started || lifecycle == Restarted
      requires Abs() == At(strategy, start, turns, from)
      modifies this
      ensures from <= next <= |turns| && Abs() == At(strategy, start, turns, next)
      ensures next < |turns| ==> !running
    {
      hide Next, At, Runs;
      next := from;
      while next < |turns|
        invariant from <= next <= |turns|
        invariant running && (lifecycle == Started || lifecycle == Restarted)
        invariant Abs() == At(strategy, start, turns, next)
      {
        OneMore(strategy, start, turns, next);
        var t := turns[next];
        next := next + 1;
        if FromOutside(t) {
          Arrive(t);
        } else if t.ChildsStopped? {
          EndRun();
          OnlyLeaves(strategy, At(strategy, start, turns, next - 1));
          return;
        } else {
          Select(t);
        }
      }
    }

    /** `pre_start` and the state it leads to. */
    method CallPreStart(effects: seq<Effect<V>>, failure: Option<ActorError>)
      modifies this`lifecycle, this`error, this`channels, this`trace
      ensures Abs() == StartNext(old(Abs()), effects, failure)
    {
      trace := trace.(hooks := trace.hooks + [PreStart]);
      Act(effects);
      if failure.None? {
        lifecycle := Started;
      } else {
        error := failure;
        lifecycle := Failed;
      }
    }

    /** The startup signal, and the entry into `run`. */
    method EnterRun()
      requires lifecycle == Started && !running
      modifies this`startSender, this`trace, this`running, this`wait
      ensures Abs() == Next(strategy, old(Abs()), BeginRun) && running
    {
      SendSignal(true);
      running := true;
      wait := AtSelect;
      trace := trace.(starts := trace.starts + 1);
    }

    /** `post_stop`, whose failure changes nothing. */
    method CallPostStop(effects: seq<Effect<V>>)
      requires lifecycle == Stopped
      modifies this`lifecycle, this`error, this`channels, this`trace
      ensures Abs() == Apply(Called(old(Abs()), PostStop), effects).(lifecycle := Terminated)
    {
      trace := trace.(hooks := trace.hooks + [PostStop]);
      Act(effects);
      lifecycle := Terminated;
    }

    /** The end of `init`: the path goes and a start that failed is reported. */
    method EndInit()
      requires lifecycle == Terminated && !finished
      modifies this`startSender, this`trace, this`registered, this`finished
      ensures Abs() == Next(strategy, old(Abs()), Finish)
    {
      SendSignal(false);
      registered := false;
      finished := true;
    }

    /** One state of the lifecycle loop; in Started, up to entering `run`. */
    method Advance(t: Turn<M, V, R>)
      requires !running && Enabled(Abs(), t) && !FromOutside(t)
      modifies this
      ensures Abs() == Next(strategy, old(Abs()), t)
      ensures running == (old(lifecycle) == Started)
      ensures running ==> lifecycle == Started
    {
      hide StartNext, SuperviseNext, Apply, Signal;
      match lifecycle
      case Created =>
        CallPreStart(t.effects, t.failure);
      case Started =>
        EnterRun();
      case Restarted =>
        ApplySupervisionStrategy(t.effects, t.failure);
      case Stopped =>
        CallPostStop(t.effects);
      case Failed =>
        lifecycle := if hasParent then Terminated else Lifecycle.Restarted;
      case Terminated =>
        EndInit();
    }

    /** `init`: the lifecycle loop. */
    method Init(turns: seq<Turn<M, V, R>>)
      requires !running && Runs(strategy, Abs(), turns)
      modifies this
      ensures Abs() == Exec(strategy, old(Abs()), turns)
    {
      ghost var start := Abs();
      var i := 0;
      assert Abs() == At(strategy, start, turns, 0);
      while i < |turns|
        invariant 0 <= i <= |turns|
        invariant i < |turns| ==> !running
        invariant Runs(strategy, start, turns) && Abs() == At(strategy, start, turns, i)
        decreases |turns| - i
      {
        OneMore(strategy, start, turns, i);
        var t := turns[i];
        i := i + 1;
        if FromOutside(t) {
          Arrive(t);
        } else {
          Advance(t);
          if running {
            i := Run(turns, i, start);
          }
        }
      }
      assert turns[..i] == turns;
    }

    method SendSignal(value: bool)
      modifies this`startSender, this`trace
      ensures Abs() == Signal(old(Abs()), value)
    {
      if startSender {
        startSender := false;
        trace := trace.(signals := trace.signals + [value]);
      }
    }
  }

  /** The state after the first `i` turns. */
  ghost function At<M, V, R>(
      strategy: SupervisionStrategy, start: State<M, V, R>, turns: seq<Turn<M, V, R>>, i: nat): State<M, V, R>
    requires i <= |turns| && Runs(strategy, start, turns)
  {
    PrefixRuns(strategy, start, turns, i);
    Exec(strategy, start, turns[..i])
  }

  lemma {:induction false} PrefixRuns<M, V, R>(
      strategy: SupervisionStrategy, start: State<M, V, R>, turns: seq<Turn<M, V, R>>, i: nat)
    requires i <= |turns| && Runs(strategy, start, turns)
    ensures Runs(strategy, start, turns[..i])
    decreases |turns|
  {
    if i < |turns| {
      PrefixRuns(strategy, start, turns[..|turns| - 1], i);
      assert turns[..|turns| - 1][..i] == turns[..i];
    } else {
      assert turns[..i] == turns;
    }
  }

  lemma OnlyLeaves<M, V, R>(strategy: SupervisionStrategy, s: State<M, V, R>)
    requires s.running && s.wait.ForChilds?
    ensures Next(strategy, s, ChildsStopped) == LeaveLoop(s)
  {}

  // The next turn is enabled where it is taken.
  lemma OneMore<M, V, R>(strategy: SupervisionStrategy, start: State<M, V, R>, turns: seq<Turn<M, V, R>>, i: nat)
    requires i < |turns| && Runs(strategy, start, turns)
    ensures Enabled(At(strategy, start, turns, i), turns[i])
    ensures At(strategy, start, turns, i + 1) == Next(strategy, At(strategy, start, turns, i), turns[i])
  {
    PrefixRuns(strategy, start, turns, i + 1);
    assert turns[..i + 1][..i] == turns[..i];
  }
}
