/** A supervisor and one of its children, turn by turn: what becomes of a stop
    request when the child is waiting for a verdict on its fault. */
module FaultDeadlock {
  import opened Wrappers
  import opened Supervision
  import opened Lifecycle
  import opened RunnerProperties
  import opened LifecycleProperties

  /** The two runners. `key` marks the child's fault among the parent's reports,
      `ack` the answer to the request that `stop_childs` sends to the child, and
      `asked` says that it has been sent. */
  datatype Family<+M, +V, +R> = Family(parent: State<M, V, R>, child: State<M, V, R>, key: nat, ack: nat, asked: bool)

  datatype Move<+M, +V, +R> =
    | ParentTurn(turn: Turn<M, V, R>)
    | ChildTurn(turn: Turn<M, V, R>)
    | AskChild

  datatype Strategies = Strategies(parent: SupervisionStrategy, child: SupervisionStrategy)

  /** `stop_childs` has nothing to wait for: the child has acknowledged its
      request, or is gone and its channel with it. */
  predicate ChildGone<M, V, R>(f: Family<M, V, R>) {
    f.child.finished || (f.asked && f.ack in f.child.trace.acks)
  }

  /** A verdict reaches the child once its parent has given it; none comes from
      a parent whose runner is gone. */
  predicate VerdictGiven<M, V, R>(f: Family<M, V, R>, verdict: Option<ChildAction>) {
    match verdict
    case Some(action) => (f.key, action) in f.parent.trace.actions
    case None => f.parent.finished
  }

  predicate CanMove<M, V, R>(f: Family<M, V, R>, m: Move<M, V, R>) {
    match m
    case ParentTurn(t) =>
      && Enabled(f.parent, t)
      && (t.ChildsStopped? ==> ChildGone(f))
      && (t.ChildReports? ==> !(t.report.Faulted? && t.report.child == f.key))
    case ChildTurn(t) =>
      && Enabled(f.child, t)
      && (t.HearVerdict? ==> VerdictGiven(f, t.verdict))
      && (t.AskStop? ==> t.ack != Some(f.ack))
    case AskChild => f.parent.running && f.parent.wait.ForChilds? && !f.asked && !f.child.finished
  }

  /** A fault taken from the child's inner queue is reported to the parent. */
  function Reporting<M, V, R>(f: Family<M, V, R>, t: Turn<M, V, R>): State<M, V, R>
    requires Enabled(f.child, t)
  {
    if t.TakeInner? && f.child.channels.inner[0].Fail? && !f.parent.finished
    then Next(Stop, f.parent, ChildReports(Faulted(f.child.channels.inner[0].error, f.key)))
    else f.parent
  }

  function Moved<M, V, R>(both: Strategies, f: Family<M, V, R>, m: Move<M, V, R>): Family<M, V, R>
    requires CanMove(f, m)
  {
    match m
    case ParentTurn(t) => f.(parent := Next(both.parent, f.parent, t))
    case ChildTurn(t) => f.(parent := Reporting(f, t), child := Next(both.child, f.child, t))
    case AskChild => f.(child := Next(both.child, f.child, AskStop(Some(f.ack))), asked := true)
  }

  predicate Plays<M, V, R>(both: Strategies, f: Family<M, V, R>, moves: seq<Move<M, V, R>>)
    decreases |moves|
  {
    moves == [] || (CanMove(f, moves[0]) && Plays(both, Moved(both, f, moves[0]), moves[1..]))
  }

  function Play<M, V, R>(both: Strategies, f: Family<M, V, R>, moves: seq<Move<M, V, R>>): Family<M, V, R>
    requires Plays(both, f, moves)
    decreases |moves|
  {
    if moves == [] then f else Play(both, Moved(both, f, moves[0]), moves[1..])
  }

  /** The parent is in `stop_childs`, waiting for this child's answer. */
  ghost predicate AwaitsChild<M, V, R>(f: Family<M, V, R>) {
    && f.parent.running && f.parent.wait.ForChilds? && !f.parent.finished && f.asked
    && f.ack !in f.child.trace.acks && !f.child.finished
  }

  /** The child waits for a verdict that its parent has not given. */
  ghost predicate AwaitsVerdict<M, V, R>(f: Family<M, V, R>) {
    && f.child.running && f.child.wait.ForVerdict?
    && forall action :: (f.key, action) !in f.parent.trace.actions
  }

  // A parent in its stop branch takes nothing but what arrives.
  lemma ParentStays<M, V, R>(both: Strategies, f: Family<M, V, R>, t: Turn<M, V, R>)
    requires AwaitsChild(f) && AwaitsVerdict(f) && CanMove(f, ParentTurn(t)) && Signalled(f.parent)
    ensures FromOutside(t)
    ensures AwaitsChild(Moved(both, f, ParentTurn(t))) && AwaitsVerdict(Moved(both, f, ParentTurn(t)))
    ensures Moved(both, f, ParentTurn(t)).parent.trace.acks == f.parent.trace.acks
    ensures Moved(both, f, ParentTurn(t)).parent.registered == f.parent.registered
  {
    hide Apply, StartNext, StopNext, LeaveLoop, ReportNext, InnerNext, Judged, MessageNext, SuperviseNext;
  }

  lemma ChildStays<M, V, R>(both: Strategies, f: Family<M, V, R>, t: Turn<M, V, R>)
    requires AwaitsChild(f) && AwaitsVerdict(f) && CanMove(f, ChildTurn(t)) && Signalled(f.child)
    ensures FromOutside(t)
    ensures AwaitsChild(Moved(both, f, ChildTurn(t))) && AwaitsVerdict(Moved(both, f, ChildTurn(t)))
    ensures Moved(both, f, ChildTurn(t)).parent == f.parent
    ensures Moved(both, f, ChildTurn(t)).child.registered == f.child.registered
  {
    hide Apply, StartNext, StopNext, LeaveLoop, ReportNext, InnerNext, Judged, MessageNext, SuperviseNext;
  }

  /** A supervisor that waits for a child to stop, and a child that waits for the
      supervisor's verdict, wait forever: no move of either answers the stop
      request or takes a path out of the registry, whatever arrives. */
  lemma {:induction false} DeadlockIsForever<M, V, R>(both: Strategies, f: Family<M, V, R>, moves: seq<Move<M, V, R>>)
    requires AwaitsChild(f) && AwaitsVerdict(f) && Signalled(f.parent) && Signalled(f.child)
    requires Plays(both, f, moves)
    ensures var n := Play(both, f, moves);
            && AwaitsChild(n) && AwaitsVerdict(n)
            && n.parent.trace.acks == f.parent.trace.acks
            && n.parent.registered == f.parent.registered && n.child.registered == f.child.registered
    decreases |moves|
  {
    hide Next, Enabled, Signalled;
    if moves != [] {
      var next := Moved(both, f, moves[0]);
      match moves[0] {
        case ParentTurn(t) =>
          ParentStays(both, f, t);
          NextSignalled(both.parent, f.parent, t);
        case ChildTurn(t) =>
          ChildStays(both, f, t);
          NextSignalled(both.child, f.child, t);
        case AskChild => assert false;
      }
      DeadlockIsForever(both, next, moves[1..]);
    }
  }

  /** A child that is between two branches of its loop, with the request in hand,
      answers it, and so lets its supervisor go on. */
  lemma FreeChildAnswers<M, V, R>(both: Strategies, f: Family<M, V, R>)
    requires AwaitsChild(f) && Selecting(f.child)
    requires f.child.channels.stops != [] && f.child.channels.stops[0] == Some(f.ack)
    ensures var moves: seq<Move<M, V, R>> :=
              [ChildTurn(TakeStop([], false)), ChildTurn(ChildsStopped), ParentTurn(ChildsStopped)];
            && Plays(both, f, moves)
            && var n := Play(both, f, moves);
               f.ack in n.child.trace.acks && !n.child.registered && !n.parent.running && !n.parent.registered
  {
    var moves: seq<Move<M, V, R>> :=
      [ChildTurn(TakeStop([], false)), ChildTurn(ChildsStopped), ParentTurn(ChildsStopped)];
    var f1 := Moved(both, f, moves[0]);
    StopFrame(f.child, [], false);
    hide StopNext;
    var f2 := Moved(both, f1, moves[1]);
    assert f2.child.trace.acks[|f1.child.trace.acks|] == f.ack;
    var f3 := Moved(both, f2, moves[2]);
    assert moves[1..] == [moves[1], moves[2]] && moves[1..][1..] == [moves[2]] && moves[1..][1..][1..] == [];
    assert Plays(both, f3, []) && Play(both, f3, []) == f3;
    assert Plays(both, f2, [moves[2]]) && Play(both, f2, [moves[2]]) == f3;
    assert Plays(both, f1, [moves[1], moves[2]]) && Play(both, f1, [moves[1], moves[2]]) == f3;
  }

  // ------------------------------------------------- a child on its way

  /** The child will not wait for messages: it has a stop request to take, or is
      past the select loop; and it does not wait for a verdict. */
  ghost predicate CanEnd<M, V, R>(s: State<M, V, R>) {
    && Signalled(s) && s.hasParent && !s.finished
    && (s.running ==> !s.wait.ForVerdict?)
    && HasRequest(s)
  }

  ghost predicate HasRequest<M, V, R>(s: State<M, V, R>) {
    Selecting(s) || (s.lifecycle == Started && !s.running) ==> s.channels.stops != []
  }

  /** A turn that brings it nearer to its end: hooks that can fail, do. */
  function EndTurn<M, V, R>(s: State<M, V, R>): Turn<M, V, R> {
    if s.running then if s.wait.ForChilds? then ChildsStopped else TakeStop([], true)
    else
      match s.lifecycle
      case Created => CallPreStart([], Some(STOP_ERROR))
      case Started => BeginRun
      case Restarted => Supervise([], Some(STOP_ERROR))
      case Failed => Escalate
      case Stopped => CallPostStop([])
      case Terminated => Finish
  }

  function ToEnd<M, V, R>(strategy: SupervisionStrategy, s: State<M, V, R>): nat {
    var tries := if s.retries < Limit(strategy) then Limit(strategy) - s.retries else 0;
    if s.running then tries + if s.wait.ForChilds? then 4 else 5
    else
      match s.lifecycle
      case Created => 3
      case Started => tries + 6
      case Restarted => tries + 3
      case Failed => 2
      case Stopped => 2
      case Terminated => 1
  }

  ghost predicate Nearer<M, V, R>(strategy: SupervisionStrategy, s: State<M, V, R>, n: State<M, V, R>) {
    n.finished || (CanEnd(n) && ToEnd(strategy, n) < ToEnd(strategy, s))
  }

  lemma EndStepRunning<M, V, R>(strategy: SupervisionStrategy, s: State<M, V, R>)
    requires CanEnd(s) && s.running
    ensures Enabled(s, EndTurn(s)) && Nearer(strategy, s, Next(strategy, s, EndTurn(s)))
  {
    NextSignalled(strategy, s, EndTurn(s));
    hide Apply, StopNext, LeaveLoop;
    if s.wait.ForChilds? { LeaveFrame(s); } else { StopFrame(s, [], true); }
  }

  lemma EndStepIdle<M, V, R>(strategy: SupervisionStrategy, s: State<M, V, R>)
    requires CanEnd(s) && !s.running
    ensures Enabled(s, EndTurn(s)) && Nearer(strategy, s, Next(strategy, s, EndTurn(s)))
  {
    NextSignalled(strategy, s, EndTurn(s));
    hide Apply, StartNext, SuperviseNext;
    match EndTurn(s)
    case CallPreStart(effects, failure) => StartFrame(s, effects, failure);
    case Supervise(effects, failure) => SuperviseFrame(strategy, s, effects, failure);
    case CallPostStop(effects) => TouchedHook(s, PostStop, effects);
    case _ =>
  }

  lemma EndStep<M, V, R>(strategy: SupervisionStrategy, s: State<M, V, R>)
    requires CanEnd(s)
    ensures Enabled(s, EndTurn(s)) && Nearer(strategy, s, Next(strategy, s, EndTurn(s)))
  {
    hide CanEnd, Next, Nearer, EndTurn;
    if s.running { EndStepRunning(strategy, s); } else { EndStepIdle(strategy, s); }
  }

  lemma {:induction false} PlayConcat<M, V, R>(
      both: Strategies, f: Family<M, V, R>, a: seq<Move<M, V, R>>, b: seq<Move<M, V, R>>)
    requires Plays(both, f, a) && Plays(both, Play(both, f, a), b)
    ensures Plays(both, f, a + b) && Play(both, f, a + b) == Play(both, Play(both, f, a), b)
    decreases |a|
  {
    if a == [] {
      assert a + b == b;
    } else {
      assert (a + b)[0] == a[0] && (a + b)[1..] == a[1..] + b;
      PlayConcat(both, Moved(both, f, a[0]), a[1..], b);
    }
  }

  lemma PlayOne<M, V, R>(both: Strategies, f: Family<M, V, R>, m: Move<M, V, R>)
    requires CanMove(f, m)
    ensures Plays(both, f, [m]) && Play(both, f, [m]) == Moved(both, f, m)
  {
    assert [m][1..] == [];
    assert Plays(both, Moved(both, f, m), []) && Play(both, Moved(both, f, m), []) == Moved(both, f, m);
  }

  /** Such a child can end, and nothing its supervisor does is needed for it. */
  lemma {:induction false} ChildEnds<M, V, R>(both: Strategies, f: Family<M, V, R>) returns (moves: seq<Move<M, V, R>>)
    requires CanEnd(f.child)
    ensures Plays(both, f, moves)
    ensures var n := Play(both, f, moves); n == f.(child := n.child) && n.child.finished
    decreases ToEnd(both.child, f.child)
  {
    hide CanEnd, Next, ToEnd;
    var m: Move<M, V, R> := ChildTurn(EndTurn(f.child));
    EndStep(both.child, f.child);
    EndMove(f);
    PlayOne(both, f, m);
    var next := Moved(both, f, m);
    assert next == f.(child := Next(both.child, f.child, EndTurn(f.child)));
    moves := [m];
    if !next.child.finished {
      var more := ChildEnds(both, next);
      PlayConcat(both, f, [m], more);
      moves := [m] + more;
    }
  }

  lemma EndMove<M, V, R>(f: Family<M, V, R>)
    requires CanEnd(f.child) && Enabled(f.child, EndTurn(f.child))
    ensures CanMove(f, ChildTurn(EndTurn(f.child))) && Reporting(f, EndTurn(f.child)) == f.parent
  {}

  /** So a supervisor that waits for a child to stop can leave its stop branch if
      and only if that child is not itself waiting for the supervisor's verdict. */
  lemma DeadlockIff<M, V, R>(both: Strategies, f: Family<M, V, R>)
    requires AwaitsChild(f) && Signalled(f.parent) && Signalled(f.child) && f.child.hasParent && HasRequest(f.child)
    requires forall action :: (f.key, action) !in f.parent.trace.actions
    ensures f.child.running && f.child.wait.ForVerdict? <==>
              forall moves | Plays(both, f, moves) :: Play(both, f, moves).parent.wait.ForChilds?
  {
    if f.child.running && f.child.wait.ForVerdict? {
      forall moves | Plays(both, f, moves) ensures Play(both, f, moves).parent.wait.ForChilds? {
        DeadlockIsForever(both, f, moves);
      }
    } else {
      var moves := ChildEnds(both, f);
      var n := Play(both, f, moves);
      PlayOne(both, n, ParentTurn(ChildsStopped));
      PlayConcat(both, f, moves, [ParentTurn(ChildsStopped)]);
      assert !Play(both, f, moves + [ParentTurn(ChildsStopped)]).parent.wait.ForChilds?;
    }
  }

  // ------------------------------------------------ a supervisor at work

  lemma QuietReport<M, V, R>(s: State<M, V, R>, action: ChildAction)
    requires s.channels.reports != []
    ensures var (n, report) := (ReportNext(s, [], action), s.channels.reports[0]);
            && n.channels.reports == s.channels.reports[1..] && n.running == s.running && n.wait == s.wait
            && n.stopSignal == s.stopSignal && n.finished == s.finished
            && n.trace.actions == s.trace.actions + if report.Faulted? then [(report.child, action)] else []
  {
    hide Apply;
    ApplyNothing(s.(channels := s.channels.(reports := s.channels.reports[1..])));
  }

  ghost predicate NotJudged<M, V, R>(f: Family<M, V, R>) {
    forall action :: (f.key, action) !in f.parent.trace.actions
  }

  ghost predicate Reported<M, V, R>(f: Family<M, V, R>) {
    exists report | report in f.parent.channels.reports :: report.Faulted? && report.child == f.key
  }

  /** A fault that a child takes from its inner queue is reported, and the child
      waits. */
  lemma FaultIsReported<M, V, R>(both: Strategies, f: Family<M, V, R>)
    requires CanMove(f, ChildTurn(TakeInner)) && f.child.channels.inner[0].Fail? && f.child.hasParent
    ensures var n := Moved(both, f, ChildTurn(TakeInner));
            && n.child.running && n.child.wait.ForVerdict?
            && (!f.parent.finished ==>
                  && Reported(n)
                  && n.parent.channels.reports ==
                       f.parent.channels.reports + [Faulted(f.child.channels.inner[0].error, f.key)])
  {
    var n := Moved(both, f, ChildTurn(TakeInner));
    if !f.parent.finished {
      assert n.parent.channels.reports[|f.parent.channels.reports|].Faulted?;
    }
  }

  /** A supervisor between two branches of its loop takes the reports before the
      child's and then the child's own, and its decision is the one verdict that
      the child can hear. */
  lemma {:induction false} VerdictComes<M, V, R>(both: Strategies, f: Family<M, V, R>, action: ChildAction)
    returns (moves: seq<Move<M, V, R>>)
    requires Selecting(f.parent) && !f.parent.stopSignal && !f.parent.finished && Reported(f) && NotJudged(f)
    ensures Plays(both, f, moves)
    ensures var n := Play(both, f, moves);
            && n == f.(parent := n.parent)
            && forall verdict :: VerdictGiven(n, verdict) <==> verdict == Some(action)
    decreases |f.parent.channels.reports|
  {
    var m: Move<M, V, R> := ParentTurn(TakeReport([], action));
    var head := f.parent.channels.reports[0];
    hide ReportNext;
    QuietReport(f.parent, action);
    PlayOne(both, f, m);
    var next := Moved(both, f, m);
    moves := [m];
    if head.Faulted? && head.child == f.key {
      OneVerdict(f, next, action);
    } else {
      assert f.parent.channels.reports == [head] + next.parent.channels.reports;
      var more := VerdictComes(both, next, action);
      PlayConcat(both, f, [m], more);
      moves := [m] + more;
    }
  }

  lemma OneVerdict<M, V, R>(f: Family<M, V, R>, n: Family<M, V, R>, action: ChildAction)
    requires NotJudged(f) && n.key == f.key && !n.parent.finished
    requires n.parent.trace.actions == f.parent.trace.actions + [(f.key, action)]
    ensures forall verdict :: VerdictGiven(n, verdict) <==> verdict == Some(action)
  {
    forall verdict ensures VerdictGiven(n, verdict) <==> verdict == Some(action) {
      if verdict == Some(action) {
        assert n.parent.trace.actions[|f.parent.trace.actions|] == (f.key, action);
      }
    }
  }

  /** What the supervisor decides is what the child hears: it can hear nothing
      else, and it can hear that. */
  lemma DecisionIsHeard<M, V, R>(both: Strategies, f: Family<M, V, R>, action: ChildAction)
    returns (moves: seq<Move<M, V, R>>)
    requires Selecting(f.parent) && !f.parent.stopSignal && !f.parent.finished && Reported(f) && NotJudged(f)
    requires f.child.hasParent && f.child.running && f.child.wait.ForVerdict?
    ensures Plays(both, f, moves)
    ensures var n := Play(both, f, moves);
            && n.child == f.child
            && forall verdict :: CanMove(n, ChildTurn(HearVerdict(verdict))) <==> verdict == Some(action)
  {
    moves := VerdictComes(both, f, action);
  }

  /** While its supervisor is at work, a child that waits for a verdict can end,
      whatever is decided, and a stop request to it is heard. */
  lemma ServedChildEnds<M, V, R>(both: Strategies, f: Family<M, V, R>, action: ChildAction)
    returns (moves: seq<Move<M, V, R>>)
    requires Selecting(f.parent) && !f.parent.stopSignal && !f.parent.finished && Reported(f) && NotJudged(f)
    requires Signalled(f.child) && f.child.hasParent && f.child.running && f.child.wait.ForVerdict? && !f.child.finished
    ensures Plays(both, f, moves) && Play(both, f, moves).child.finished
  {
    var given := VerdictComes(both, f, action);
    var f1 := Play(both, f, given);
    var m: Move<M, V, R> := ChildTurn(HearVerdict(Some(action)));
    assert VerdictGiven(f1, Some(action));
    PlayOne(both, f1, m);
    var f2 := Moved(both, f1, m);
    NextSignalled(both.child, f1.child, HearVerdict(Some(action)));
    assert CanEnd(f2.child);
    var rest := ChildEnds(both, f2);
    hide CanEnd, Next, Moved, CanMove;
    PlayConcat(both, f1, [m], rest);
    PlayConcat(both, f, given, [m] + rest);
    moves := given + ([m] + rest);
  }

  /** It happens: a child handles a message, fails and reports it; its parent is
      asked to stop and takes the stop branch before it takes the report. */
  lemma FaultThenStop<M, V, R>(both: Strategies, f: Family<M, V, R>, result: R, error: ActorError)
    requires Selecting(f.parent) && !f.parent.finished && f.parent.channels.stops == [None]
    requires forall action :: (f.key, action) !in f.parent.trace.actions
    requires f.child.hasParent && Selecting(f.child) && !f.child.stopSignal && !f.child.finished
    requires f.child.channels.mailbox != [] && f.child.channels.inner == []
    requires !f.asked && f.ack !in f.child.trace.acks
    ensures var moves: seq<Move<M, V, R>> := [ChildTurn(TakeMessage([EmitFail(error)], result)), ChildTurn(TakeInner),
                                              ParentTurn(TakeStop([], false)), AskChild];
            && Plays(both, f, moves)
            && var n := Play(both, f, moves);
               AwaitsChild(n) && AwaitsVerdict(n)
  {
    var moves: seq<Move<M, V, R>> := [ChildTurn(TakeMessage([EmitFail(error)], result)), ChildTurn(TakeInner),
                                      ParentTurn(TakeStop([], false)), AskChild];
    hide Apply, MessageNext, StopNext;
    FailingMessage(f.child, result, error);
    var f1 := Moved(both, f, moves[0]);
    var f2 := Moved(both, f1, moves[1]);
    StopFrame(f2.parent, [], false);
    var f3 := Moved(both, f2, moves[2]);
    var f4 := Moved(both, f3, moves[3]);
    assert moves[1..] == [moves[1], moves[2], moves[3]];
    assert moves[1..][1..] == [moves[2], moves[3]] && moves[1..][1..][1..] == [moves[3]];
    assert Plays(both, f4, []) && Play(both, f4, []) == f4;
    assert Plays(both, f3, [moves[3]]) && Play(both, f3, [moves[3]]) == f4;
    assert Plays(both, f2, [moves[2], moves[3]]) && Play(both, f2, [moves[2], moves[3]]) == f4;
  }
}
