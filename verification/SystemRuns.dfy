/** What every run of creations, stops, faults and shutdown keeps of the actor
    system, and who stays registered in the end. */
module SystemRuns {
  import opened Wrappers
  import opened ActorPath
  import opened ActorTree
  import opened Shutdown
  import opened ActorSystem

  // ------------------------------------------------------ conservation

  lemma LessGone(actors: set<ActorPath>, gone: multiset<ActorPath>, left: multiset<ActorPath>)
    requires multiset(actors) == left + gone
    ensures multiset(Less(actors, gone)) == left
  {
    forall p ensures multiset(Less(actors, gone))[p] == left[p] {
      assert multiset(actors)[p] == left[p] + gone[p];
    }
  }

  // A changed actor changes the population by what its tree gains and loses.
  lemma ChangeConserves(w: Population, at: ActorPath, m: Node, gain: multiset<ActorPath>, loss: multiset<ActorPath>)
    requires Locate(w, at).Some?
    requires Running(m) + loss == Running(Locate(w, at).value.node) + gain
    ensures var v := Changed(w, at, m);
            && RunningBelow(v.roots) + RunningBelow(v.orphans) + loss ==
                 RunningBelow(w.roots) + RunningBelow(w.orphans) + gain
            && v.actors == w.actors
  {
    var node := Locate(w, at).value.node;
    var v := Changed(w, at, m);
    if Find(w.roots, at, NoOne).Some? {
      PutRunning(w.roots, at, NoOne, m);
      hide Running, RunningBelow, Find, Put;
      Balance(RunningBelow(v.roots), RunningBelow(w.roots), Running(node), Running(m), gain, loss,
              RunningBelow(w.orphans));
    } else {
      PutRunning(w.orphans, at, NoOne, m);
      hide Running, RunningBelow, Find, Put;
      Balance(RunningBelow(v.orphans), RunningBelow(w.orphans), Running(node), Running(m), gain, loss,
              RunningBelow(w.roots));
    }
  }

  lemma Balance(
      v: multiset<ActorPath>, w: multiset<ActorPath>, n: multiset<ActorPath>, m: multiset<ActorPath>,
      gain: multiset<ActorPath>, loss: multiset<ActorPath>, rest: multiset<ActorPath>)
    requires v + n == w + m && m + loss == n + gain
    ensures v + rest + loss == w + rest + gain && rest + v + loss == rest + w + gain
  {
    forall p ensures v[p] + loss[p] == w[p] + gain[p] {
      assert (v + n)[p] == (w + m)[p] && (m + loss)[p] == (n + gain)[p];
    }
    assert v + rest + loss == w + rest + gain;
    assert rest + v + loss == rest + w + gain;
  }

  lemma {:induction false} ShutdownConserves(roots: seq<Node>)
    ensures var (left, stuck) := ShutdownLeaves(roots);
            RunningBelow(roots) == RunningBelow(left) + RunningBelow(stuck) + ShutdownGone(roots)
    decreases |roots|
  {
    hide RunningBelow, Running, Gone, EndedBelow, LetEndAll, After, StopSpec;
    hide ShutdownGone, ShutdownLeaves, ShutdownSpec;
    NoRoots();
    NoneRunning();
    if roots != [] {
      var (root, older) := (roots[|roots| - 1], roots[..|roots| - 1]);
      NextRoot(roots);
      RootConserves(root);
      RunningSnoc(older, root);
      assert older + [root] == roots;
      if root.status == Closed {
        LetEndAllConserves(older);
        AddUp(RunningBelow(older), RunningBelow(LetEndAll(older)), EndedBelow(older),
              Running(root), multiset{}, multiset{});
      } else if StopSpec(root, NoOne).1 {
        ShutdownConserves(older);
        var (left, stuck) := ShutdownLeaves(older);
        AddUp(RunningBelow(older), RunningBelow(left) + RunningBelow(stuck), ShutdownGone(older),
              Running(root), multiset{}, Gone(root, NoOne));
      } else {
        LetEndAllConserves(older);
        AddUp(RunningBelow(older), RunningBelow(LetEndAll(older)), EndedBelow(older),
              Running(root), RunningBelow([After(root, NoOne)]), Gone(root, NoOne));
      }
    }
  }

  lemma NoneRunning()
    ensures RunningBelow([]) == multiset{}
  {}

  lemma AddUp(
      r: multiset<ActorPath>, x: multiset<ActorPath>, e: multiset<ActorPath>,
      t: multiset<ActorPath>, y: multiset<ActorPath>, g: multiset<ActorPath>)
    requires r == x + e && t == y + g
    ensures r + t == x + y + (g + e)
    ensures y == multiset{} ==> r + t == x + (g + e)
    ensures y == multiset{} == g ==> r + t == x + multiset{} + e
  {}

  lemma RootConserves(root: Node)
    ensures root.status == Closed ==> Running(root) == multiset{}
    ensures StopSpec(root, NoOne).1 ==> Running(root) == Gone(root, NoOne)
    ensures Running(root) == RunningBelow([After(root, NoOne)]) + Gone(root, NoOne)
  {
    StopConserves(root, NoOne);
    if StopSpec(root, NoOne).1 { AnsweredIsClosed(root, NoOne); }
    RunningSnoc([], After(root, NoOne));
    assert [] + [After(root, NoOne)] == [After(root, NoOne)];
    hide After, StopSpec, Gone;
  }

  lemma ChildKeepsRegistered(w: Population, parent: Node, start: Start)
    requires Registered(w) && Locate(w, parent.path).Some? && Locate(w, parent.path).value.node == parent
    ensures Registered(ChildCreated(w, parent, start))
  {
    var c := CreateSpec(w.actors, Div(parent.path, start.name), start);
    var m := parent.(children := parent.children + c.nodes);
    var v := Changed(w, parent.path, m);
    CreateConserves(w.actors, Div(parent.path, start.name), start);
    RunningConcat(parent.children, c.nodes);
    RunningConcat(v.orphans, c.orphans);
    assert Running(m) + multiset{} == Running(parent) + RunningBelow(c.nodes);
    ChangeConserves(w, parent.path, m, RunningBelow(c.nodes), multiset{});
    hide Running, RunningBelow, CreateSpec, Changed;
  }

  lemma StopKeepsRegistered(w: Population, found: Found)
    requires Registered(w) && Locate(w, found.node.path) == Some(found)
    ensures Registered(Stopped(w, found))
  {
    var gone := Gone(found.node, found.supervisor);
    var after := After(found.node, found.supervisor);
    StopConserves(found.node, found.supervisor);
    ChangeConserves(w, found.node.path, after, multiset{}, gone);
    var v := Changed(w, found.node.path, after);
    LessGone(w.actors, gone, RunningBelow(v.roots) + RunningBelow(v.orphans));
    hide Running, RunningBelow, Gone, After, Find, Put;
  }

  lemma MarkKeepsRegistered(w: Population, at: ActorPath, status: Status)
    requires Registered(w) && Locate(w, at).Some? && status != Closed
    ensures Registered(Changed(w, at, Locate(w, at).value.node.(status := status)))
  {
    ChangeConserves(w, at, Locate(w, at).value.node.(status := status), multiset{}, multiset{});
    var v := Changed(w, at, Locate(w, at).value.node.(status := status));
    hide RunningBelow, Find, Put, Changed;
    var after := RunningBelow(v.roots) + RunningBelow(v.orphans);
    assert after + multiset{} == after;
  }

  lemma RootKeepsRegistered(w: Population, start: Start)
    requires Registered(w)
    ensures Registered(Step(w, CreateRoot(start)))
  {
    var c := CreateSpec(w.actors, Div(User(), start.name), start);
    CreateConserves(w.actors, Div(User(), start.name), start);
    RunningConcat(w.roots, c.nodes);
    RunningConcat(w.orphans, c.orphans);
    hide CreateSpec, RunningBelow;
  }

  lemma CancelKeepsRegistered(w: Population)
    requires Registered(w)
    ensures Registered(Step(w, Cancel))
  {
    var (left, stuck) := ShutdownLeaves(w.roots);
    ShutdownConserves(w.roots);
    RunningConcat(w.orphans, stuck);
    hide RunningBelow, ShutdownLeaves, ShutdownGone;
    LessGone(w.actors, ShutdownGone(w.roots), RunningBelow(left) + RunningBelow(w.orphans + stuck));
  }

  lemma StepKeepsRegistered(w: Population, op: Op)
    requires Registered(w)
    ensures Registered(Step(w, op))
  {
    hide ChildCreated, Stopped, Changed;
    match op
    case CreateRoot(start) =>
      RootKeepsRegistered(w, start);
    case CreateChild(parent, start) =>
      if Locate(w, parent).Some? { ChildKeepsRegistered(w, Locate(w, parent).value.node, start); }
    case StopActor(at) =>
      if Locate(w, at).Some? { StopKeepsRegistered(w, Locate(w, at).value); }
    case ReportFault(at) =>
      if Locate(w, at).Some? { MarkKeepsRegistered(w, at, Faulted); }
    case HearVerdict(at) =>
      if Locate(w, at).Some? { MarkKeepsRegistered(w, at, Live); }
    case Cancel =>
      CancelKeepsRegistered(w);
  }

  /** Over every run of creations with failing starts, stops, faults, verdicts and
      shutdown: the registry is the running actors, each once, in the tree or
      left behind by it. */
  lemma {:induction false} RunKeepsRegistered(ops: seq<Op>)
    ensures Registered(Run(ops))
    decreases |ops|
  {
    if ops != [] {
      RunKeepsRegistered(ops[..|ops| - 1]);
      StepKeepsRegistered(Run(ops[..|ops| - 1]), ops[|ops| - 1]);
    }
  }

  // ------------------------------------------------------- the shutdown

  /** StopSystem is sent exactly when no root's channel is closed and no actor
      waits in vain; then the actors the task stopped went newest root first. */
  lemma {:induction false} ShutdownCompletesIff(roots: seq<Node>)
    ensures ShutdownSpec(roots).1 == Completed <==>
              forall r | r in roots :: r.status != Closed && NoneDeaf(r, NoOne)
    ensures ShutdownSpec(roots).1 == Completed ==>
              Removals(ShutdownSpec(roots).0) == Reverse(LiveBelow(roots)) && ShutdownLeaves(roots) == ([], [])
    decreases |roots|
  {
    if roots != [] {
      var (init, last) := (roots[..|roots| - 1], roots[|roots| - 1]);
      assert roots == init + [last];
      NextRoot(roots);
      StopCompletesIff(last, NoOne);
      ShutdownCompletesIff(init);
      hide ShutdownSpec, ShutdownLeaves, StopSpec, NoneDeaf;
      if ShutdownSpec(roots).1 == Completed {
        StopOrder(last, NoOne);
        RemovalsConcat(StopSpec(last, NoOne).0, ShutdownSpec(init).0);
        ReverseConcat(LiveBelow(init), LivePaths(last));
      }
    }
  }

  /** A completed shutdown leaves registered what failed starts left behind. */
  lemma ShutdownLeavesOrphans(ops: seq<Op>)
    ensures var w := Run(ops);
            ShutdownSpec(w.roots).1 == Completed ==> multiset(Step(w, Cancel).actors) == RunningBelow(w.orphans)
  {
    var w := Run(ops);
    RunKeepsRegistered(ops);
    hide Run;
    if ShutdownSpec(w.roots).1 == Completed {
      StepKeepsRegistered(w, Cancel);
      ShutdownCompletesIff(w.roots);
      NoneRunning();
      assert w.orphans + [] == w.orphans;
    }
  }

  /** The first closed root, from the newest down, ends the task: the newer
      roots are stopped and the older ones get no request. */
  lemma {:induction false} ClosedRootEndsShutdown(older: seq<Node>, closed: Node, newer: seq<Node>)
    requires closed.status == Closed
    requires forall r | r in newer :: r.status != Closed && NoneDeaf(r, NoOne)
    ensures ShutdownSpec(older + [closed] + newer).1 == ChannelClosed
    ensures Removals(ShutdownSpec(older + [closed] + newer).0) == Reverse(LiveBelow(newer))
    decreases |newer|
  {
    var roots := older + [closed] + newer;
    if newer == [] {
      assert roots == older + [closed];
      assert roots[|roots| - 1] == closed;
    } else {
      var (init, last) := (newer[..|newer| - 1], newer[|newer| - 1]);
      assert roots[..|roots| - 1] == older + [closed] + init && roots[|roots| - 1] == last;
      StopCompletesIff(last, NoOne);
      StopOrder(last, NoOne);
      ClosedRootEndsShutdown(older, closed, init);
      RemovalsConcat(StopSpec(last, NoOne).0, ShutdownSpec(older + [closed] + init).0);
      ReverseConcat(LiveBelow(init), LivePaths(last));
    }
  }

  // A root is changed where it stands.
  lemma {:induction false} PutRoot(nodes: seq<Node>, i: nat, m: Node)
    requires i < |nodes| && nodes[i].status != Closed && RunningBelow(nodes)[nodes[i].path] <= 1
    ensures m in Put(nodes, nodes[i].path, m) && Find(nodes, nodes[i].path, NoOne) == Some(Found(nodes[i], NoOne))
    decreases |nodes|
  {
    var (init, last) := (nodes[..|nodes| - 1], nodes[|nodes| - 1]);
    if i < |init| {
      RunningPart(init, i);
      FindInRunning(last, nodes[i].path, NoOne);
      assert nodes[i].path in Running(nodes[i]);
      PutRoot(init, i, m);
    }
  }

  /** Once a root has been stopped by anyone, no shutdown completes: its closed
      channel ends the task. */
  lemma StoppedRootEndsShutdown(ops: seq<Op>, i: nat)
    requires i < |Run(ops).roots|
    ensures var w := Run(ops);
            var root := w.roots[i];
            root.status != Closed && NoneDeaf(root, NoOne) ==>
              ShutdownSpec(Step(w, StopActor(root.path)).roots).1 != Completed
  {
    RunKeepsRegistered(ops);
    var w := Run(ops);
    hide Run;
    var root := w.roots[i];
    if root.status != Closed && NoneDeaf(root, NoOne) {
      assert RunningBelow(w.roots)[root.path] <= multiset(w.actors)[root.path] <= 1;
      PutRoot(w.roots, i, After(root, NoOne));
      StopCompletesIff(root, NoOne);
      AnsweredIsClosed(root, NoOne);
      hide RunningBelow, After, Put, Find;
      ShutdownCompletesIff(Step(w, StopActor(root.path)).roots);
    }
  }

  // ---------------------------------------------- faults and verdicts

  // An actor that is changed is found as it was changed, and can be changed back.
  lemma ChangedBack(w: Population, at: ActorPath, m: Node)
    requires Locate(w, at).Some? && m.path == at && m.status != Closed
    ensures Locate(Changed(w, at, m), at) == Some(Found(m, Locate(w, at).value.supervisor))
    ensures Changed(Changed(w, at, m), at, Locate(w, at).value.node) == w
  {
    var nodes := if Find(w.roots, at, NoOne).Some? then w.roots else w.orphans;
    FindPut(nodes, at, NoOne, m);
    PutBack(nodes, at, NoOne, m);
    hide Find, Put;
  }

  /** A running actor with a supervisor at work can report a fault. It then waits,
      where it stands, and the verdict makes everything as it was. */
  lemma VerdictUndoesFault(w: Population, at: ActorPath)
    requires Locate(w, at).Some? && Locate(w, at).value.node.status == Live
    requires Locate(w, at).value.supervisor == Serving
    ensures var v := Step(w, ReportFault(at));
            && Locate(v, at) == Some(Found(Locate(w, at).value.node.(status := Faulted), Serving))
            && Step(v, HearVerdict(at)) == w
  {
    hide Locate, Changed, CreateSpec, ChildCreated, Stopped, ShutdownLeaves, ShutdownGone;
    var node := Locate(w, at).value.node;
    assert node.path == at by { LocatedPath(w, at); }
    ChangedBack(w, at, node.(status := Faulted));
    assert node.(status := Faulted).(status := Live) == node;
  }

  lemma LocatedPath(w: Population, at: ActorPath)
    requires Locate(w, at).Some?
    ensures Locate(w, at).value.node.path == at
  {}

  /** While it waits, a stop of any actor above it is not answered. */
  lemma WaitingBlocksStops(above: Node, at: ActorPath, supervisor: Supervisor)
    requires above.status != Closed && Find(above.children, at, SupervisedBy(above)).Some?
    requires Find(above.children, at, SupervisedBy(above)).value.node.status == Faulted
    ensures !StopSpec(above, supervisor).1
  {
    FaultBlocks(above.children, at, SupervisedBy(above));
    StopCompletesIff(above, supervisor);
  }

  // ---------------------------------------------------- who stays behind

  /** The creations of the run give names of one token. */
  predicate Named(ops: seq<Op>) {
    forall i | 0 <= i < |ops| && (ops[i].CreateRoot? || ops[i].CreateChild?) :: OneToken(ops[i].start)
  }

  lemma StepKeepsTidy(w: Population, op: Op)
    requires Tidy(User().tokens, w.roots) && (op.CreateRoot? || op.CreateChild? ==> OneToken(op.start))
    ensures Tidy(User().tokens, Step(w, op).roots)
  {
    hide From, Div, CreateSpec, After, LetEndAll, OneToken;
    var base := User().tokens;
    match op
    case CreateRoot(start) =>
      UserClean();
      CreateTidy(w.actors, User(), start);
    case CreateChild(parent, start) =>
      var found := Find(w.roots, parent, NoOne);
      if found.Some? {
        FindBelow(base, w.roots, parent, NoOne);
        CreateTidy(w.actors, parent, start);
        var nodes := CreateSpec(w.actors, Div(parent, start.name), start).nodes;
        var node := found.value.node;
        assert Tidy(parent.tokens, node.children + nodes);
        PutTidy(base, w.roots, parent, NoOne, node.(children := node.children + nodes));
      }
    case StopActor(at) =>
      var found := Find(w.roots, at, NoOne);
      if found.Some? {
        FindBelow(base, w.roots, at, NoOne);
        AfterPath(found.value.node, found.value.supervisor);
        AfterTidy(at.tokens[..|at.tokens| - 1], found.value.node, found.value.supervisor);
        PutTidy(base, w.roots, at, NoOne, After(found.value.node, found.value.supervisor));
      }
    case ReportFault(at) =>
      var found := Find(w.roots, at, NoOne);
      if found.Some? { PutTidy(base, w.roots, at, NoOne, found.value.node.(status := Faulted)); }
    case HearVerdict(at) =>
      var found := Find(w.roots, at, NoOne);
      if found.Some? { PutTidy(base, w.roots, at, NoOne, found.value.node.(status := Live)); }
    case Cancel => ShutdownTidy(base, w.roots);
  }

  lemma UserClean()
    ensures Clean(User().tokens)
  {
    BuiltClean(ActorPath([]), "/user");
  }

  lemma AfterPath(n: Node, supervisor: Supervisor)
    ensures After(n, supervisor).path == n.path
  {}

  lemma {:induction false} ShutdownTidy(base: seq<string>, roots: seq<Node>)
    requires Tidy(base, roots)
    ensures Tidy(base, ShutdownLeaves(roots).0)
    decreases |roots|
  {
    if roots != [] {
      LetEndAllTidy(base, roots[..|roots| - 1]);
      ShutdownTidy(base, roots[..|roots| - 1]);
    }
  }

  lemma {:induction false} RunKeepsTidy(ops: seq<Op>)
    requires Named(ops)
    ensures Tidy(User().tokens, Run(ops).roots)
    decreases |ops|
  {
    if ops != [] {
      RunKeepsTidy(ops[..|ops| - 1]);
      StepKeepsTidy(Run(ops[..|ops| - 1]), ops[|ops| - 1]);
    }
  }

  /** With names of one token, over every run: once a stop request to an actor of
      the tree has been answered, its own path is gone, and the paths below it
      that are still registered are exactly those left behind by failed starts. */
  lemma StopLeavesOrphans(ops: seq<Op>, at: ActorPath, p: ActorPath)
    requires Named(ops) && Find(Run(ops).roots, at, NoOne).Some?
    requires var found := Find(Run(ops).roots, at, NoOne).value; NoneDeaf(found.node, found.supervisor)
    ensures var after := Step(Run(ops), StopActor(at)).actors;
            && at !in after
            && (IsAncestorOf(at, p) ==> (p in after <==> p in RunningBelow(Run(ops).orphans)))
  {
    var w := Run(ops);
    var found := Find(w.roots, at, NoOne).value;
    RunKeepsRegistered(ops);
    RunKeepsTidy(ops);
    hide Run, From;
    SubtreeLeavesRegistry(found.node, found.supervisor);
    FindRunning(w.roots, at, NoOne);
    assert Step(w, StopActor(at)).actors == Less(w.actors, Running(found.node));
    assert at in Running(found.node);
    if IsAncestorOf(at, p) {
      assert multiset(w.actors)[p] == RunningBelow(w.roots)[p] + RunningBelow(w.orphans)[p];
      if p in RunningBelow(w.roots) {
        BelowTarget(w, at, p);
      } else {
        assert p !in Running(found.node);
      }
    }
  }

  lemma BelowTarget(w: Population, at: ActorPath, p: ActorPath)
    requires Registered(w) && Tidy(User().tokens, w.roots) && Find(w.roots, at, NoOne).Some?
    requires p in RunningBelow(w.roots) && IsAncestorOf(at, p)
    ensures p in Running(Find(w.roots, at, NoOne).value.node)
  {
    hide From, IsAncestorOf;
    FindBelow(User().tokens, w.roots, at, NoOne);
    var _ := RunningIsBelow(User().tokens, w.roots, p);
    AncestorIsPrefix(at, p);
    forall q ensures RunningBelow(w.roots)[q] <= 1 {
      assert RunningBelow(w.roots)[q] <= multiset(w.actors)[q] <= 1;
    }
    BelowIsInside(User().tokens, w.roots, at, NoOne, p);
  }

  /** Every start of the run is orderly, and no shutdown has been begun. */
  predicate OrderlyRun(ops: seq<Op>) {
    forall i | 0 <= i < |ops| ::
      !ops[i].Cancel? && (ops[i].CreateRoot? || ops[i].CreateChild? ==> Orderly(ops[i].start))
  }

  /** As long as no start that fails has created a child, nothing is left behind. */
  lemma {:induction false} OrderlyRunLeavesNone(ops: seq<Op>)
    requires OrderlyRun(ops)
    ensures Run(ops).orphans == []
    decreases |ops|
  {
    if ops != [] {
      var (w, op) := (Run(ops[..|ops| - 1]), ops[|ops| - 1]);
      OrderlyRunLeavesNone(ops[..|ops| - 1]);
      if op.CreateRoot? { OrderlyLeavesNone(w.actors, Div(User(), op.start.name), op.start); }
      if op.CreateChild? { OrderlyLeavesNone(w.actors, Div(op.parent, op.start.name), op.start); }
      hide CreateSpec, After, Div, Put, Orderly;
    }
  }

  // -------------------------------------------------------- the inputs

  lemma RunSnoc(ops: seq<Op>, op: Op)
    ensures Run(ops + [op]) == Step(Run(ops), op)
  {
    assert (ops + [op])[..|ops|] == ops;
  }

  lemma RunTwo(ops: seq<Op>)
    requires |ops| == 2
    ensures Run(ops) == Step(Step(Population({}, [], []), ops[0]), ops[1])
  {
    hide Step;
    RunSnoc([], ops[0]);
    RunSnoc([ops[0]], ops[1]);
    assert [] + [ops[0]] == [ops[0]] && [ops[0]] + [ops[1]] == ops;
  }

  // A root or child without children of its own.
  function Leaf(name: string): Start {
    Start(name, [], true)
  }

  lemma LeafCreated(actors: set<ActorPath>, path: ActorPath, name: string)
    requires path !in actors
    ensures CreateSpec(actors, path, Leaf(name)) == Created(actors + {path}, [Node(path, Live, [])], [])
  {}

  /** A child whose start hook creates an actor and then fails. */
  function Failing(child: string, grandchild: string): Start {
    Start(child, [Leaf(grandchild)], false)
  }

  lemma FailingCreated(actors: set<ActorPath>, path: ActorPath, child: string, grandchild: string)
    requires path !in actors && Div(path, grandchild) !in actors && Div(path, grandchild) != path
    ensures CreateSpec(actors, path, Failing(child, grandchild)) ==
              Created(actors + {Div(path, grandchild)}, [], [Node(Div(path, grandchild), Live, [])])
  {
    var start := Failing(child, grandchild);
    assert start.hook[..0] == [];
    LeafCreated(actors + {path}, Div(path, grandchild), grandchild);
    assert HookSpec(actors + {path}, path, start.hook) ==
             Created(actors + {path} + {Div(path, grandchild)}, [] + [Node(Div(path, grandchild), Live, [])], [] + []);
    assert actors + {path} + {Div(path, grandchild)} - {path} == actors + {Div(path, grandchild)};
  }

  lemma OneRoot(path: ActorPath)
    ensures var node := Node(path, Live, []);
            && Find([node], path, NoOne) == Some(Found(node, NoOne))
            && forall m :: Put([node], path, m) == [m]
  {
    var node := Node(path, Live, []);
    assert FindIn(node, path, NoOne) == Some(Found(node, NoOne));
  }

  /** All names have one token: a root creates a child whose start hook creates an
      actor and then fails. That actor stays registered below the root when the
      root has stopped, and after a completed shutdown. */
  lemma OrphanSurvives(root: string, child: string, grandchild: string)
    requires Level(From(root)) == 1 && Level(From(child)) == 1 && Level(From(grandchild)) == 1
    ensures var r := Div(User(), root);
            var g := Div(Div(r, child), grandchild);
            var ops := [CreateRoot(Leaf(root)), CreateChild(r, Failing(child, grandchild))];
            && Named(ops) && IsAncestorOf(r, g)
            && Run(ops + [StopActor(r)]).actors == {g}
            && ShutdownSpec(Run(ops).roots).1 == Completed && Run(ops + [Cancel]).actors == {g}
  {
    var r := Div(User(), root);
    var c := Div(r, child);
    var g := Div(c, grandchild);
    var ops := [CreateRoot(Leaf(root)), CreateChild(r, Failing(child, grandchild))];
    UserClean();
    BuiltClean(User(), root);
    BuiltClean(r, child);
    BuiltClean(c, grandchild);
    DivTokens(User(), root);
    DivTokens(r, child);
    DivTokens(c, grandchild);
    AncestorIsPrefix(r, g);
    hide From, Div, IsAncestorOf, Clean, Run, Step, ShutdownSpec;
    assert |r.tokens| < |c.tokens| < |g.tokens|;
    SurvivorRun(root, child, grandchild);
    OneTokenStarts(root, child, grandchild);
    hide OneToken, Leaf, Failing;
  }

  lemma OneTokenStarts(root: string, child: string, grandchild: string)
    requires Level(From(root)) == 1 && Level(From(child)) == 1 && Level(From(grandchild)) == 1
    ensures OneToken(Leaf(root)) && OneToken(Failing(child, grandchild))
  {
    hide From;
    assert OneToken(Leaf(grandchild));
  }

  lemma SurvivorRun(root: string, child: string, grandchild: string)
    requires var r := Div(User(), root);
             var c := Div(r, child);
             r != c && c != Div(c, grandchild) && r != Div(c, grandchild)
    ensures var r := Div(User(), root);
            var g := Div(Div(r, child), grandchild);
            var ops := [CreateRoot(Leaf(root)), CreateChild(r, Failing(child, grandchild))];
            && Run(ops + [StopActor(r)]).actors == {g}
            && ShutdownSpec(Run(ops).roots).1 == Completed && Run(ops + [Cancel]).actors == {g}
  {
    hide From, Div, CreateSpec, Run, Step, Find, Put, StopSpec, Gone, ShutdownSpec, ShutdownGone;
    var r := Div(User(), root);
    var g := Div(Div(r, child), grandchild);
    var node := Node(r, Live, []);
    var ops := [CreateRoot(Leaf(root)), CreateChild(r, Failing(child, grandchild))];
    RunTwo(ops);
    RunSnoc(ops, StopActor(r));
    RunSnoc(ops, Cancel);
    LeafRoot(Population({}, [], []), root);
    assert [] + [node] == [node] && {} + {r} == {r};
    FailingChild(Population({r}, [node], []), r, child, grandchild);
    OneRoot(r);
    StopLeaf(r);
    StopOnly(Population({r, g}, [node], [Node(g, Live, [])]), r);
  }

  // A creation on a system of known roots.
  lemma LeafRoot(w: Population, name: string)
    requires Div(User(), name) !in w.actors
    ensures var path := Div(User(), name);
            Step(w, CreateRoot(Leaf(name))) ==
              Population(w.actors + {path}, w.roots + [Node(path, Live, [])], w.orphans)
  {
    hide From, Div, CreateSpec;
    LeafCreated(w.actors, Div(User(), name), name);
    assert w.orphans + [] == w.orphans;
  }

  lemma FailingChild(w: Population, r: ActorPath, child: string, grandchild: string)
    requires w == Population({r}, [Node(r, Live, [])], [])
    requires var c := Div(r, child); r != c && c != Div(c, grandchild) && r != Div(c, grandchild)
    ensures var g := Div(Div(r, child), grandchild);
            Step(w, CreateChild(r, Failing(child, grandchild))) ==
              Population({r, g}, [Node(r, Live, [])], [Node(g, Live, [])])
  {
    hide From, Div, CreateSpec;
    var g := Div(Div(r, child), grandchild);
    FailingCreated({r}, Div(r, child), child, grandchild);
    OneRoot(r);
    assert {r} + {g} == {r, g};
  }

  // A stop, or the shutdown, of the first root, which has no children.
  lemma StopOnly(w: Population, r: ActorPath)
    requires Find(w.roots, r, NoOne) == Some(Found(Node(r, Live, []), NoOne))
    ensures Step(w, StopActor(r)).actors == w.actors - {r}
    ensures w.roots == [Node(r, Live, [])] ==> Step(w, Cancel).actors == w.actors - {r}
  {
    StopLeaf(r);
    hide StopSpec, Gone, After, Put, ShutdownGone, ShutdownLeaves;
  }

  lemma StopLeaf(path: ActorPath)
    ensures var node := Node(path, Live, []);
            && StopSpec(node, NoOne).1 && Gone(node, NoOne) == multiset{path}
            && ShutdownSpec([node]).1 == Completed && ShutdownGone([node]) == multiset{path}
  {
    var node := Node(path, Live, []);
    assert NoneDeaf(node, NoOne);
    StopCompletesIff(node, NoOne);
    SubtreeLeavesRegistry(node, NoOne);
    NextRoot([node]);
    NoRoots();
    assert [node][..0] == [];
  }

  // Two roots, and a stop of the first.
  lemma SecondRootStays(x: string, y: string)
    requires Div(User(), x) != Div(User(), y)
    ensures Run([CreateRoot(Leaf(x)), CreateRoot(Leaf(y)), StopActor(Div(User(), x))]).actors == {Div(User(), y)}
  {
    hide From, Div, CreateSpec;
    var (a, b) := (Div(User(), x), Div(User(), y));
    var ops := [CreateRoot(Leaf(x)), CreateRoot(Leaf(y)), StopActor(a)];
    var (first, second) := (Node(a, Live, []), Node(b, Live, []));
    RunTwo(ops[..2]);
    RunSnoc(ops[..2], ops[2]);
    assert ops[..2] + [ops[2]] == ops;
    hide Run, Step;
    LeafRoot(Population({}, [], []), x);
    assert [] + [first] == [first] && {} + {a} == {a};
    LeafRoot(Population({a}, [first], []), y);
    assert [first] + [second] == [first, second] && {a} + {b} == {a, b};
    OneRoot(a);
    FirstRoot(first, second);
    StopOnly(Population({a, b}, [first, second], []), a);
  }

  lemma FirstRoot(first: Node, second: Node)
    requires first.status == second.status == Live && first.path != second.path && second.children == []
    ensures Find([first, second], first.path, NoOne) == Some(Found(first, NoOne))
  {
    var nodes := [first, second];
    assert nodes[..1] == [first];
    assert FindIn(second, first.path, NoOne) == None;
    assert FindIn(first, first.path, NoOne) == Some(Found(first, NoOne));
    assert Find([first], first.path, NoOne) == Some(Found(first, NoOne));
  }

  /** With slashes in a name more can stay: the root "a/b" is below the root "a"
      by path and not by tree. */
  lemma SlashNameStays(a: string, b: string)
    requires Level(From(a)) > 0 && Level(From(b)) > 0
    ensures var (x, y) := (Div(User(), a), Div(User(), a + "/" + b));
            && IsAncestorOf(x, y)
            && Run([CreateRoot(Leaf(a)), CreateRoot(Leaf(a + "/" + b)), StopActor(x)]).actors == {y}
  {
    UserClean();
    var (x, y) := (Div(User(), a), Div(User(), a + "/" + b));
    BuiltClean(User(), a);
    BuiltClean(User(), a + "/" + b);
    SlashTokens(User(), a, b);
    hide From, Div;
    assert StrictPrefix(x.tokens, y.tokens);
    AncestorIsPrefix(x, y);
    SecondRootStays(a, a + "/" + b);
  }

  lemma SlashTokens(p: ActorPath, a: string, b: string)
    ensures Div(p, a + "/" + b).tokens == Div(p, a).tokens + From(b).tokens
    ensures Div(p, a).tokens == p.tokens + From(a).tokens
  {
    hide Split, NonBlank;
    var s := a + "/" + b;
    SplitAtSlash(a, b);
    assert Split(s) == Split(a) + Split(b);
    NonBlankConcat(Split(a), Split(b));
    assert NonBlank(Split(s)) == NonBlank(Split(a)) + NonBlank(Split(b));
    assert Div(p, s).tokens == p.tokens + NonBlank(Split(s));
  }

  /** And so it is with a blank name: that root sits at "/user", above all roots. */
  lemma BlankNameIsAbove(blank: string, a: string)
    requires Level(From(blank)) == 0 && Level(From(a)) > 0
    ensures IsAncestorOf(User(), Div(User(), a))
    ensures Run([CreateRoot(Leaf(blank)), CreateRoot(Leaf(a)), StopActor(User())]).actors == {Div(User(), a)}
  {
    UserClean();
    UserNotEmpty();
    BuiltClean(User(), a);
    DivTokens(User(), blank);
    DivTokens(User(), a);
    hide From;
    assert Div(User(), blank) == User();
    AncestorIsPrefix(User(), Div(User(), a));
    SecondRootStays(blank, a);
  }

  lemma UserNotEmpty()
    ensures User().tokens != []
  {
    UserPieces();
    UserToken();
    NonBlankConcat([""], ["user"]);
    hide Split, Blank;
    FirstStays(["user"]);
    var pieces := Split("/user");
    assert NonBlank(pieces) == NonBlank([""]) + NonBlank(["user"]);
    assert User() == ActorPath(NonBlank(pieces));
  }

  lemma UserPieces()
    ensures Split("/user") == [""] + ["user"]
  {
    SplitAtSlash("", "user");
    SplitToken("user");
    assert "" + "/" + "user" == "/user";
  }

  lemma UserToken()
    ensures !Blank("user")
  {
    assert 'u' as int == 0x75;
    assert !IsWhitespace('u');
    assert "user"[0] == 'u';
  }

  lemma FirstStays(pieces: seq<string>)
    requires pieces != [] && !Blank(pieces[0])
    ensures NonBlank(pieces) != []
  {}
}
