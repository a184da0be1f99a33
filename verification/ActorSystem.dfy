/** The actor system: its registry and its roots, what creations, stops and
    shutdown do to them, and the object that does it. */
module ActorSystem {
  import opened Wrappers
  import opened ActorPath
  import opened ActorTree
  import opened Shutdown

  /** The registry; the trees whose stop channels are held, in order of creation
      of the roots; and the running actors that no stop sender is left for. The
      last is bookkeeping that the program does not have. */
  datatype Population = Population(actors: set<ActorPath>, roots: seq<Node>, orphans: seq<Node>)

  /** The registry holds exactly the running actors, each of them once. */
  ghost predicate Registered(w: Population) {
    multiset(w.actors) == RunningBelow(w.roots) + RunningBelow(w.orphans)
  }

  function User(): ActorPath {
    From("/user")
  }

  // ------------------------------------------------------- specification

  /** Where a running actor is, in the tree or left behind. */
  function Locate(w: Population, at: ActorPath): (r: Option<Found>)
    ensures r.Some? ==> r.value.node.path == at && r.value.node.status != Closed
  {
    var r := Find(w.roots, at, NoOne);
    if r.Some? then r else Find(w.orphans, at, NoOne)
  }

  function Changed(w: Population, at: ActorPath, m: Node): Population {
    if Find(w.roots, at, NoOne).Some? then w.(roots := Put(w.roots, at, m))
    else w.(orphans := Put(w.orphans, at, m))
  }

  function Less(actors: set<ActorPath>, gone: multiset<ActorPath>): set<ActorPath> {
    set p | p in actors && p !in gone
  }

  datatype Op =
    | CreateRoot(start: Start)
    | CreateChild(parent: ActorPath, start: Start)
    | StopActor(at: ActorPath)
    | ReportFault(at: ActorPath)
    | HearVerdict(at: ActorPath)
    | Cancel

  datatype Outcome = Completed | ChannelClosed | Waiting

  /** The shutdown task over the roots: the newest first, each one waited for. */
  ghost function ShutdownSpec(roots: seq<Node>): (seq<Event>, Outcome) {
    if roots == [] then ([], Completed)
    else
      var root := roots[|roots| - 1];
      if root.status == Closed then ([], ChannelClosed)
      else
        var (events, done) := StopSpec(root, NoOne);
        if !done then (events, Waiting)
        else
          var (more, outcome) := ShutdownSpec(roots[..|roots| - 1]);
          (events + more, outcome)
  }

  /** The roots still held when the task ends, and the one it waits for. */
  ghost function ShutdownLeaves(roots: seq<Node>): (seq<Node>, seq<Node>) {
    if roots == [] then ([], [])
    else
      var (root, older) := (roots[|roots| - 1], roots[..|roots| - 1]);
      if root.status == Closed then (LetEndAll(older), [])
      else if !StopSpec(root, NoOne).1 then (LetEndAll(older), [After(root, NoOne)])
      else ShutdownLeaves(older)
  }

  ghost function ShutdownGone(roots: seq<Node>): multiset<ActorPath> {
    multiset(Removals(ShutdownSpec(roots).0)) + EndedBelow(roots)
  }

  /** One step of a run. An operation on an actor that is not there, or not able
      to take part in it, changes nothing. */
  ghost function Step(w: Population, op: Op): Population {
    match op
    case CreateRoot(start) =>
      var c := CreateSpec(w.actors, Div(User(), start.name), start);
      Population(c.actors, w.roots + c.nodes, w.orphans + c.orphans)
    case CreateChild(parent, start) =>
      var found := Locate(w, parent);
      if found.None? || found.value.node.status != Live then w
      else ChildCreated(w, found.value.node, start)
    case StopActor(at) =>
      var found := Locate(w, at);
      if found.None? then w else Stopped(w, found.value)
    case ReportFault(at) =>
      var found := Locate(w, at);
      if found.None? || found.value.node.status != Live || found.value.supervisor == NoOne then w
      else Changed(w, at, found.value.node.(status := Faulted))
    case HearVerdict(at) =>
      var found := Locate(w, at);
      if found.None? || found.value.node.status != Faulted || found.value.supervisor == Stopping then w
      else Changed(w, at, found.value.node.(status := Live))
    case Cancel =>
      var (left, stuck) := ShutdownLeaves(w.roots);
      Population(Less(w.actors, ShutdownGone(w.roots)), left, w.orphans + stuck)
  }

  ghost function ChildCreated(w: Population, parent: Node, start: Start): Population {
    var c := CreateSpec(w.actors, Div(parent.path, start.name), start);
    var v := Changed(w, parent.path, parent.(children := parent.children + c.nodes));
    Population(c.actors, v.roots, v.orphans + c.orphans)
  }

  ghost function Stopped(w: Population, found: Found): Population {
    Changed(w.(actors := Less(w.actors, Gone(found.node, found.supervisor))),
            found.node.path, After(found.node, found.supervisor))
  }

  /** A run, from the start of the system. */
  ghost function Run(ops: seq<Op>): Population
    decreases |ops|
  {
    if ops == [] then Population({}, [], []) else Step(Run(ops[..|ops| - 1]), ops[|ops| - 1])
  }

  // ----------------------------------------------------------- execution

  /** The system as the object its users change. */
  class System {
    var actors: set<ActorPath>
    var rootSenders: seq<Node>
    var orphans: seq<Node>
    var events: seq<Event>
    var stopSystem: nat

    constructor ()
      ensures Abs() == Run([]) && events == [] && stopSystem == 0
    {
      actors, rootSenders, orphans, events, stopSystem := {}, [], [], [], 0;
    }

    function Abs(): Population
      reads this
    {
      Population(actors, rootSenders, orphans)
    }

    /** `create_actor_path`: the path is registered, the start hook runs, and a
        start that fails takes back its own path only. */
    method CreateActorPath(path: ActorPath, start: Start) returns (nodes: seq<Node>, left: seq<Node>)
      modifies this`actors
      ensures Created(actors, nodes, left) == CreateSpec(old(actors), path, start)
      decreases start
    {
      if path in actors {
        return [], [];
      }
      actors := actors + {path};
      ghost var before := actors;
      nodes, left := [], [];
      var i := 0;
      while i < |start.hook|
        invariant 0 <= i <= |start.hook|
        invariant Created(actors, nodes, left) == HookSpec(before, path, start.hook[..i])
      {
        assert start.hook[..i + 1][..i] == start.hook[..i];
        var more, behind := CreateActorPath(Div(path, start.hook[i].name), start.hook[i]);
        nodes, left := nodes + more, left + behind;
        i := i + 1;
      }
      assert start.hook[..i] == start.hook;
      if start.succeeds {
        nodes := [Node(path, Live, nodes)];
      } else {
        actors := actors - {path};
        nodes, left := [], left + nodes;
      }
    }

    /** `create_root_actor` */
    method CreateRootActor(start: Start)
      modifies this`actors, this`rootSenders, this`orphans
      ensures Abs() == Step(old(Abs()), CreateRoot(start))
    {
      var nodes, left := CreateActorPath(Div(User(), start.name), start);
      rootSenders := rootSenders + nodes;
      orphans := orphans + left;
    }

    /** `create_child`, called by the running actor at `parent`. */
    method CreateChild(parent: ActorPath, start: Start)
      requires Locate(Abs(), parent).Some? && Locate(Abs(), parent).value.node.status == Live
      modifies this`actors, this`rootSenders, this`orphans
      ensures Abs() == Step(old(Abs()), Op.CreateChild(parent, start))
    {
      var node := Locate(Abs(), parent).value.node;
      var nodes, left := CreateActorPath(Div(parent, start.name), start);
      Change(parent, node.(children := node.children + nodes));
      orphans := orphans + left;
    }

    method Change(at: ActorPath, m: Node)
      modifies this`rootSenders, this`orphans
      ensures Abs() == Changed(old(Abs()), at, m)
    {
      if Find(rootSenders, at, NoOne).Some? {
        rootSenders := Put(rootSenders, at, m);
      } else {
        orphans := Put(orphans, at, m);
      }
    }

    /** `stop` and `ask_stop` on a reference: whether the sender hears back. */
    method StopActor(at: ActorPath) returns (done: bool)
      requires Locate(Abs(), at).Some?
      modifies this`actors, this`rootSenders, this`orphans, this`events
      ensures var found := old(Locate(Abs(), at).value);
              && done == StopSpec(found.node, found.supervisor).1
              && events == old(events) + StopSpec(found.node, found.supervisor).0
      ensures Abs() == Step(old(Abs()), Op.StopActor(at))
    {
      var found := Locate(Abs(), at).value;
      var said, heard, after := Stop(found.node, found.supervisor);
      done := heard;
      events := events + said;
      Change(at, after);
    }

    /** The stop branch of the actor's loop, and the wait of the sender. */
    method Stop(n: Node, supervisor: Supervisor) returns (said: seq<Event>, done: bool, after: Node)
      modifies this`actors
      ensures (said, done) == StopSpec(n, supervisor) && after == After(n, supervisor)
      ensures actors == Less(old(actors), Gone(n, supervisor))
      decreases n, 1
    {
      GoneCases(n, supervisor);
      hide Gone, GoneBelow, EndedBelow;
      if n.status == Closed {
        return [], true, n;
      }
      if Deaf(n, supervisor) {
        var rest := LetEndBelow(n.children);
        return [], false, n.(children := rest);
      }
      var rest;
      said, done, rest := StopChilds(n.children);
      if done {
        actors := actors - {n.path};
      }
      after := if done then Node(n.path, Closed, []) else Node(n.path, Ending, rest);
      if n.status == Ending {
        said := []; // begun on the earlier request
      } else {
        said := [PreStop(n.path)] + said + if done then [Removed(n.path), Acked(n.path)] else [];
      }
    }

    /** `stop_childs` */
    method StopChilds(children: seq<Node>) returns (said: seq<Event>, done: bool, rest: seq<Node>)
      modifies this`actors
      ensures (said, done) == StopChildsSpec(children) && rest == AfterChilds(children)
      ensures actors == Less(old(actors), GoneBelow(children))
      decreases children, 0
    {
      said := [];
      var senders := children;
      ghost var gone: multiset<ActorPath> := multiset{};
      hide StopSpec, StopChildsSpec, EndedBelow, Gone, GoneBelow, After, AfterChilds, LetEndAll;
      assert [] + StopChildsSpec(children).0 == StopChildsSpec(children).0;
      while senders != []
        invariant senders <= children
        invariant StopChildsSpec(children) == (said + StopChildsSpec(senders).0, StopChildsSpec(senders).1)
        invariant AfterChilds(children) == AfterChilds(senders)
        invariant actors == Less(old(actors), gone)
        invariant gone + GoneBelow(senders) == GoneBelow(children)
        decreases |senders|
      {
        var child := senders[|senders| - 1];
        NextChild(senders);
        var more, heard, after := Stop(child, Stopping);
        ghost var before := said;
        said := said + more;
        senders := senders[..|senders| - 1];
        gone := gone + Gone(child, Stopping);
        if !heard {
          assert senders == children[..|senders|];
          rest := LetEndBelow(senders);
          return said, false, rest + [after];
        }
        assert before + (more + StopChildsSpec(senders).0) == said + StopChildsSpec(senders).0;
      }
      NoChilds();
      assert said + [] == said;
      return said, true, [];
    }

    /** An actor that no request reaches: what is ending goes on by itself. */
    method LetEndOne(n: Node) returns (m: Node)
      modifies this`actors
      ensures m == LetEnd(n) && actors == Less(old(actors), Ended(n))
      decreases n, 2
    {
      EndOne(n);
      hide Gone, After, LetEnd, LetEndAll, Ended, EndedBelow;
      LessNothing(actors);
      m := n;
      if n.status == Ending {
        var _, _, after := Stop(n, NoOne);
        m := after;
      } else if n.status != Closed {
        var below := LetEndBelow(n.children);
        m := n.(children := below);
      }
    }

    method LetEndBelow(nodes: seq<Node>) returns (rest: seq<Node>)
      modifies this`actors
      ensures rest == LetEndAll(nodes) && actors == Less(old(actors), EndedBelow(nodes))
      decreases nodes, 0
    {
      rest := [];
      LessNothing(actors);
      hide LetEnd, Ended, Less;
      var i := 0;
      while i < |nodes|
        invariant 0 <= i <= |nodes|
        invariant rest == LetEndAll(nodes[..i])
        invariant actors == Less(old(actors), EndedBelow(nodes[..i]))
      {
        assert nodes[..i + 1][..i] == nodes[..i];
        LessTwice(old(actors), EndedBelow(nodes[..i]), Ended(nodes[i]));
        var m := LetEndOne(nodes[i]);
        rest := rest + [m];
        i := i + 1;
      }
      assert nodes[..i] == nodes;
    }

    /** The task spawned by `SystemRef::new`, after cancellation. */
    method RunShutdown() returns (outcome: Outcome)
      modifies this
      ensures events == old(events) + ShutdownSpec(old(rootSenders)).0
      ensures outcome == ShutdownSpec(old(rootSenders)).1
      ensures stopSystem == old(stopSystem) + if outcome == Completed then 1 else 0
      ensures Abs() == Step(old(Abs()), Cancel)
    {
      ghost var said: seq<Event> := [];
      ghost var gone: multiset<ActorPath> := multiset{};
      ghost var roots := rootSenders;
      NoRoots();
      CancelStep(Abs());
      hide StopSpec, EndedBelow, Gone, ShutdownSpec, ShutdownLeaves, ShutdownGone, After, LetEndAll, Less, Step;
      LessNothing(actors);
      assert said + ShutdownSpec(roots).0 == ShutdownSpec(roots).0;
      while rootSenders != []
        invariant events == old(events) + said
        invariant stopSystem == old(stopSystem) && orphans == old(orphans)
        invariant actors == Less(old(actors), gone)
        invariant gone + ShutdownGone(rootSenders) == ShutdownGone(roots)
        invariant ShutdownSpec(roots) == (said + ShutdownSpec(rootSenders).0, ShutdownSpec(rootSenders).1)
        invariant ShutdownLeaves(roots) == ShutdownLeaves(rootSenders)
        decreases |rootSenders|
      {
        NextRoot(rootSenders);
        var root := rootSenders[|rootSenders| - 1];
        rootSenders := rootSenders[..|rootSenders| - 1];
        LessTwice(old(actors), gone, EndedBelow(rootSenders));
        LessTwice(old(actors), gone, Gone(root, NoOne));
        if root.status == Closed {
          rootSenders := LetEndBelow(rootSenders);
          assert said + [] == said && orphans + [] == orphans;
          return ChannelClosed;
        }
        var more, done, after := Stop(root, NoOne);
        assert said + (more + ShutdownSpec(rootSenders).0) == (said + more) + ShutdownSpec(rootSenders).0;
        events := events + more;
        said := said + more;
        Regroup(gone, Gone(root, NoOne), EndedBelow(rootSenders));
        Regroup(gone, Gone(root, NoOne), ShutdownGone(rootSenders));
        gone := gone + Gone(root, NoOne);
        if !done {
          LessTwice(old(actors), gone, EndedBelow(rootSenders));
          rootSenders := LetEndBelow(rootSenders);
          orphans := orphans + [after];
          return Waiting;
        }
      }
      assert said + [] == said && orphans + [] == orphans && gone + multiset{} == gone;
      stopSystem := stopSystem + 1;
      return Completed;
    }
  }

  // What becomes of an actor that no request reaches.
  lemma EndOne(n: Node)
    ensures LetEnd(n) == if n.status == Closed then n
                         else if n.status == Ending then After(n, NoOne)
                         else n.(children := LetEndAll(n.children))
    ensures Ended(n) == if n.status == Closed then multiset{}
                        else if n.status == Ending then Gone(n, NoOne)
                        else EndedBelow(n.children)
  {
    if n.status == Ending {
      assert StopSpec(n, NoOne).0 == [];
      assert multiset(Removals(StopSpec(n, NoOne).0)) == multiset{};
      assert Gone(n, NoOne) == multiset{} + Ended(n);
      assert multiset{} + Ended(n) == Ended(n);
    } else if n.status == Closed {
      assert Ended(n) == multiset{};
    } else {
      assert Ended(n) == EndedBelow(n.children);
    }
  }

  lemma CancelStep(w: Population)
    ensures Step(w, Cancel) ==
              Population(Less(w.actors, ShutdownGone(w.roots)),
                         ShutdownLeaves(w.roots).0, w.orphans + ShutdownLeaves(w.roots).1)
  {}

  lemma NoRoots()
    ensures ShutdownSpec([]) == ([], Completed) && ShutdownLeaves([]) == ([], []) && ShutdownGone([]) == multiset{}
  {}

  // One turn of the shutdown loop.
  lemma NextRoot(roots: seq<Node>)
    requires roots != []
    ensures var (root, older) := (roots[|roots| - 1], roots[..|roots| - 1]);
            if root.status == Closed
            then && ShutdownSpec(roots) == ([], ChannelClosed)
                 && ShutdownLeaves(roots) == (LetEndAll(older), [])
                 && ShutdownGone(roots) == EndedBelow(older)
            else if !StopSpec(root, NoOne).1
            then && ShutdownSpec(roots) == (StopSpec(root, NoOne).0, Waiting)
                 && ShutdownLeaves(roots) == (LetEndAll(older), [After(root, NoOne)])
                 && ShutdownGone(roots) == Gone(root, NoOne) + EndedBelow(older)
            else && ShutdownSpec(roots) == (StopSpec(root, NoOne).0 + ShutdownSpec(older).0, ShutdownSpec(older).1)
                 && ShutdownLeaves(roots) == ShutdownLeaves(older)
                 && ShutdownGone(roots) == Gone(root, NoOne) + ShutdownGone(older)
  {
    var (root, older) := (roots[|roots| - 1], roots[..|roots| - 1]);
    RemovalsConcat(StopSpec(root, NoOne).0, ShutdownSpec(older).0);
    assert EndedBelow(roots) == EndedBelow(older) + Ended(root);
    if root.status == Closed { ClosedEnds(root); }
    hide StopSpec, Ended, EndedBelow, LetEndAll, After, Removals;
    if root.status != Closed {
      var (a, b) := (multiset(Removals(StopSpec(root, NoOne).0)), multiset(Removals(ShutdownSpec(older).0)));
      Shuffle(a, b, EndedBelow(older), Ended(root));
    }
  }

  lemma Shuffle(a: multiset<ActorPath>, b: multiset<ActorPath>, c: multiset<ActorPath>, d: multiset<ActorPath>)
    ensures a + b + (c + d) == (a + d) + (b + c) && a + (c + d) == (a + d) + c
  {}

  lemma ClosedEnds(n: Node)
    requires n.status == Closed
    ensures Ended(n) == multiset{} && Removals([]) == []
  {}

  lemma LessNothing(actors: set<ActorPath>)
    ensures Less(actors, multiset{}) == actors
  {}

  lemma LessTwice(actors: set<ActorPath>, a: multiset<ActorPath>, b: multiset<ActorPath>)
    ensures Less(Less(actors, a), b) == Less(actors, a + b)
  {}
}
