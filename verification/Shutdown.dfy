/** What a stop request does to an actor and the tree below it: the events it
    causes, the tree it leaves, and what the registry loses on the way. */
module Shutdown {
  import opened Wrappers
  import opened ActorPath
  import opened ActorTree

  datatype Event = PreStop(path: ActorPath) | Removed(path: ActorPath) | Acked(path: ActorPath)

  // ------------------------------------------------------- specification

  /** The actor waits for a verdict that its supervisor, itself in its stop
      branch, never gives (FaultDeadlock.DeadlockIff). A supervisor at work does
      give it, and then the actor takes its requests (ServedChildEnds). */
  predicate Deaf(n: Node, supervisor: Supervisor) {
    n.status == Faulted && supervisor == Stopping
  }

  /** The events a stop request causes, and whether its sender hears back. An
      actor that is ending causes none, but its sender has to wait for its
      children too: only then is the request dropped. */
  ghost function StopSpec(n: Node, supervisor: Supervisor): (seq<Event>, bool)
    decreases n, 1
  {
    if n.status == Closed then ([], true)
    else if Deaf(n, supervisor) then ([], false)
    else
      var (events, done) := StopChildsSpec(n.children);
      if n.status == Ending then ([], done)
      else ([PreStop(n.path)] + events + if done then [Removed(n.path), Acked(n.path)] else [], done)
  }

  /** The youngest child first, each one waited for; a closed one is skipped. */
  ghost function StopChildsSpec(children: seq<Node>): (seq<Event>, bool)
    decreases children, 0
  {
    if children == [] then ([], true)
    else
      var (events, done) := StopSpec(children[|children| - 1], Stopping);
      if !done then (events, false)
      else
        var (more, all) := StopChildsSpec(children[..|children| - 1]);
        (events + more, all)
  }

  function Removals(events: seq<Event>): seq<ActorPath> {
    if events == [] then []
    else (if events[0].Removed? then [events[0].path] else []) + Removals(events[1..])
  }

  function PreStops(events: seq<Event>): seq<ActorPath> {
    if events == [] then []
    else (if events[0].PreStop? then [events[0].path] else []) + PreStops(events[1..])
  }

  /** The paths that the ending actors of a tree take out of the registry by
      themselves, whether or not a new request reaches them. */
  ghost function Ended(n: Node): multiset<ActorPath>
    decreases n, 1
  {
    match n.status
    case Closed => multiset{}
    case Ending =>
      var (events, done) := StopChildsSpec(n.children);
      multiset(Removals(events)) + EndedBelow(n.children) + if done then multiset{n.path} else multiset{}
    case _ => EndedBelow(n.children)
  }

  ghost function EndedBelow(nodes: seq<Node>): multiset<ActorPath>
    decreases nodes, 0
  {
    if nodes == [] then multiset{}
    else EndedBelow(nodes[..|nodes| - 1]) + Ended(nodes[|nodes| - 1])
  }

  /** What the registry has lost once a request has done all it can. */
  ghost function Gone(n: Node, supervisor: Supervisor): multiset<ActorPath> {
    multiset(Removals(StopSpec(n, supervisor).0)) + Ended(n)
  }

  ghost function GoneBelow(children: seq<Node>): multiset<ActorPath> {
    multiset(Removals(StopChildsSpec(children).0)) + EndedBelow(children)
  }

  /** The tree that is left then. An actor that could not finish is ending, and
      waits for the child that does not answer. */
  ghost function After(n: Node, supervisor: Supervisor): Node
    decreases n, 1
  {
    if n.status == Closed then n
    else if Deaf(n, supervisor) then n.(children := LetEndAll(n.children))
    else if StopChildsSpec(n.children).1 then Node(n.path, Closed, [])
    else Node(n.path, Ending, AfterChilds(n.children))
  }

  ghost function AfterChilds(children: seq<Node>): seq<Node>
    decreases children, 0
  {
    if children == [] then []
    else
      var (init, last) := (children[..|children| - 1], children[|children| - 1]);
      if StopSpec(last, Stopping).1 then AfterChilds(init)
      else LetEndAll(init) + [After(last, Stopping)]
  }

  /** The same where no request comes: the ending actors go on by themselves. */
  ghost function LetEnd(n: Node): Node
    decreases n, 2
  {
    match n.status
    case Closed => n
    case Ending => After(n, NoOne)
    case _ => n.(children := LetEndAll(n.children))
  }

  ghost function LetEndAll(nodes: seq<Node>): seq<Node>
    decreases nodes, 0
  {
    if nodes == [] then []
    else LetEndAll(nodes[..|nodes| - 1]) + [LetEnd(nodes[|nodes| - 1])]
  }

  // ------------------------------------------------------------ one step

  // What a loop over the children does with the youngest.
  lemma NextChild(children: seq<Node>)
    requires children != []
    ensures var (child, older) := (children[|children| - 1], children[..|children| - 1]);
            if StopSpec(child, Stopping).1
            then && StopChildsSpec(children) ==
                      (StopSpec(child, Stopping).0 + StopChildsSpec(older).0, StopChildsSpec(older).1)
                 && AfterChilds(children) == AfterChilds(older)
                 && GoneBelow(children) == Gone(child, Stopping) + GoneBelow(older)
            else && StopChildsSpec(children) == (StopSpec(child, Stopping).0, false)
                 && AfterChilds(children) == LetEndAll(older) + [After(child, Stopping)]
                 && GoneBelow(children) == Gone(child, Stopping) + EndedBelow(older)
  {
    var (child, older) := (children[|children| - 1], children[..|children| - 1]);
    RemovalsConcat(StopSpec(child, Stopping).0, StopChildsSpec(older).0);
    var (a, b) := (Removals(StopSpec(child, Stopping).0), Removals(StopChildsSpec(older).0));
    assert EndedBelow(children) == EndedBelow(older) + Ended(child);
    if StopSpec(child, Stopping).1 {
      assert Removals(StopChildsSpec(children).0) == a + b;
    }
    hide StopSpec, StopChildsSpec, Ended, EndedBelow, Removals, After, AfterChilds, LetEndAll;
  }

  lemma NoChilds()
    ensures StopChildsSpec([]) == ([], true) && GoneBelow([]) == multiset{} && AfterChilds([]) == []
  {}

  // What an actor's status makes of what its children lose.
  lemma GoneCases(n: Node, supervisor: Supervisor)
    ensures Gone(n, supervisor) ==
              if n.status == Closed then multiset{}
              else if Deaf(n, supervisor) then EndedBelow(n.children)
              else GoneBelow(n.children) + if StopChildsSpec(n.children).1 then multiset{n.path} else multiset{}
  {
    if n.status != Closed && n.status != Ending && !Deaf(n, supervisor) { OwnEvents(n, supervisor); }
  }

  lemma {:induction false} RemovalsConcat(a: seq<Event>, b: seq<Event>)
    ensures Removals(a + b) == Removals(a) + Removals(b)
  {
    if a == [] {
      assert a + b == b;
    } else {
      assert (a + b)[0] == a[0] && (a + b)[1..] == a[1..] + b;
      RemovalsConcat(a[1..], b);
    }
  }

  lemma {:induction false} PreStopsConcat(a: seq<Event>, b: seq<Event>)
    ensures PreStops(a + b) == PreStops(a) + PreStops(b)
  {
    if a == [] {
      assert a + b == b;
    } else {
      assert (a + b)[0] == a[0] && (a + b)[1..] == a[1..] + b;
      PreStopsConcat(a[1..], b);
    }
  }

  // What a running actor adds around the events of its children.
  lemma OwnEvents(n: Node, supervisor: Supervisor)
    requires n.status != Closed && n.status != Ending && !Deaf(n, supervisor)
    ensures var (below, done) := StopChildsSpec(n.children);
            && Removals(StopSpec(n, supervisor).0) == Removals(below) + (if done then [n.path] else [])
            && PreStops(StopSpec(n, supervisor).0) == [n.path] + PreStops(below)
  {
    var (below, done) := StopChildsSpec(n.children);
    var first := [PreStop(n.path)];
    var after := if done then [Removed(n.path), Acked(n.path)] else [];
    assert first[1..] == [] && Removals(first) == [] && PreStops(first) == [n.path];
    if done {
      assert after[1..] == [Acked(n.path)] && after[1..][1..] == [];
      assert Removals(after) == [n.path] && PreStops(after) == [];
    }
    RemovalsConcat(first, below);
    RemovalsConcat(first + below, after);
    PreStopsConcat(first, below);
    PreStopsConcat(first + below, after);
  }

  // ---------------------------------------------------------- reference

  /** The running actors that a stop request stops, oldest first: an actor before
      its children, children in order of creation. */
  ghost function LivePaths(n: Node): seq<ActorPath>
    decreases n, 1
  {
    if n.status == Closed || n.status == Ending then [] else [n.path] + LiveBelow(n.children)
  }

  ghost function LiveBelow(children: seq<Node>): seq<ActorPath>
    decreases children, 0
  {
    if children == [] then []
    else LiveBelow(children[..|children| - 1]) + LivePaths(children[|children| - 1])
  }

  /** The same with the youngest child first. */
  ghost function ParentFirst(n: Node): seq<ActorPath>
    decreases n, 1
  {
    if n.status == Closed || n.status == Ending then [] else [n.path] + ParentFirstBelow(n.children)
  }

  ghost function ParentFirstBelow(children: seq<Node>): seq<ActorPath>
    decreases children, 0
  {
    if children == [] then []
    else ParentFirst(children[|children| - 1]) + ParentFirstBelow(children[..|children| - 1])
  }

  /** No actor that has to answer waits for a verdict that does not come: below
      the target any wait is one, because the supervisor is stopping. */
  ghost predicate NoneDeaf(n: Node, supervisor: Supervisor)
    decreases n
  {
    n.status == Closed || (!Deaf(n, supervisor) && forall c | c in n.children :: NoneDeaf(c, Stopping))
  }

  // -------------------------------------------------------- main results

  /** A stop request is answered exactly when no actor that has to answer waits
      in vain, those below an actor that is already ending included. */
  lemma {:induction false} StopCompletesIff(n: Node, supervisor: Supervisor)
    ensures StopSpec(n, supervisor).1 <==> NoneDeaf(n, supervisor)
    decreases n, 1
  {
    if n.status != Closed && !Deaf(n, supervisor) {
      ChildsCompleteIff(n.children);
    }
  }

  lemma {:induction false} ChildsCompleteIff(children: seq<Node>)
    ensures StopChildsSpec(children).1 <==> forall c | c in children :: NoneDeaf(c, Stopping)
    decreases children, 0
  {
    if children != [] {
      var (init, last) := (children[..|children| - 1], children[|children| - 1]);
      StopCompletesIff(last, Stopping);
      ChildsCompleteIff(init);
      assert children == init + [last];
    }
  }

  /** An answered stop removes the running actors it reaches in the reverse of
      their order of creation, and runs `pre_stop` parent first. */
  lemma {:induction false} StopOrder(n: Node, supervisor: Supervisor)
    requires NoneDeaf(n, supervisor)
    ensures Removals(StopSpec(n, supervisor).0) == Reverse(LivePaths(n))
    ensures PreStops(StopSpec(n, supervisor).0) == ParentFirst(n)
    decreases n, 1
  {
    StopCompletesIff(n, supervisor);
    if n.status != Closed && n.status != Ending {
      ChildsOrder(n.children);
      OwnEvents(n, supervisor);
      ReverseConcat([n.path], LiveBelow(n.children));
      assert Reverse([n.path]) == [n.path];
    }
  }

  lemma {:induction false} ChildsOrder(children: seq<Node>)
    requires forall c | c in children :: NoneDeaf(c, Stopping)
    ensures Removals(StopChildsSpec(children).0) == Reverse(LiveBelow(children))
    ensures PreStops(StopChildsSpec(children).0) == ParentFirstBelow(children)
    decreases children, 0
  {
    if children != [] {
      var (init, last) := (children[..|children| - 1], children[|children| - 1]);
      StopCompletesIff(last, Stopping);
      StopOrder(last, Stopping);
      ChildsOrder(init);
      RemovalsConcat(StopSpec(last, Stopping).0, StopChildsSpec(init).0);
      PreStopsConcat(StopSpec(last, Stopping).0, StopChildsSpec(init).0);
      ReverseConcat(LiveBelow(init), LivePaths(last));
    }
  }

  /** Conservation: whatever the request can do, every actor that was running is
      gone from the registry or still runs in the tree that is left, once. */
  lemma {:induction false} StopConserves(n: Node, supervisor: Supervisor)
    ensures Running(n) == Running(After(n, supervisor)) + Gone(n, supervisor)
    decreases n, 1
  {
    GoneCases(n, supervisor);
    if n.status != Closed {
      if Deaf(n, supervisor) {
        LetEndAllConserves(n.children);
      } else {
        ChildsConserve(n.children);
        if StopChildsSpec(n.children).1 { AllStopped(n.children); }
      }
      hide Gone, GoneBelow, EndedBelow, StopChildsSpec, AfterChilds;
    }
  }

  lemma {:induction false} AllStopped(children: seq<Node>)
    requires StopChildsSpec(children).1
    ensures AfterChilds(children) == []
    decreases |children|
  {
    if children != [] { AllStopped(children[..|children| - 1]); }
  }

  lemma {:induction false} ChildsConserve(children: seq<Node>)
    ensures RunningBelow(children) == RunningBelow(AfterChilds(children)) + GoneBelow(children)
    decreases children, 0
  {
    if children == [] {
      NoChilds();
    } else {
      var (init, last) := (children[..|children| - 1], children[|children| - 1]);
      NextChild(children);
      StopConserves(last, Stopping);
      if StopSpec(last, Stopping).1 {
        ChildsConserve(init);
        AnsweredIsClosed(last, Stopping);
      } else {
        LetEndAllConserves(init);
        RunningSnoc(LetEndAll(init), After(last, Stopping));
      }
      assert RunningBelow(children) == RunningBelow(init) + Running(last);
      hide RunningBelow, Running, Gone, GoneBelow, EndedBelow, AfterChilds, After, StopSpec;
    }
  }

  /** An answered request leaves the actor's channel closed. */
  lemma AnsweredIsClosed(n: Node, supervisor: Supervisor)
    requires StopSpec(n, supervisor).1
    ensures After(n, supervisor).status == Closed
  {}

  lemma {:induction false} LetEndConserves(n: Node)
    ensures Running(n) == Running(LetEnd(n)) + Ended(n)
    decreases n, 2
  {
    match n.status {
      case Closed =>
      case Ending =>
        StopConserves(n, NoOne);
        assert Gone(n, NoOne) == Ended(n);
      case _ => LetEndAllConserves(n.children);
    }
  }

  lemma {:induction false} LetEndAllConserves(nodes: seq<Node>)
    ensures RunningBelow(nodes) == RunningBelow(LetEndAll(nodes)) + EndedBelow(nodes)
    decreases nodes, 0
  {
    if nodes != [] {
      var (init, last) := (nodes[..|nodes| - 1], nodes[|nodes| - 1]);
      LetEndConserves(last);
      LetEndAllConserves(init);
      RunningSnoc(LetEndAll(init), LetEnd(last));
      hide Running, Ended, LetEnd;
    }
  }

  /** What could not finish does not by being asked again: a second request causes
      nothing, is answered as the first one was, and leaves the tree as it is. */
  lemma {:induction false} StopTwice(n: Node, supervisor: Supervisor)
    ensures var m := After(n, supervisor);
            StopSpec(m, supervisor) == ([], StopSpec(n, supervisor).1) && After(m, supervisor) == m
    decreases n, 1
  {
    if n.status != Closed {
      if Deaf(n, supervisor) {
        EndAllTwice(n.children);
      } else if !StopChildsSpec(n.children).1 {
        ChildsTwice(n.children);
      }
    }
  }

  lemma {:induction false} ChildsTwice(children: seq<Node>)
    requires !StopChildsSpec(children).1
    ensures var rest := AfterChilds(children);
            StopChildsSpec(rest) == ([], false) && AfterChilds(rest) == rest
    decreases children, 0
  {
    var (init, last) := (children[..|children| - 1], children[|children| - 1]);
    NextChild(children);
    if StopSpec(last, Stopping).1 {
      ChildsTwice(init);
    } else {
      var rest := LetEndAll(init) + [After(last, Stopping)];
      assert rest[..|rest| - 1] == LetEndAll(init);
      StopTwice(last, Stopping);
      EndAllTwice(init);
      NextChild(rest);
    }
    hide StopChildsSpec, AfterChilds;
  }

  lemma {:induction false} EndAllTwice(nodes: seq<Node>)
    ensures LetEndAll(LetEndAll(nodes)) == LetEndAll(nodes)
    decreases nodes, 0
  {
    if nodes != [] {
      var (init, last) := (nodes[..|nodes| - 1], nodes[|nodes| - 1]);
      EndAllTwice(init);
      EndTwice(last);
      assert (LetEndAll(init) + [LetEnd(last)])[..|LetEndAll(init)|] == LetEndAll(init);
    }
  }

  lemma {:induction false} EndTwice(n: Node)
    ensures LetEnd(LetEnd(n)) == LetEnd(n)
    decreases n, 2
  {
    if n.status == Ending {
      StopTwice(n, NoOne);
    } else if n.status != Closed {
      EndAllTwice(n.children);
    }
  }

  /** A stop is not answered while anyone below the actor waits for a verdict. */
  lemma {:induction false} FaultBlocks(nodes: seq<Node>, at: ActorPath, supervisor: Supervisor)
    requires Find(nodes, at, supervisor).Some? && Find(nodes, at, supervisor).value.node.status == Faulted
    ensures exists c | c in nodes :: !NoneDeaf(c, Stopping)
    decreases nodes, 0
  {
    var (init, last) := (nodes[..|nodes| - 1], nodes[|nodes| - 1]);
    assert nodes == init + [last];
    if FindIn(last, at, supervisor).Some? {
      if last.path != at { FaultBlocks(last.children, at, SupervisedBy(last)); }
      assert !NoneDeaf(last, Stopping);
    } else {
      FaultBlocks(init, at, supervisor);
    }
  }

  /** By the time a request is answered, the registry has lost the whole running
      subtree and nothing else: what the request stopped itself, and what was
      ending before it. */
  lemma SubtreeLeavesRegistry(n: Node, supervisor: Supervisor)
    requires NoneDeaf(n, supervisor)
    ensures Gone(n, supervisor) == Running(n)
  {
    StopCompletesIff(n, supervisor);
    StopConserves(n, supervisor);
    AnsweredIsClosed(n, supervisor);
  }

  /** The acknowledgement is the last event: the actor's own path was removed
      just before it, after those of all the actors it stopped. */
  lemma AcknowledgedLast(n: Node, supervisor: Supervisor)
    requires n.status != Closed && n.status != Ending && NoneDeaf(n, supervisor)
    ensures var events := StopSpec(n, supervisor).0;
            && |events| >= 3 && events[|events| - 1] == Acked(n.path) && events[|events| - 2] == Removed(n.path)
            && Removals(events[..|events| - 1]) == Reverse(LivePaths(n))
  {
    StopCompletesIff(n, supervisor);
    StopOrder(n, supervisor);
    var events := StopSpec(n, supervisor).0;
    var head := events[..|events| - 1];
    assert events == head + [Acked(n.path)];
    RemovalsConcat(head, [Acked(n.path)]);
    assert Removals([Acked(n.path)]) == [];
  }

  /** Among children a closed channel is only skipped, wherever it stands. */
  lemma {:induction false} ClosedChildIsSkipped(older: seq<Node>, closed: Node, newer: seq<Node>)
    requires closed.status == Closed
    ensures StopChildsSpec(older + [closed] + newer) == StopChildsSpec(older + newer)
    decreases |newer|
  {
    var children := older + [closed] + newer;
    if newer == [] {
      assert older + newer == older && children == older + [closed];
      assert children[..|children| - 1] == older && children[|children| - 1] == closed;
      NextChild(children);
      assert [] + StopChildsSpec(older).0 == StopChildsSpec(older).0;
    } else {
      var (init, last) := (newer[..|newer| - 1], newer[|newer| - 1]);
      assert children[..|children| - 1] == older + [closed] + init && children[|children| - 1] == last;
      assert (older + newer)[..|older + newer| - 1] == older + init && (older + newer)[|older + newer| - 1] == last;
      ClosedChildIsSkipped(older, closed, init);
      NextChild(children);
      NextChild(older + newer);
      hide StopChildsSpec;
    }
  }

  // ------------------------------------------------------- tidy trees

  /** Stopping takes actors out of a tree and never moves one. */
  lemma {:induction false} AfterTidy(base: seq<string>, n: Node, supervisor: Supervisor)
    requires TidyNode(base, n)
    ensures TidyNode(base, After(n, supervisor))
    decreases n, 1
  {
    LetEndAllTidy(n.path.tokens, n.children);
    AfterChildsTidy(n.path.tokens, n.children);
  }

  lemma {:induction false} AfterChildsTidy(base: seq<string>, children: seq<Node>)
    requires Tidy(base, children)
    ensures Tidy(base, AfterChilds(children))
    decreases children, 0
  {
    if children != [] {
      var (init, last) := (children[..|children| - 1], children[|children| - 1]);
      assert last in children;
      AfterTidy(base, last, Stopping);
      AfterChildsTidy(base, init);
      LetEndAllTidy(base, init);
      hide After, LetEndAll, StopSpec, TidyNode;
    }
  }

  lemma {:induction false} LetEndAllTidy(base: seq<string>, nodes: seq<Node>)
    requires Tidy(base, nodes)
    ensures Tidy(base, LetEndAll(nodes))
    decreases nodes, 0
  {
    if nodes != [] {
      var (init, last) := (nodes[..|nodes| - 1], nodes[|nodes| - 1]);
      assert last in nodes && TidyNode(base, last);
      LetEndAllTidy(base, init);
      if last.status == Ending { AfterTidy(base, last, NoOne); }
      LetEndAllTidy(last.path.tokens, last.children);
      assert TidyNode(base, LetEnd(last));
      hide After, LetEnd, TidyNode;
    }
  }
}
