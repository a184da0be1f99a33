/** The tree of actors behind the stop channels: every actor with the senders of
    the children it has created, and how starting actors makes the tree grow. */
module ActorTree {
  import opened Wrappers
  import opened ActorPath

  /** What a stop request meets: a running actor; a closed channel; an actor that
      has taken an earlier request and is stopping its children, so that it will
      drop this one unread; or an actor whose loop waits for its supervisor's
      verdict on a fault. */
  datatype Status = Live | Closed | Ending | Faulted

  /** An actor and its `child_senders`, in order of creation; for an ending actor,
      the children it has still to stop or is waiting for. */
  datatype Node = Node(path: ActorPath, status: Status, children: seq<Node>)

  /** The actors of a tree that are registered: those whose channel is open. */
  ghost function Running(n: Node): multiset<ActorPath>
    decreases n, 1
  {
    if n.status == Closed then multiset{} else multiset{n.path} + RunningBelow(n.children)
  }

  ghost function RunningBelow(nodes: seq<Node>): multiset<ActorPath>
    decreases nodes, 0
  {
    if nodes == [] then multiset{}
    else RunningBelow(nodes[..|nodes| - 1]) + Running(nodes[|nodes| - 1])
  }

  lemma RunningSnoc(nodes: seq<Node>, n: Node)
    ensures RunningBelow(nodes + [n]) == RunningBelow(nodes) + Running(n)
  {
    assert (nodes + [n])[..|nodes|] == nodes;
  }

  lemma {:induction false} RunningConcat(a: seq<Node>, b: seq<Node>)
    ensures RunningBelow(a + b) == RunningBelow(a) + RunningBelow(b)
    decreases |b|
  {
    if b == [] {
      assert a + b == a;
    } else {
      var (init, last) := (b[..|b| - 1], b[|b| - 1]);
      assert (a + b)[..|a + b| - 1] == a + init && (a + b)[|a + b| - 1] == last;
      RunningConcat(a, init);
      hide Running;
      Regroup(RunningBelow(a), RunningBelow(init), Running(last));
    }
  }

  lemma Regroup(a: multiset<ActorPath>, b: multiset<ActorPath>, c: multiset<ActorPath>)
    ensures (a + b) + c == a + (b + c)
  {}

  // What runs in one or two of the trees runs in the forest.
  lemma {:induction false} RunningPart(nodes: seq<Node>, i: nat)
    requires i < |nodes|
    ensures Running(nodes[i]) <= RunningBelow(nodes)
    decreases |nodes|
  {
    if i < |nodes| - 1 { RunningPart(nodes[..|nodes| - 1], i); }
  }

  lemma {:induction false} RunningParts(nodes: seq<Node>, i: nat, j: nat)
    requires i < j < |nodes|
    ensures Running(nodes[i]) + Running(nodes[j]) <= RunningBelow(nodes)
    decreases |nodes|
  {
    var init := nodes[..|nodes| - 1];
    if j < |nodes| - 1 { RunningParts(init, i, j); } else { RunningPart(init, i); }
  }

  lemma {:induction false} RunningIn(nodes: seq<Node>, p: ActorPath) returns (c: Node)
    requires p in RunningBelow(nodes)
    ensures c in nodes && p in Running(c)
    decreases |nodes|
  {
    var (init, last) := (nodes[..|nodes| - 1], nodes[|nodes| - 1]);
    if p in Running(last) {
      c := last;
    } else {
      c := RunningIn(init, p);
    }
  }

  // ------------------------------------------- one actor of the tree

  /** What an actor's supervisor is doing: nothing, for it has none any more or
      never had; its work; or its stop branch. */
  datatype Supervisor = NoOne | Serving | Stopping

  datatype Found = Found(node: Node, supervisor: Supervisor)

  function SupervisedBy(n: Node): Supervisor {
    if n.status == Ending then Stopping else Serving
  }

  /** The running actor with this path. */
  function Find(nodes: seq<Node>, at: ActorPath, supervisor: Supervisor): (r: Option<Found>)
    ensures r.Some? ==> r.value.node.path == at && r.value.node.status != Closed
    decreases nodes, 0
  {
    if nodes == [] then None
    else
      var r := FindIn(nodes[|nodes| - 1], at, supervisor);
      if r.Some? then r else Find(nodes[..|nodes| - 1], at, supervisor)
  }

  function FindIn(n: Node, at: ActorPath, supervisor: Supervisor): (r: Option<Found>)
    ensures r.Some? ==> r.value.node.path == at && r.value.node.status != Closed
    decreases n, 1
  {
    if n.status == Closed then None
    else if n.path == at then Some(Found(n, supervisor))
    else Find(n.children, at, SupervisedBy(n))
  }

  /** The forest with the actor found at this path changed into another. */
  function Put(nodes: seq<Node>, at: ActorPath, m: Node): seq<Node>
    decreases nodes, 0
  {
    if nodes == [] then []
    else
      var (init, last) := (nodes[..|nodes| - 1], nodes[|nodes| - 1]);
      if FindIn(last, at, NoOne).Some? then init + [PutIn(last, at, m)] else Put(init, at, m) + [last]
  }

  function PutIn(n: Node, at: ActorPath, m: Node): Node
    decreases n, 1
  {
    if n.path == at then m else n.(children := Put(n.children, at, m))
  }

  // Whether an actor is found does not depend on who supervises the forest.
  lemma FindAny(n: Node, at: ActorPath, a: Supervisor, b: Supervisor)
    ensures FindIn(n, at, a).Some? == FindIn(n, at, b).Some?
    ensures FindIn(n, at, a).Some? ==> FindIn(n, at, a).value.node == FindIn(n, at, b).value.node
  {}

  lemma {:induction false} FindRunning(nodes: seq<Node>, at: ActorPath, supervisor: Supervisor)
    ensures Find(nodes, at, supervisor).Some? <==> at in RunningBelow(nodes)
    ensures Find(nodes, at, supervisor).Some? ==> Running(Find(nodes, at, supervisor).value.node) <= RunningBelow(nodes)
    decreases nodes, 0
  {
    if nodes != [] {
      FindInRunning(nodes[|nodes| - 1], at, supervisor);
      FindRunning(nodes[..|nodes| - 1], at, supervisor);
    }
  }

  lemma {:induction false} FindInRunning(n: Node, at: ActorPath, supervisor: Supervisor)
    ensures FindIn(n, at, supervisor).Some? <==> at in Running(n)
    ensures FindIn(n, at, supervisor).Some? ==> Running(FindIn(n, at, supervisor).value.node) <= Running(n)
    decreases n, 1
  {
    if n.status != Closed && n.path != at {
      FindRunning(n.children, at, SupervisedBy(n));
    }
  }

  /** Changing one actor changes what runs by what runs in its own tree. */
  lemma {:induction false} PutRunning(nodes: seq<Node>, at: ActorPath, supervisor: Supervisor, m: Node)
    requires Find(nodes, at, supervisor).Some?
    ensures RunningBelow(Put(nodes, at, m)) + Running(Find(nodes, at, supervisor).value.node) ==
              RunningBelow(nodes) + Running(m)
    decreases nodes, 0
  {
    var (init, last) := (nodes[..|nodes| - 1], nodes[|nodes| - 1]);
    FindAny(last, at, supervisor, NoOne);
    RunningSnoc(init, last);
    assert init + [last] == nodes;
    var x := Running(Find(nodes, at, supervisor).value.node);
    if FindIn(last, at, supervisor).Some? {
      PutInRunning(last, at, supervisor, m);
      RunningSnoc(init, PutIn(last, at, m));
      hide Running, RunningBelow, PutIn, FindIn;
      Moved(RunningBelow(init), Running(PutIn(last, at, m)), x, Running(last), Running(m));
    } else {
      PutRunning(init, at, supervisor, m);
      RunningSnoc(Put(init, at, m), last);
      hide Running, RunningBelow, PutIn, FindIn;
      Moved(Running(last), RunningBelow(Put(init, at, m)), x, RunningBelow(init), Running(m));
    }
  }

  lemma {:induction false} PutInRunning(n: Node, at: ActorPath, supervisor: Supervisor, m: Node)
    requires FindIn(n, at, supervisor).Some?
    ensures Running(PutIn(n, at, m)) + Running(FindIn(n, at, supervisor).value.node) == Running(n) + Running(m)
    decreases n, 1
  {
    if n.path != at {
      PutRunning(n.children, at, SupervisedBy(n), m);
      var x := Running(FindIn(n, at, supervisor).value.node);
      Moved(multiset{n.path}, RunningBelow(Put(n.children, at, m)), x, RunningBelow(n.children), Running(m));
    }
  }

  // The same added on both sides.
  lemma Moved(
      k: multiset<ActorPath>, a: multiset<ActorPath>, b: multiset<ActorPath>,
      c: multiset<ActorPath>, d: multiset<ActorPath>)
    requires a + b == c + d
    ensures k + a + b == k + c + d && a + k + b == c + k + d
  {
    assert k + a + b == k + (a + b) && k + c + d == k + (c + d);
    assert a + k + b == k + a + b && c + k + d == k + c + d;
  }

  lemma {:induction false} FindPut(nodes: seq<Node>, at: ActorPath, supervisor: Supervisor, m: Node)
    requires Find(nodes, at, supervisor).Some? && m.path == at && m.status != Closed
    ensures Find(Put(nodes, at, m), at, supervisor) == Some(Found(m, Find(nodes, at, supervisor).value.supervisor))
    decreases nodes, 0
  {
    var (init, last) := (nodes[..|nodes| - 1], nodes[|nodes| - 1]);
    FindAny(last, at, supervisor, NoOne);
    if FindIn(last, at, supervisor).Some? {
      FindPutIn(last, at, supervisor, m);
      assert (init + [PutIn(last, at, m)])[..|init|] == init;
    } else {
      FindPut(init, at, supervisor, m);
      assert (Put(init, at, m) + [last])[..|Put(init, at, m)|] == Put(init, at, m);
    }
  }

  lemma {:induction false} FindPutIn(n: Node, at: ActorPath, supervisor: Supervisor, m: Node)
    requires FindIn(n, at, supervisor).Some? && m.path == at && m.status != Closed
    ensures FindIn(PutIn(n, at, m), at, supervisor) ==
              Some(Found(m, FindIn(n, at, supervisor).value.supervisor))
    decreases n, 1
  {
    if n.path != at { FindPut(n.children, at, SupervisedBy(n), m); }
  }

  // Changing an actor back undoes the change.
  lemma {:induction false} PutBack(nodes: seq<Node>, at: ActorPath, supervisor: Supervisor, m: Node)
    requires Find(nodes, at, supervisor).Some? && m.path == at && m.status != Closed
    ensures Put(Put(nodes, at, m), at, Find(nodes, at, supervisor).value.node) == nodes
    decreases nodes, 0
  {
    var (init, last) := (nodes[..|nodes| - 1], nodes[|nodes| - 1]);
    FindAny(last, at, supervisor, NoOne);
    if FindIn(last, at, supervisor).Some? {
      PutInBack(last, at, supervisor, m);
      FindPutIn(last, at, NoOne, m);
      assert (init + [PutIn(last, at, m)])[..|init|] == init;
    } else {
      PutBack(init, at, supervisor, m);
      assert (Put(init, at, m) + [last])[..|Put(init, at, m)|] == Put(init, at, m);
    }
  }

  lemma {:induction false} PutInBack(n: Node, at: ActorPath, supervisor: Supervisor, m: Node)
    requires FindIn(n, at, supervisor).Some? && m.path == at && m.status != Closed
    ensures PutIn(PutIn(n, at, m), at, FindIn(n, at, supervisor).value.node) == n
    decreases n, 1
  {
    if n.path != at { PutBack(n.children, at, SupervisedBy(n), m); }
  }

  // ------------------------------------------------------------ creation

  /** A call that creates an actor: its name, the calls its own start hook makes,
      one after the other, and whether its start succeeds in the end. */
  datatype Start = Start(name: string, hook: seq<Start>, succeeds: bool)

  /** The registry, the new actors by tree, and those that a failed start left
      behind: running, registered, and known to no stop sender. */
  datatype Created = Created(actors: set<ActorPath>, nodes: seq<Node>, orphans: seq<Node>)

  /** `create_actor_path`: the name is taken, or the start hook runs; then the
      actor stays with the children it has created, or goes without them. */
  ghost function CreateSpec(actors: set<ActorPath>, path: ActorPath, start: Start): Created
    decreases start, 1
  {
    if path in actors then Created(actors, [], [])
    else
      var below := HookSpec(actors + {path}, path, start.hook);
      if start.succeeds then below.(nodes := [Node(path, Live, below.nodes)])
      else Created(below.actors - {path}, [], below.orphans + below.nodes)
  }

  ghost function HookSpec(actors: set<ActorPath>, path: ActorPath, hook: seq<Start>): Created
    decreases hook, 0
  {
    if hook == [] then Created(actors, [], [])
    else
      var (before, last) := (HookSpec(actors, path, hook[..|hook| - 1]), hook[|hook| - 1]);
      var c := CreateSpec(before.actors, Div(path, last.name), last);
      Created(c.actors, before.nodes + c.nodes, before.orphans + c.orphans)
  }

  /** Every path a creation adds to the registry is that of a new running actor,
      in the tree or left behind. */
  lemma {:induction false} CreateConserves(actors: set<ActorPath>, path: ActorPath, start: Start)
    ensures var c := CreateSpec(actors, path, start);
            multiset(c.actors) == multiset(actors) + RunningBelow(c.nodes) + RunningBelow(c.orphans)
    decreases start, 1
  {
    if path !in actors {
      var below := HookSpec(actors + {path}, path, start.hook);
      HookConserves(actors + {path}, path, start.hook);
      Joined(actors, path);
      if start.succeeds {
        assert [Node(path, Live, below.nodes)][..0] == [];
      } else {
        RunningConcat(below.orphans, below.nodes);
        Parted(multiset(actors), below.actors, path, RunningBelow(below.nodes), RunningBelow(below.orphans));
        hide RunningBelow, HookSpec;
      }
    }
  }

  lemma Joined(actors: set<ActorPath>, path: ActorPath)
    requires path !in actors
    ensures multiset(actors + {path}) == multiset(actors) + multiset{path}
  {}

  lemma Parted(
      m: multiset<ActorPath>, actors: set<ActorPath>, path: ActorPath, a: multiset<ActorPath>, b: multiset<ActorPath>)
    requires multiset(actors) == m + multiset{path} + a + b
    ensures multiset(actors - {path}) == m + (b + a)
  {
    assert multiset(actors)[path] >= 1;
    assert multiset(actors - {path}) == multiset(actors) - multiset{path};
  }

  lemma {:induction false} HookConserves(actors: set<ActorPath>, path: ActorPath, hook: seq<Start>)
    ensures var c := HookSpec(actors, path, hook);
            multiset(c.actors) == multiset(actors) + RunningBelow(c.nodes) + RunningBelow(c.orphans)
    decreases hook, 0
  {
    if hook != [] {
      var (init, last) := (hook[..|hook| - 1], hook[|hook| - 1]);
      HookConserves(actors, path, init);
      var before := HookSpec(actors, path, init);
      CreateConserves(before.actors, Div(path, last.name), last);
      var c := CreateSpec(before.actors, Div(path, last.name), last);
      RunningConcat(before.nodes, c.nodes);
      RunningConcat(before.orphans, c.orphans);
    }
  }

  // -------------------------------------------------- who is left behind

  /** No start that fails has created a child whose own start succeeded. */
  predicate Orderly(start: Start) {
    && (forall s | s in start.hook :: Orderly(s))
    && (start.succeeds || forall s | s in start.hook :: !s.succeeds)
  }

  /** Names of one token, no two of one hook alike. */
  predicate WellNamed(start: Start) {
    && Level(From(start.name)) == 1
    && (forall s | s in start.hook :: WellNamed(s))
    && forall i, j | 0 <= i < j < |start.hook| :: From(start.hook[i].name) != From(start.hook[j].name)
  }

  predicate Under(path: ActorPath, p: ActorPath) {
    path.tokens <= p.tokens
  }

  /** An orderly start leaves nothing behind, whatever is registered. */
  lemma {:induction false} OrderlyLeavesNone(actors: set<ActorPath>, path: ActorPath, start: Start)
    requires Orderly(start)
    ensures CreateSpec(actors, path, start).orphans == []
    ensures !start.succeeds ==> CreateSpec(actors, path, start).nodes == []
    decreases start, 1
  {
    if path !in actors { OrderlyHook(actors + {path}, path, start.hook); }
  }

  lemma {:induction false} OrderlyHook(actors: set<ActorPath>, path: ActorPath, hook: seq<Start>)
    requires forall s | s in hook :: Orderly(s)
    ensures HookSpec(actors, path, hook).orphans == []
    ensures (forall s | s in hook :: !s.succeeds) ==> HookSpec(actors, path, hook).nodes == []
    decreases hook, 0
  {
    if hook != [] {
      var (init, last) := (hook[..|hook| - 1], hook[|hook| - 1]);
      assert hook == init + [last];
      OrderlyHook(actors, path, init);
      OrderlyLeavesNone(HookSpec(actors, path, init).actors, Div(path, last.name), last);
    }
  }

  /** Where no name clashes, that is the exact condition: a start leaves actors
      behind if and only if it is not orderly. */
  lemma {:induction false} LeavesNoneIff(actors: set<ActorPath>, path: ActorPath, start: Start)
    requires WellNamed(start) && forall p | p in actors :: !Under(path, p)
    ensures var c := CreateSpec(actors, path, start);
            && (c.orphans == [] <==> Orderly(start))
            && (c.nodes != [] <==> start.succeeds)
            && forall p | p in c.actors :: p in actors || Under(path, p)
    decreases start, 1
  {
    assert Under(path, path);
    HookIff(actors + {path}, path, start.hook);
  }

  // What is under a child goes on with the child's name.
  lemma UnderChild(path: ActorPath, name: string, p: ActorPath)
    requires Level(From(name)) == 1 && Under(Div(path, name), p)
    ensures |path.tokens| < |p.tokens| && From(name) == ActorPath([p.tokens[|path.tokens|]])
    ensures Under(path, p)
  {
    DivTokens(path, name);
    hide Div, From;
    var k := |path.tokens|;
    assert p.tokens[k] == Div(path, name).tokens[k] == From(name).tokens[0];
    assert From(name).tokens == [p.tokens[k]];
  }

  // The calls before the last have registered nothing under its path.
  lemma NotUnderLast(actors: set<ActorPath>, path: ActorPath, hook: seq<Start>, p: ActorPath)
    requires hook != [] && forall s | s in hook :: Level(From(s.name)) == 1
    requires forall i, j | 0 <= i < j < |hook| :: From(hook[i].name) != From(hook[j].name)
    requires forall q | q in actors :: q == path || !Under(path, q)
    requires p in actors || exists s | s in hook[..|hook| - 1] :: Under(Div(path, s.name), p)
    ensures !Under(Div(path, hook[|hook| - 1].name), p)
  {
    var last := hook[|hook| - 1];
    hide Div, From, Under;
    if Under(Div(path, last.name), p) {
      UnderChild(path, last.name, p);
      if p !in actors {
        var s :| s in hook[..|hook| - 1] && Under(Div(path, s.name), p);
        var i :| 0 <= i < |hook| - 1 && hook[i] == s;
        UnderChild(path, s.name, p);
      }
    }
  }

  lemma {:induction false} HookIff(actors: set<ActorPath>, path: ActorPath, hook: seq<Start>)
    requires forall s | s in hook :: WellNamed(s)
    requires forall i, j | 0 <= i < j < |hook| :: From(hook[i].name) != From(hook[j].name)
    requires forall p | p in actors :: p == path || !Under(path, p)
    ensures var c := HookSpec(actors, path, hook);
            && (c.orphans == [] <==> forall s | s in hook :: Orderly(s))
            && (c.nodes == [] <==> forall s | s in hook :: !s.succeeds)
            && forall p | p in c.actors :: p in actors || exists s | s in hook :: Under(Div(path, s.name), p)
    decreases hook, 0
  {
    if hook != [] {
      var (init, last) := (hook[..|hook| - 1], hook[|hook| - 1]);
      assert hook == init + [last];
      HookIff(actors, path, init);
      var before := HookSpec(actors, path, init);
      var c := CreateSpec(before.actors, Div(path, last.name), last);
      assert HookSpec(actors, path, hook) == Created(c.actors, before.nodes + c.nodes, before.orphans + c.orphans);
      hide Div, From, Under, HookSpec, CreateSpec, WellNamed, Orderly;
      forall p | p in before.actors ensures !Under(Div(path, last.name), p) {
        NotUnderLast(actors, path, hook, p);
      }
      LeavesNoneIff(before.actors, Div(path, last.name), last);
      assert forall s :: s in hook <==> s in init || s == last;
    }
  }

  // ------------------------------------------------ paths follow the tree

  /** Every child is one token below its parent. */
  ghost predicate Tidy(base: seq<string>, nodes: seq<Node>)
    decreases nodes, 0
  {
    forall c | c in nodes :: TidyNode(base, c)
  }

  ghost predicate TidyNode(base: seq<string>, n: Node)
    decreases n, 1
  {
    && |n.path.tokens| == |base| + 1 && base <= n.path.tokens && Clean(n.path.tokens)
    && Tidy(n.path.tokens, n.children)
  }

  lemma {:induction false} RunningIsBelow(base: seq<string>, nodes: seq<Node>, p: ActorPath) returns (c: Node)
    requires Tidy(base, nodes) && p in RunningBelow(nodes)
    ensures c in nodes && c.status != Closed && p in Running(c) && c.path.tokens <= p.tokens
    ensures |base| < |p.tokens| && base <= p.tokens && Clean(p.tokens)
    decreases nodes
  {
    c := RunningIn(nodes, p);
    assert TidyNode(base, c);
    if p != c.path {
      var _ := RunningIsBelow(c.path.tokens, c.children, p);
    }
  }

  lemma {:induction false} PutTidy(base: seq<string>, nodes: seq<Node>, at: ActorPath, supervisor: Supervisor, m: Node)
    requires Tidy(base, nodes) && Find(nodes, at, supervisor).Some?
    requires m.path == at
    requires Tidy(at.tokens, Find(nodes, at, supervisor).value.node.children) ==> Tidy(at.tokens, m.children)
    ensures Tidy(base, Put(nodes, at, m))
    decreases nodes, 0
  {
    var (init, last) := (nodes[..|nodes| - 1], nodes[|nodes| - 1]);
    FindAny(last, at, supervisor, NoOne);
    assert last in nodes && TidyNode(base, last);
    if FindIn(last, at, supervisor).Some? {
      PutInTidy(base, last, at, supervisor, m);
    } else {
      PutTidy(base, init, at, supervisor, m);
    }
  }

  lemma {:induction false} PutInTidy(base: seq<string>, n: Node, at: ActorPath, supervisor: Supervisor, m: Node)
    requires TidyNode(base, n) && FindIn(n, at, supervisor).Some?
    requires m.path == at
    requires Tidy(at.tokens, FindIn(n, at, supervisor).value.node.children) ==> Tidy(at.tokens, m.children)
    ensures TidyNode(base, PutIn(n, at, m))
    decreases n, 1
  {
    if n.path != at {
      PutTidy(n.path.tokens, n.children, at, SupervisedBy(n), m);
    }
  }

  lemma {:induction false} FindBelow(base: seq<string>, nodes: seq<Node>, at: ActorPath, supervisor: Supervisor)
    requires Tidy(base, nodes) && Find(nodes, at, supervisor).Some?
    ensures |base| < |at.tokens| && base <= at.tokens && Clean(at.tokens)
    ensures Tidy(at.tokens, Find(nodes, at, supervisor).value.node.children)
    decreases nodes, 0
  {
    var last := nodes[|nodes| - 1];
    assert last in nodes && TidyNode(base, last);
    if FindIn(last, at, supervisor).Some? {
      if last.path != at { FindBelow(last.path.tokens, last.children, at, SupervisedBy(last)); }
    } else {
      FindBelow(base, nodes[..|nodes| - 1], at, supervisor);
    }
  }

  lemma DivTokens(p: ActorPath, name: string)
    ensures Div(p, name).tokens == p.tokens + From(name).tokens
  {}

  /** Names of one token make tidy trees. */
  lemma {:induction false} CreateTidy(actors: set<ActorPath>, parent: ActorPath, start: Start)
    requires Clean(parent.tokens) && OneToken(start)
    ensures Tidy(parent.tokens, CreateSpec(actors, Div(parent, start.name), start).nodes)
    decreases start, 1
  {
    var path := Div(parent, start.name);
    BuiltClean(parent, start.name);
    DivTokens(parent, start.name);
    HookTidy(actors + {path}, path, start.hook);
  }

  lemma {:induction false} HookTidy(actors: set<ActorPath>, path: ActorPath, hook: seq<Start>)
    requires Clean(path.tokens) && forall s | s in hook :: OneToken(s)
    ensures Tidy(path.tokens, HookSpec(actors, path, hook).nodes)
    decreases hook, 0
  {
    if hook != [] {
      var (init, last) := (hook[..|hook| - 1], hook[|hook| - 1]);
      HookTidy(actors, path, init);
      CreateTidy(HookSpec(actors, path, init).actors, path, last);
    }
  }

  /** Every name in the call has one token. */
  predicate OneToken(start: Start) {
    Level(From(start.name)) == 1 && forall s | s in start.hook :: OneToken(s)
  }

  /** The paths below an actor's path are those of the actors in its tree. */
  lemma {:induction false} BelowIsInside(
      base: seq<string>, nodes: seq<Node>, at: ActorPath, supervisor: Supervisor, p: ActorPath)
    requires Tidy(base, nodes) && Find(nodes, at, supervisor).Some? && p in RunningBelow(nodes)
    requires at.tokens <= p.tokens && forall q :: RunningBelow(nodes)[q] <= 1
    ensures p in Running(Find(nodes, at, supervisor).value.node)
    decreases nodes
  {
    FindBelow(base, nodes, at, supervisor);
    FindRunning(nodes, at, supervisor);
    var c := RunningIsBelow(base, nodes, at);
    var d := RunningIsBelow(base, nodes, p);
    SameSibling(base, nodes, c, d, p);
    FoundIn(nodes, at, supervisor, c);
    if c.path != at {
      OnceBelow(nodes, c);
      assert TidyNode(base, c);
      hide Find, RunningBelow;
      BelowIsInside(c.path.tokens, c.children, at, SupervisedBy(c), p);
    }
  }

  lemma OnceBelow(nodes: seq<Node>, c: Node)
    requires c in nodes && c.status != Closed && forall q :: RunningBelow(nodes)[q] <= 1
    ensures forall q :: RunningBelow(c.children)[q] <= 1
  {
    var i :| 0 <= i < |nodes| && nodes[i] == c;
    RunningPart(nodes, i);
    forall q ensures RunningBelow(c.children)[q] <= 1 {
      assert RunningBelow(c.children)[q] <= Running(c)[q] <= RunningBelow(nodes)[q];
    }
  }

  // The actor is found in the one tree where its path runs.
  lemma {:induction false} FoundIn(nodes: seq<Node>, at: ActorPath, supervisor: Supervisor, c: Node)
    requires c in nodes && at in Running(c) && RunningBelow(nodes)[at] <= 1
    ensures Find(nodes, at, supervisor) == FindIn(c, at, supervisor)
    decreases |nodes|
  {
    var (init, last) := (nodes[..|nodes| - 1], nodes[|nodes| - 1]);
    FindInRunning(last, at, supervisor);
    if c in init {
      var i :| 0 <= i < |init| && init[i] == c;
      RunningPart(init, i);
      FoundIn(init, at, supervisor, c);
    }
  }

  // Two running siblings on the way to one path are the same.
  lemma SameSibling(base: seq<string>, nodes: seq<Node>, c: Node, d: Node, p: ActorPath)
    requires Tidy(base, nodes) && c in nodes && d in nodes && c.status != Closed && d.status != Closed
    requires c.path.tokens <= p.tokens && d.path.tokens <= p.tokens
    requires forall q :: RunningBelow(nodes)[q] <= 1
    ensures c == d
  {
    assert TidyNode(base, c) && TidyNode(base, d);
    assert c.path.tokens == p.tokens[..|base| + 1] == d.path.tokens;
    assert c.path == d.path;
    var i :| 0 <= i < |nodes| && nodes[i] == c;
    var j :| 0 <= j < |nodes| && nodes[j] == d;
    assert c.path in Running(c) && d.path in Running(d);
    if i < j { RunningParts(nodes, i, j); }
    if j < i { RunningParts(nodes, j, i); }
    assert RunningBelow(nodes)[c.path] <= 1;
  }
}
