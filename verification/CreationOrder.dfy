/** The order in which actors were created, as a history of its own, and the order
    in which a stop removes them. */
module CreationOrder {
  import opened Wrappers
  import opened ActorPath
  import opened ActorTree
  import opened Shutdown
  import opened ActorSystem
  import opened SystemRuns

  // ---------------------------------------------------------- the history

  /** The paths that a creation registers, in order: the actor's own and then
      those of the calls its start hook makes. */
  ghost function Births(actors: set<ActorPath>, path: ActorPath, start: Start): seq<ActorPath>
    decreases start, 1
  {
    if path in actors then [] else [path] + HookBirths(actors + {path}, path, start.hook)
  }

  ghost function HookBirths(actors: set<ActorPath>, path: ActorPath, hook: seq<Start>): seq<ActorPath>
    decreases hook, 0
  {
    if hook == [] then []
    else
      var (init, last) := (hook[..|hook| - 1], hook[|hook| - 1]);
      HookBirths(actors, path, init) + Births(HookSpec(actors, path, init).actors, Div(path, last.name), last)
  }

  ghost function BirthsOf(w: Population, op: Op): seq<ActorPath> {
    match op
    case CreateRoot(start) => Births(w.actors, Div(User(), start.name), start)
    case CreateChild(parent, start) =>
      var found := Locate(w, parent);
      if found.None? || found.value.node.status != Live then [] else Births(w.actors, Div(parent, start.name), start)
    case _ => []
  }

  /** The paths registered in a run, in order. */
  ghost function History(ops: seq<Op>): seq<ActorPath>
    decreases |ops|
  {
    if ops == [] then []
    else
      var before := ops[..|ops| - 1];
      History(before) + BirthsOf(Run(before), ops[|ops| - 1])
  }

  /** When a path was registered last; 0 for never. */
  function Age(h: seq<ActorPath>, p: ActorPath): (r: nat)
    ensures r <= |h| && (r > 0 <==> p in h)
    decreases |h|
  {
    if h == [] then 0
    else
      assert h == h[..|h| - 1] + [h[|h| - 1]];
      if h[|h| - 1] == p then |h| else Age(h[..|h| - 1], p)
  }

  lemma {:induction false} AgeConcat(a: seq<ActorPath>, b: seq<ActorPath>, p: ActorPath)
    ensures p !in b ==> Age(a + b, p) == Age(a, p)
    ensures p in b ==> Age(a + b, p) > |a|
    decreases |b|
  {
    if b == [] {
      assert a + b == a;
    } else {
      assert (a + b)[..|a + b| - 1] == a + b[..|b| - 1] && (a + b)[|a + b| - 1] == b[|b| - 1];
      assert b == b[..|b| - 1] + [b[|b| - 1]];
      AgeConcat(a, b[..|b| - 1], p);
    }
  }

  // ----------------------------------------------------- trees by age

  /** Running siblings stand in the order of their creation, after their parent. */
  ghost predicate Aged(h: seq<ActorPath>, parent: nat, nodes: seq<Node>)
    decreases nodes, 0
  {
    && (forall c | c in nodes :: AgedNode(h, parent, c))
    && forall i, j | 0 <= i < j < |nodes| && nodes[i].status != Closed && nodes[j].status != Closed ::
         Age(h, nodes[i].path) < Age(h, nodes[j].path)
  }

  ghost predicate AgedNode(h: seq<ActorPath>, parent: nat, n: Node)
    decreases n, 1
  {
    n.status == Closed || (parent < Age(h, n.path) && Aged(h, Age(h, n.path), n.children))
  }

  // Later births of other paths change nothing.
  lemma {:induction false} AgedLater(h: seq<ActorPath>, b: seq<ActorPath>, parent: nat, nodes: seq<Node>)
    requires Aged(h, parent, nodes) && forall p | p in b :: p !in RunningBelow(nodes)
    ensures Aged(h + b, parent, nodes)
    decreases nodes, 0
  {
    forall i | 0 <= i < |nodes|
      ensures AgedNode(h + b, parent, nodes[i])
      ensures nodes[i].status != Closed ==> Age(h + b, nodes[i].path) == Age(h, nodes[i].path)
    {
      RunningPart(nodes, i);
      assert nodes[i] in nodes;
      AgedNodeLater(h, b, parent, nodes[i]);
    }
  }

  lemma {:induction false} AgedNodeLater(h: seq<ActorPath>, b: seq<ActorPath>, parent: nat, n: Node)
    requires AgedNode(h, parent, n) && forall p | p in b :: p !in Running(n)
    ensures AgedNode(h + b, parent, n)
    ensures n.status != Closed ==> Age(h + b, n.path) == Age(h, n.path)
    decreases n, 1
  {
    if n.status != Closed {
      assert n.path in Running(n);
      AgeConcat(h, b, n.path);
      AgedLater(h, b, Age(h, n.path), n.children);
    }
  }

  // A running actor that was created last comes after the others.
  lemma AgedSnoc(h: seq<ActorPath>, parent: nat, nodes: seq<Node>, n: Node)
    requires Aged(h, parent, nodes) && AgedNode(h, parent, n)
    requires n.status != Closed ==>
               forall i | 0 <= i < |nodes| && nodes[i].status != Closed :: Age(h, nodes[i].path) < Age(h, n.path)
    ensures Aged(h, parent, nodes + [n])
  {}

  lemma AgedPrefix(h: seq<ActorPath>, parent: nat, nodes: seq<Node>, k: nat)
    requires Aged(h, parent, nodes) && k <= |nodes|
    ensures Aged(h, parent, nodes[..k])
  {}

  // --------------------------------------------------------- creation

  lemma {:induction false} BirthsNew(actors: set<ActorPath>, path: ActorPath, start: Start)
    ensures forall p | p in Births(actors, path, start) :: p !in actors
    decreases start, 1
  {
    if path !in actors { HookBirthsNew(actors + {path}, path, start.hook); }
  }

  lemma {:induction false} HookBirthsNew(actors: set<ActorPath>, path: ActorPath, hook: seq<Start>)
    requires path in actors
    ensures forall p | p in HookBirths(actors, path, hook) :: p !in actors
    decreases hook, 0
  {
    if hook != [] {
      var (init, last) := (hook[..|hook| - 1], hook[|hook| - 1]);
      HookBirthsNew(actors, path, init);
      BirthsNew(HookSpec(actors, path, init).actors, Div(path, last.name), last);
      HookKeeps(actors, path, init);
    }
  }

  lemma HookKeeps(actors: set<ActorPath>, path: ActorPath, hook: seq<Start>)
    ensures actors <= HookSpec(actors, path, hook).actors
    ensures var c := HookSpec(actors, path, hook); forall p | p in RunningBelow(c.nodes) :: p in c.actors
    ensures var c := HookSpec(actors, path, hook); forall p | p in RunningBelow(c.orphans) :: p in c.actors
  {
    HookConserves(actors, path, hook);
    var c := HookSpec(actors, path, hook);
    forall p
      ensures multiset(c.actors)[p] == multiset(actors)[p] + RunningBelow(c.nodes)[p] + RunningBelow(c.orphans)[p]
    {}
    forall p | p in actors ensures p in c.actors { assert multiset(c.actors)[p] > 0; }
  }

  ghost predicate AgedApart(h: seq<ActorPath>, nodes: seq<Node>) {
    forall n | n in nodes :: AgedNode(h, 0, n)
  }

  lemma ApartLater(h: seq<ActorPath>, b: seq<ActorPath>, nodes: seq<Node>)
    requires AgedApart(h, nodes) && forall p | p in b :: p !in RunningBelow(nodes)
    ensures AgedApart(h + b, nodes)
  {
    forall i | 0 <= i < |nodes| ensures AgedNode(h + b, 0, nodes[i]) {
      RunningPart(nodes, i);
      assert nodes[i] in nodes;
      AgedNodeLater(h, b, 0, nodes[i]);
    }
  }

  // What a creation makes is ordered by the history that it adds.
  lemma {:induction false} CreateAged(
      h: seq<ActorPath>, parent: nat, actors: set<ActorPath>, path: ActorPath, start: Start)
    requires parent <= |h|
    ensures var (c, b) := (CreateSpec(actors, path, start), Births(actors, path, start));
            && |c.nodes| <= 1 && AgedApart(h + b, c.orphans)
            && forall n | n in c.nodes :: AgedNode(h + b, parent, n) && Age(h + b, n.path) > |h| && n.path == path
    decreases start, 1
  {
    if path !in actors {
      var h1 := h + [path];
      var hb := HookBirths(actors + {path}, path, start.hook);
      var below := HookSpec(actors + {path}, path, start.hook);
      HookAged(h1, actors + {path}, path, start.hook);
      HookBirthsNew(actors + {path}, path, start.hook);
      AgeLast(h, path);
      AgeConcat(h1, hb, path);
      assert h + ([path] + hb) == h1 + hb;
      assert Births(actors, path, start) == [path] + hb;
      hide HookBirths, HookSpec, Births, Age, Aged;
      if !start.succeeds { LoosenAged(h1 + hb, Age(h1, path), below.nodes); }
    }
  }

  lemma AgeLast(h: seq<ActorPath>, p: ActorPath)
    ensures Age(h + [p], p) == |h| + 1
  {}

  lemma LoosenAged(h: seq<ActorPath>, parent: nat, nodes: seq<Node>)
    requires Aged(h, parent, nodes)
    ensures AgedApart(h, nodes)
  {}

  lemma {:induction false} HookAged(h: seq<ActorPath>, actors: set<ActorPath>, path: ActorPath, hook: seq<Start>)
    requires path in actors
    ensures var (c, b) := (HookSpec(actors, path, hook), HookBirths(actors, path, hook));
            Aged(h + b, Age(h, path), c.nodes) && AgedApart(h + b, c.orphans)
    decreases hook, 0
  {
    if hook != [] {
      var (init, last) := (hook[..|hook| - 1], hook[|hook| - 1]);
      var before := HookSpec(actors, path, init);
      var hb := HookBirths(actors, path, init);
      var at := Div(path, last.name);
      var (c, b) := (CreateSpec(before.actors, at, last), Births(before.actors, at, last));
      assert HookSpec(actors, path, hook) == Created(c.actors, before.nodes + c.nodes, before.orphans + c.orphans);
      assert HookBirths(actors, path, hook) == hb + b;
      hide Div, CreateSpec, HookSpec, Births, HookBirths, Age, AgedNode, Aged;
      HookAged(h, actors, path, init);
      HookKeeps(actors, path, init);
      BirthsNew(before.actors, at, last);
      CreateAged(h + hb, Age(h, path), before.actors, at, last);
      JoinAged(h, hb, b, Age(h, path), before, c);
    }
  }

  // The actors of the calls before the last, and those of the last.
  lemma JoinAged(h: seq<ActorPath>, hb: seq<ActorPath>, b: seq<ActorPath>, parent: nat, before: Created, c: Created)
    requires Aged(h + hb, parent, before.nodes) && AgedApart(h + hb, before.orphans)
    requires forall p | p in b :: p !in RunningBelow(before.nodes) && p !in RunningBelow(before.orphans)
    requires |c.nodes| <= 1 && AgedApart(h + hb + b, c.orphans)
    requires forall n | n in c.nodes :: AgedNode(h + hb + b, parent, n) && Age(h + hb + b, n.path) > |h + hb|
    ensures Aged(h + (hb + b), parent, before.nodes + c.nodes)
    ensures AgedApart(h + (hb + b), before.orphans + c.orphans)
  {
    hide Age, AgedNode;
    AgedLater(h + hb, b, parent, before.nodes);
    ApartLater(h + hb, b, before.orphans);
    JoinYoungest(h + hb, b, parent, before.nodes, c.nodes);
    assert h + (hb + b) == h + hb + b;
  }

  // A new actor after those that are there.
  lemma JoinYoungest(h: seq<ActorPath>, b: seq<ActorPath>, parent: nat, nodes: seq<Node>, more: seq<Node>)
    requires Aged(h, parent, nodes) && Aged(h + b, parent, nodes) && |more| <= 1
    requires forall p | p in b :: p !in RunningBelow(nodes)
    requires forall n | n in more :: AgedNode(h + b, parent, n) && Age(h + b, n.path) > |h|
    ensures Aged(h + b, parent, nodes + more)
  {
    if more == [] {
      assert nodes + more == nodes;
    } else {
      assert more == [more[0]];
      forall i | 0 <= i < |nodes| && nodes[i].status != Closed
        ensures Age(h + b, nodes[i].path) < Age(h + b, more[0].path)
      {
        RunningPart(nodes, i);
        assert nodes[i].path in Running(nodes[i]);
        AgeConcat(h, b, nodes[i].path);
      }
      AgedSnoc(h + b, parent, nodes, more[0]);
    }
  }

  // ------------------------------------------------ changes in the tree

  lemma {:induction false} PutAged(
      h: seq<ActorPath>, parent: nat, nodes: seq<Node>, at: ActorPath, supervisor: Supervisor, m: Node)
    requires Aged(h, parent, nodes) && Find(nodes, at, supervisor).Some? && m.path == at
    requires m.status == Closed || Aged(h, Age(h, at), m.children)
    ensures Aged(h, parent, Put(nodes, at, m))
    decreases nodes, 0
  {
    var (init, last) := (nodes[..|nodes| - 1], nodes[|nodes| - 1]);
    FindAny(last, at, supervisor, NoOne);
    assert last in nodes && AgedNode(h, parent, last);
    AgedPrefix(h, parent, nodes, |nodes| - 1);
    if FindIn(last, at, supervisor).Some? {
      PutInAged(h, parent, last, at, supervisor, m);
      assert forall i | 0 <= i < |init| :: init[i] == nodes[i];
      AgedSnoc(h, parent, init, PutIn(last, at, m));
    } else {
      PutAged(h, parent, init, at, supervisor, m);
      PutPaths(init, at, supervisor, m);
      AgedSnoc(h, parent, Put(init, at, m), last);
    }
  }

  lemma {:induction false} PutInAged(
      h: seq<ActorPath>, parent: nat, n: Node, at: ActorPath, supervisor: Supervisor, m: Node)
    requires AgedNode(h, parent, n) && FindIn(n, at, supervisor).Some? && m.path == at
    requires m.status == Closed || Aged(h, Age(h, at), m.children)
    ensures AgedNode(h, parent, PutIn(n, at, m)) && PutIn(n, at, m).path == n.path
    decreases n, 1
  {
    if n.path != at {
      PutAged(h, Age(h, n.path), n.children, at, SupervisedBy(n), m);
    }
  }

  // The siblings keep their places; no channel opens again.
  lemma {:induction false} PutPaths(nodes: seq<Node>, at: ActorPath, supervisor: Supervisor, m: Node)
    requires Find(nodes, at, supervisor).Some? && m.path == at
    ensures |Put(nodes, at, m)| == |nodes|
    ensures forall i | 0 <= i < |nodes| && Put(nodes, at, m)[i].status != Closed ::
              nodes[i].status != Closed && Put(nodes, at, m)[i].path == nodes[i].path
    decreases |nodes|
  {
    var (init, last) := (nodes[..|nodes| - 1], nodes[|nodes| - 1]);
    FindAny(last, at, supervisor, NoOne);
    if FindIn(last, at, supervisor).None? { PutPaths(init, at, supervisor, m); }
  }

  lemma {:induction false} FindAged(
      h: seq<ActorPath>, parent: nat, nodes: seq<Node>, at: ActorPath, supervisor: Supervisor)
    requires Aged(h, parent, nodes) && Find(nodes, at, supervisor).Some?
    ensures Aged(h, Age(h, at), Find(nodes, at, supervisor).value.node.children) && parent < Age(h, at)
    decreases nodes, 0
  {
    var last := nodes[|nodes| - 1];
    assert last in nodes && AgedNode(h, parent, last);
    if FindIn(last, at, supervisor).Some? {
      if last.path != at { FindAged(h, Age(h, last.path), last.children, at, SupervisedBy(last)); }
    } else {
      AgedPrefix(h, parent, nodes, |nodes| - 1);
      FindAged(h, parent, nodes[..|nodes| - 1], at, supervisor);
    }
  }

  lemma {:induction false} AfterAged(h: seq<ActorPath>, parent: nat, n: Node, supervisor: Supervisor)
    requires AgedNode(h, parent, n)
    ensures AgedNode(h, parent, After(n, supervisor))
    ensures After(n, supervisor).path == n.path
    decreases n, 1
  {
    if n.status != Closed {
      LetEndAllAged(h, Age(h, n.path), n.children);
      AfterChildsAged(h, Age(h, n.path), n.children);
    }
  }

  lemma {:induction false} AfterChildsAged(h: seq<ActorPath>, parent: nat, children: seq<Node>)
    requires Aged(h, parent, children)
    ensures Aged(h, parent, AfterChilds(children))
    decreases children, 0
  {
    if children != [] {
      var (init, last) := (children[..|children| - 1], children[|children| - 1]);
      assert last in children;
      AgedPrefix(h, parent, children, |children| - 1);
      if StopSpec(last, Stopping).1 {
        AfterChildsAged(h, parent, init);
      } else {
        AfterAged(h, parent, last, Stopping);
        LetEndAllAged(h, parent, init);
        LetEndAllPaths(init);
        AgedSnoc(h, parent, LetEndAll(init), After(last, Stopping));
      }
    }
  }

  lemma {:induction false} LetEndAllPaths(nodes: seq<Node>)
    ensures |LetEndAll(nodes)| == |nodes|
    ensures forall i | 0 <= i < |nodes| && LetEndAll(nodes)[i].status != Closed ::
              nodes[i].status != Closed && LetEndAll(nodes)[i].path == nodes[i].path
    decreases |nodes|
  {
    if nodes != [] {
      LetEndAllPaths(nodes[..|nodes| - 1]);
      AfterPath(nodes[|nodes| - 1], NoOne);
    }
  }

  lemma {:induction false} LetEndAllAged(h: seq<ActorPath>, parent: nat, nodes: seq<Node>)
    requires Aged(h, parent, nodes)
    ensures Aged(h, parent, LetEndAll(nodes))
    decreases nodes, 0
  {
    if nodes != [] {
      var (init, last) := (nodes[..|nodes| - 1], nodes[|nodes| - 1]);
      assert last in nodes && AgedNode(h, parent, last);
      AgedPrefix(h, parent, nodes, |nodes| - 1);
      LetEndAllAged(h, parent, init);
      LetEndAllPaths(init);
      LetEndAged(h, parent, last);
      AgedSnoc(h, parent, LetEndAll(init), LetEnd(last));
    }
  }

  lemma {:induction false} LetEndAged(h: seq<ActorPath>, parent: nat, n: Node)
    requires AgedNode(h, parent, n)
    ensures AgedNode(h, parent, LetEnd(n)) && LetEnd(n).path == n.path
    decreases n, 2
  {
    if n.status == Ending {
      AfterAged(h, parent, n, NoOne);
    } else if n.status != Closed {
      LetEndAllAged(h, Age(h, n.path), n.children);
    }
  }

  // ---------------------------------------------------------- over runs

  ghost predicate InOrder(h: seq<ActorPath>, w: Population) {
    Aged(h, 0, w.roots) && AgedApart(h, w.orphans)
  }

  // The births of an operation are of paths that nothing runs under.
  lemma BirthsFree(w: Population, op: Op)
    requires Registered(w)
    ensures forall p | p in BirthsOf(w, op) :: p !in RunningBelow(w.roots) && p !in RunningBelow(w.orphans)
  {
    match op {
      case CreateRoot(start) => BirthsNew(w.actors, Div(User(), start.name), start);
      case CreateChild(parent, start) => BirthsNew(w.actors, Div(parent, start.name), start);
      case _ =>
    }
    forall p | p in BirthsOf(w, op) ensures p !in RunningBelow(w.roots) && p !in RunningBelow(w.orphans) {
      assert p !in multiset(w.actors);
    }
  }

  lemma ChangedInOrder(h: seq<ActorPath>, w: Population, at: ActorPath, m: Node)
    requires InOrder(h, w) && Locate(w, at).Some? && m.path == at
    requires m.status == Closed || Aged(h, Age(h, at), m.children)
    ensures InOrder(h, Changed(w, at, m))
  {
    if Find(w.roots, at, NoOne).Some? {
      PutAged(h, 0, w.roots, at, NoOne, m);
    } else {
      ApartPut(h, w.orphans, at, m);
    }
  }

  lemma {:induction false} ApartPut(h: seq<ActorPath>, nodes: seq<Node>, at: ActorPath, m: Node)
    requires AgedApart(h, nodes) && Find(nodes, at, NoOne).Some? && m.path == at
    requires m.status == Closed || Aged(h, Age(h, at), m.children)
    ensures AgedApart(h, Put(nodes, at, m))
    decreases |nodes|
  {
    var (init, last) := (nodes[..|nodes| - 1], nodes[|nodes| - 1]);
    if FindIn(last, at, NoOne).Some? {
      PutInAged(h, 0, last, at, NoOne, m);
    } else {
      ApartPut(h, init, at, m);
    }
  }

  lemma LocatedAged(h: seq<ActorPath>, w: Population, at: ActorPath)
    requires InOrder(h, w) && Locate(w, at).Some?
    ensures Aged(h, Age(h, at), Locate(w, at).value.node.children) && Age(h, at) > 0
  {
    if Find(w.roots, at, NoOne).Some? {
      FindAged(h, 0, w.roots, at, NoOne);
    } else {
      ApartFind(h, w.orphans, at);
    }
  }

  lemma {:induction false} ApartFind(h: seq<ActorPath>, nodes: seq<Node>, at: ActorPath)
    requires AgedApart(h, nodes) && Find(nodes, at, NoOne).Some?
    ensures Aged(h, Age(h, at), Find(nodes, at, NoOne).value.node.children) && Age(h, at) > 0
    decreases |nodes|
  {
    var last := nodes[|nodes| - 1];
    assert AgedNode(h, 0, last);
    if FindIn(last, at, NoOne).Some? {
      if last.path != at { FindAged(h, Age(h, last.path), last.children, at, SupervisedBy(last)); }
    } else {
      ApartFind(h, nodes[..|nodes| - 1], at);
    }
  }

  lemma {:induction false} CancelInOrder(h: seq<ActorPath>, roots: seq<Node>)
    requires Aged(h, 0, roots)
    ensures Aged(h, 0, ShutdownLeaves(roots).0) && AgedApart(h, ShutdownLeaves(roots).1)
    decreases |roots|
  {
    if roots != [] {
      var (older, root) := (roots[..|roots| - 1], roots[|roots| - 1]);
      assert root in roots;
      AgedPrefix(h, 0, roots, |roots| - 1);
      LetEndAllAged(h, 0, older);
      AfterAged(h, 0, root, NoOne);
      CancelInOrder(h, older);
      hide Aged, AgedNode, LetEndAll, After, StopSpec;
    }
  }

  lemma RootInOrder(h: seq<ActorPath>, w: Population, start: Start)
    requires Registered(w) && InOrder(h, w)
    ensures InOrder(h + BirthsOf(w, CreateRoot(start)), Step(w, CreateRoot(start)))
  {
    var path := Div(User(), start.name);
    var b := Births(w.actors, path, start);
    BirthsFree(w, CreateRoot(start));
    AgedLater(h, b, 0, w.roots);
    ApartLater(h, b, w.orphans);
    CreateAged(h, 0, w.actors, path, start);
    hide Births, CreateSpec, AgedNode, Age, From, Div;
    JoinYoungest(h, b, 0, w.roots, CreateSpec(w.actors, path, start).nodes);
  }

  lemma ChildInOrder(h: seq<ActorPath>, w: Population, parent: ActorPath, start: Start)
    requires Registered(w) && InOrder(h, w)
    requires Locate(w, parent).Some? && Locate(w, parent).value.node.status == Live
    ensures InOrder(h + BirthsOf(w, CreateChild(parent, start)), Step(w, CreateChild(parent, start)))
  {
    var path := Div(parent, start.name);
    var b := Births(w.actors, path, start);
    var c := CreateSpec(w.actors, path, start);
    var node := Locate(w, parent).value.node;
    BirthsFree(w, CreateChild(parent, start));
    AgedLater(h, b, 0, w.roots);
    ApartLater(h, b, w.orphans);
    LocatedAged(h, w, parent);
    LocatedAged(h + b, w, parent);
    LocatedRuns(w, parent);
    CreateAged(h, Age(h, parent), w.actors, path, start);
    AgeConcat(h, b, parent);
    hide Births, CreateSpec, AgedNode, Age, From, Div, Find, Put;
    JoinYoungest(h, b, Age(h, parent), node.children, c.nodes);
    ChangedInOrder(h + b, w, parent, node.(children := node.children + c.nodes));
  }

  lemma LocatedRuns(w: Population, at: ActorPath)
    requires Locate(w, at).Some?
    ensures var node := Locate(w, at).value.node;
            && (at in RunningBelow(w.roots) || at in RunningBelow(w.orphans))
            && forall p | p in RunningBelow(node.children) :: p in RunningBelow(w.roots) || p in RunningBelow(w.orphans)
  {
    FindRunning(w.roots, at, NoOne);
    FindRunning(w.orphans, at, NoOne);
    var node := Locate(w, at).value.node;
    forall p | p in RunningBelow(node.children)
      ensures p in RunningBelow(w.roots) || p in RunningBelow(w.orphans)
    {
      assert p in Running(node);
    }
  }

  lemma StepInOrder(h: seq<ActorPath>, w: Population, op: Op)
    requires Registered(w) && InOrder(h, w)
    ensures InOrder(h + BirthsOf(w, op), Step(w, op))
  {
    hide Births, CreateSpec, Aged, AgedNode, Age, From, Div, Find, Put, After, Gone;
    assert h + [] == h;
    match op
    case CreateRoot(start) => RootInOrder(h, w, start);
    case CreateChild(parent, start) =>
      if Locate(w, parent).Some? && Locate(w, parent).value.node.status == Live { ChildInOrder(h, w, parent, start); }
    case StopActor(at) =>
      if Locate(w, at).Some? { StopInOrder(h, w, at); }
    case ReportFault(at) =>
      if Locate(w, at).Some? {
        LocatedAged(h, w, at);
        ChangedInOrder(h, w, at, Locate(w, at).value.node.(status := Faulted));
      }
    case HearVerdict(at) =>
      if Locate(w, at).Some? {
        LocatedAged(h, w, at);
        ChangedInOrder(h, w, at, Locate(w, at).value.node.(status := Live));
      }
    case Cancel => CancelInOrder(h, w.roots);
  }

  lemma StopInOrder(h: seq<ActorPath>, w: Population, at: ActorPath)
    requires InOrder(h, w) && Locate(w, at).Some?
    ensures InOrder(h, Stopped(w, Locate(w, at).value))
  {
    var found := Locate(w, at).value;
    var v := w.(actors := Less(w.actors, Gone(found.node, found.supervisor)));
    LocatedAged(h, w, at);
    AfterAged(h, 0, found.node, found.supervisor);
    hide Age, Find, Put, After, Gone;
    ChangedInOrder(h, v, at, After(found.node, found.supervisor));
  }

  /** Over every run: in the tree, running siblings stand in the order of their
      creation. */
  lemma {:induction false} RunInOrder(ops: seq<Op>)
    ensures InOrder(History(ops), Run(ops))
    decreases |ops|
  {
    if ops != [] {
      var before := ops[..|ops| - 1];
      RunInOrder(before);
      RunKeepsRegistered(before);
      hide Registered, InOrder, Step, BirthsOf;
      StepInOrder(History(before), Run(before), ops[|ops| - 1]);
    }
  }

  // --------------------------------------------------- the new child

  lemma {:induction false} FindConcat(a: seq<Node>, b: seq<Node>, at: ActorPath)
    requires at !in RunningBelow(b)
    ensures Find(a + b, at, NoOne) == Find(a, at, NoOne)
    decreases |b|
  {
    if b == [] {
      assert a + b == a;
    } else {
      var (init, last) := (b[..|b| - 1], b[|b| - 1]);
      assert (a + b)[..|a + b| - 1] == a + init && (a + b)[|a + b| - 1] == last;
      FindInRunning(last, at, NoOne);
      FindConcat(a, init, at);
    }
  }

  // What a start leaves behind is new.
  lemma OrphansNew(w: Population, at: ActorPath, path: ActorPath, start: Start)
    requires Registered(w) && Locate(w, at).Some?
    ensures at !in RunningBelow(CreateSpec(w.actors, path, start).orphans)
  {
    LocatedRuns(w, at);
    CreateConserves(w.actors, path, start);
    var c := CreateSpec(w.actors, path, start);
    assert multiset(w.actors)[at] >= 1;
    assert multiset(c.actors)[at] == multiset(w.actors)[at] + RunningBelow(c.nodes)[at] + RunningBelow(c.orphans)[at];
  }

  /** A child that starts becomes the last of its parent's children, and the
      parent keeps the others as they were. */
  lemma ChildIsYoungest(w: Population, parent: ActorPath, start: Start)
    requires Registered(w) && Locate(w, parent).Some? && Locate(w, parent).value.node.status == Live
    requires Div(parent, start.name) !in w.actors && start.succeeds
    ensures var was := Locate(w, parent).value;
            var now := Locate(Step(w, CreateChild(parent, start)), parent);
            && now.Some? && now.value.supervisor == was.supervisor && now.value.node.status == Live
            && |now.value.node.children| == |was.node.children| + 1
            && now.value.node.children[..|was.node.children|] == was.node.children
            && var child := now.value.node.children[|was.node.children|];
               child.path == Div(parent, start.name) && child.status == Live
  {
    var found := Locate(w, parent).value;
    var c := CreateSpec(w.actors, Div(parent, start.name), start);
    var m := found.node.(children := found.node.children + c.nodes);
    var v := ChildCreated(w, found.node, start);
    assert |c.nodes| == 1 && c.nodes[0].path == Div(parent, start.name) && c.nodes[0].status == Live;
    if Find(w.roots, parent, NoOne).Some? {
      FindPut(w.roots, parent, NoOne, m);
    } else {
      FindPut(w.orphans, parent, NoOne, m);
      OrphansNew(w, parent, Div(parent, start.name), start);
      FindConcat(Put(w.orphans, parent, m), c.orphans, parent);
    }
  }

  // ----------------------------------------------- the order of removal

  /** Of two paths the one above the other comes first; otherwise, where they
      part, the older branch does. */
  ghost predicate Earlier(h: seq<ActorPath>, x: ActorPath, y: ActorPath) {
    || x.tokens < y.tokens
    || exists k | 0 <= k < |x.tokens| && k < |y.tokens| :: PartsAt(h, x, y, k)
  }

  predicate PartsAt(h: seq<ActorPath>, x: ActorPath, y: ActorPath, k: nat)
    requires k < |x.tokens| && k < |y.tokens|
  {
    && x.tokens[..k] == y.tokens[..k] && x.tokens[k] != y.tokens[k]
    && Age(h, ActorPath(x.tokens[..k + 1])) < Age(h, ActorPath(y.tokens[..k + 1]))
  }

  ghost predicate Sorted(h: seq<ActorPath>, paths: seq<ActorPath>) {
    forall i, j | 0 <= i < j < |paths| :: Earlier(h, paths[i], paths[j])
  }

  lemma {:induction false} LivePathsBelow(base: seq<string>, n: Node, p: ActorPath)
    requires TidyNode(base, n) && p in LivePaths(n)
    ensures n.status != Closed && n.path.tokens <= p.tokens
    decreases n, 1
  {
    if p != n.path { LiveBelowBelow(n.path.tokens, n.children, p); }
  }

  lemma {:induction false} LiveBelowBelow(base: seq<string>, nodes: seq<Node>, p: ActorPath)
    requires Tidy(base, nodes) && p in LiveBelow(nodes)
    ensures base < p.tokens
    ensures exists i | 0 <= i < |nodes| :: nodes[i].status != Closed && nodes[i].path.tokens <= p.tokens
    decreases nodes, 0
  {
    var (init, last) := (nodes[..|nodes| - 1], nodes[|nodes| - 1]);
    assert last in nodes && TidyNode(base, last);
    if p in LivePaths(last) {
      LivePathsBelow(base, last, p);
      assert nodes[|nodes| - 1].status != Closed && nodes[|nodes| - 1].path.tokens <= p.tokens;
    } else {
      LiveBelowBelow(base, init, p);
      var i :| 0 <= i < |init| && init[i].status != Closed && init[i].path.tokens <= p.tokens;
      assert nodes[i] == init[i];
    }
  }

  // Two running siblings part the paths below them, the older one first.
  lemma SiblingsPart(h: seq<ActorPath>, base: seq<string>, c: Node, d: Node, x: ActorPath, y: ActorPath)
    requires TidyNode(base, c) && TidyNode(base, d) && Age(h, c.path) < Age(h, d.path)
    requires c.path.tokens <= x.tokens && d.path.tokens <= y.tokens
    ensures Earlier(h, x, y)
  {
    hide Age, Tidy;
    var k := |base|;
    assert x.tokens[..k + 1] == c.path.tokens && y.tokens[..k + 1] == d.path.tokens;
    assert x.tokens[..k] == c.path.tokens[..k] == base && y.tokens[..k] == d.path.tokens[..k] == base;
    assert c.path.tokens == base + [x.tokens[k]] && d.path.tokens == base + [y.tokens[k]];
    assert c.path != d.path;
    assert PartsAt(h, x, y, k);
  }

  lemma {:induction false} LivePathsSorted(h: seq<ActorPath>, base: seq<string>, parent: nat, n: Node)
    requires TidyNode(base, n) && AgedNode(h, parent, n)
    ensures Sorted(h, LivePaths(n))
    decreases n, 1
  {
    if n.status != Closed && n.status != Ending {
      LiveBelowSorted(h, n.path.tokens, Age(h, n.path), n.children);
      var below := LiveBelow(n.children);
      forall j | 0 <= j < |below| ensures Earlier(h, n.path, below[j]) {
        LiveBelowBelow(n.path.tokens, n.children, below[j]);
      }
      SortedConcat(h, [n.path], below);
    }
  }

  lemma SortedConcat(h: seq<ActorPath>, a: seq<ActorPath>, b: seq<ActorPath>)
    requires Sorted(h, a) && Sorted(h, b)
    requires forall i, j | 0 <= i < |a| && 0 <= j < |b| :: Earlier(h, a[i], b[j])
    ensures Sorted(h, a + b)
  {
    hide Earlier;
    var all := a + b;
    forall i, j | 0 <= i < j < |all| ensures Earlier(h, all[i], all[j]) {
      if i >= |a| { assert all[i] == b[i - |a|] && all[j] == b[j - |a|]; }
    }
  }

  lemma {:induction false} LiveBelowSorted(h: seq<ActorPath>, base: seq<string>, parent: nat, nodes: seq<Node>)
    requires Tidy(base, nodes) && Aged(h, parent, nodes)
    ensures Sorted(h, LiveBelow(nodes))
    decreases nodes, 0
  {
    if nodes != [] {
      var (init, last) := (nodes[..|nodes| - 1], nodes[|nodes| - 1]);
      assert last in nodes && TidyNode(base, last) && AgedNode(h, parent, last);
      AgedPrefix(h, parent, nodes, |nodes| - 1);
      LiveBelowSorted(h, base, parent, init);
      LivePathsSorted(h, base, parent, last);
      var (a, b) := (LiveBelow(init), LivePaths(last));
      forall i, j | 0 <= i < |a| && 0 <= j < |b| ensures Earlier(h, a[i], b[j]) {
        LiveBelowBelow(base, init, a[i]);
        var k :| 0 <= k < |init| && init[k].status != Closed && init[k].path.tokens <= a[i].tokens;
        assert nodes[k] == init[k] && nodes[k] in nodes && TidyNode(base, nodes[k]);
        LivePathsBelow(base, last, b[j]);
        SiblingsPart(h, base, nodes[k], last, a[i], b[j]);
      }
      SortedConcat(h, a, b);
    }
  }

  /** Over every run with names of one token: an answered stop removes the actors
      it stops in the reverse of this order, read off the history of creations.
      Of two of them the one below the other goes first; otherwise, where their
      paths part, the younger branch does. */
  lemma StopByAge(ops: seq<Op>, at: ActorPath)
    requires Named(ops) && Find(Run(ops).roots, at, NoOne).Some?
    requires var found := Find(Run(ops).roots, at, NoOne).value; NoneDeaf(found.node, found.supervisor)
    ensures var found := Find(Run(ops).roots, at, NoOne).value;
            Sorted(History(ops), Reverse(Removals(StopSpec(found.node, found.supervisor).0)))
  {
    var (w, h) := (Run(ops), History(ops));
    var found := Find(w.roots, at, NoOne).value;
    RunInOrder(ops);
    RunKeepsTidy(ops);
    hide Run, History, From;
    StopOrder(found.node, found.supervisor);
    FindBelow(User().tokens, w.roots, at, NoOne);
    FindAged(h, 0, w.roots, at, NoOne);
    var base := at.tokens[..|at.tokens| - 1];
    assert TidyNode(base, found.node) && AgedNode(h, 0, found.node);
    LivePathsSorted(h, base, 0, found.node);
    var paths := LivePaths(found.node);
    assert Reverse(Reverse(paths)) == paths;
  }

  /** So of two siblings the one created later is removed earlier. */
  lemma YoungerSiblingFirst(h: seq<ActorPath>, removed: seq<ActorPath>, i: nat, j: nat)
    requires Sorted(h, Reverse(removed)) && i < |removed| && j < |removed| && removed[i] != removed[j]
    requires |removed[i].tokens| == |removed[j].tokens| > 0 && Parent(removed[i]) == Parent(removed[j])
    requires Age(h, removed[i]) < Age(h, removed[j])
    ensures j < i
  {
    hide Age, Earlier;
    var paths := Reverse(removed);
    if i < j {
      assert paths[|removed| - 1 - j] == removed[j] && paths[|removed| - 1 - i] == removed[i];
      SiblingsByAge(h, removed[j], removed[i]);
    }
  }

  lemma SiblingsByAge(h: seq<ActorPath>, x: ActorPath, y: ActorPath)
    requires Earlier(h, x, y) && x != y && |x.tokens| == |y.tokens| > 0 && Parent(x) == Parent(y)
    ensures Age(h, x) < Age(h, y)
  {
    hide Age;
    var k :| 0 <= k < |x.tokens| && k < |y.tokens| && PartsAt(h, x, y, k);
    var n := |x.tokens| - 1;
    assert forall m | 0 <= m < n :: Parent(x).tokens[m] == x.tokens[m] && Parent(y).tokens[m] == y.tokens[m];
    assert k == n;
    assert x.tokens[..k + 1] == x.tokens && y.tokens[..k + 1] == y.tokens;
  }
}
