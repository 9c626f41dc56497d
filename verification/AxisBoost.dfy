/** The boost of an axis leaf near the position goal: it needs the cached tool position, and the evaluation
    order decides whether that is there. */
module AxisBoost {
  import opened LinearAlgebra
  import opened RmpConfig
  import opened TopologicalOrder
  import opened Elementary
  import opened ChainRule
  import opened TaskMaps
  import opened TaskGraph
  import opened GraphBuild
  import opened RmpLeaves
  import opened DirectSolver
  import opened EigenSolver
  import opened GraphRefinement
  import opened DefaultGraph

  const TOOL := "tcp_position"

  // ----- when the distance is known

  /** The nodes carry these names, as the built solver's do. */
  ghost predicate Carry(nodes: seq<Compiled>, names: seq<string>) {
    |nodes| == |names| && forall i | 0 <= i < |names| :: nodes[i].node.name == names[i]
  }

  lemma CacheHas(e: Env, nodes: seq<Compiled>, names: seq<string>, q: Vec)
    requires ValidEnv(e) && |q| == JOINTS && Carry(nodes, names) && Run(e, nodes, q).Ok?
    ensures Run(e, nodes, q).value.cache.Keys == {"root"} + Elements(names)
  {
    hide ValidEnv, Run, EvaluateAll;
    EnvFacts(e);
    RunEvaluates(e, nodes, q);
    CacheNames(names, nodes, e.world, q, e.inputs.qd);
  }

  lemma EnvFacts(e: Env)
    requires ValidEnv(e)
    ensures ValidWorld(e.world) && ValidInputs(e.inputs) && |e.inputs.qd| == JOINTS
  {
  }

  /** Where the position target is enabled and has a goal. */
  predicate GoalGiven(e: Env) { NodeEnabled(e.config, "target") && "goal" in e.inputs.targets }

  /** At node `k` of the built order the distance to the goal is known exactly when the position target is enabled,
      its goal is given, and `tcp_position` is among the nodes evaluated so far, as a 3-vector. */
  lemma DistanceKnownIff(e: Env, names: seq<string>, nodes: seq<Compiled>, k: nat, q: Vec)
    requires ValidEnv(e) && |q| == JOINTS && Carry(nodes, names) && k < |nodes| && Run(e, nodes[..k + 1], q).Ok?
    ensures var cache := Run(e, nodes[..k + 1], q).value.cache;
      GoalDistance(e, cache).Some? <==> GoalGiven(e) && TOOL in names[..k + 1] && TOOL in cache && |cache[TOOL].x| == 3
  {
    hide ValidEnv, Run;
    CarryFront(nodes, names, k + 1);
    CacheHas(e, nodes[..k + 1], names[..k + 1], q);
    var cache := Run(e, nodes[..k + 1], q).value.cache;
    assert TOOL in cache.Keys <==> TOOL in Elements(names[..k + 1]);
  }

  lemma CarryFront(nodes: seq<Compiled>, names: seq<string>, k: nat)
    requires Carry(nodes, names) && k <= |nodes|
    ensures Carry(nodes[..k], names[..k])
  {
  }

  // ----- what the order does to a root-level axis leaf

  ghost predicate RootLevel(g: Graph, name: string) { name in g && forall p | p in g[name] :: p == "root" }

  /** A node that depends on the root alone is ready until it is taken. */
  lemma ReadyUntilTaken(g: Graph, names: seq<string>, i: nat, j: nat)
    requires GreedyPrefix(g, names) && j <= i < |names| && RootLevel(g, names[i])
    ensures Ready(g, Elements(names[..j]), names[i])
  {
    GreedyDistinct(g, names);
    assert forall k | 0 <= k < j :: names[..j][k] == names[k];
  }

  lemma LeastTaken(g: Graph, names: seq<string>, j: nat, other: string)
    requires GreedyPrefix(g, names) && j < |names| && Ready(g, Elements(names[..j]), other)
    ensures !Before(other, names[j])
  {
  }

  /** Root-level nodes are evaluated in the order of their names. */
  lemma RootLevelOrder(g: Graph, names: seq<string>, i: nat, j: nat)
    requires GreedyPrefix(g, names) && i < |names| && j < |names| && RootLevel(g, names[i]) && RootLevel(g, names[j])
    ensures i < j <==> Before(names[i], names[j])
  {
    hide GreedyPrefix, Ready, Elements, Before, RootLevel;
    if j < i {
      ReadyUntilTaken(g, names, i, j);
      LeastTaken(g, names, j, names[i]);
    } else if i < j {
      ReadyUntilTaken(g, names, j, i);
      LeastTaken(g, names, i, names[j]);
      GreedyDistinct(g, names);
      BeforeTotal(names[i], names[j]);
    } else {
      BeforeIrreflexive(names[i]);
    }
  }

  /** A root-level `tcp_position` is evaluated by the time of another root-level node exactly when that node's name
      does not come before it. */
  lemma ToolSeenIff(g: Graph, names: seq<string>, k: nat)
    requires LeastReadyOrder(g, names) && k < |names| && RootLevel(g, names[k]) && RootLevel(g, TOOL)
    ensures TOOL in names[..k + 1] <==> !Before(names[k], TOOL)
  {
    hide Before;
    assert TOOL in Elements(names);
    var j :| 0 <= j < |names| && names[j] == TOOL;
    RootLevelOrder(g, names, k, j);
    GreedyDistinct(g, names);
    if j <= k { assert names[..k + 1][j] == TOOL; }
  }

  /** The cached tool position is the context's. */
  lemma {:induction false} ToolCached(e: Env, names: seq<string>, nodes: seq<Compiled>, q: Vec)
    requires ValidEnv(e) && |q| == JOINTS && Carry(nodes, names) && Run(e, nodes, q).Ok? && TOOL in names
    requires forall i, j | 0 <= i < j < |names| :: names[i] != names[j]
    requires forall i | 0 <= i < |nodes| && names[i] == TOOL :: nodes[i].node.taskMap == TcpPosition
    ensures TOOL in Run(e, nodes, q).value.cache && Run(e, nodes, q).value.cache[TOOL] == e.world.context.tcp
  {
    hide ValidEnv, LeafTerms, GoalDistance, ParentsOf, EvaluateCasadi;
    EnvFacts(e);
    var k := |nodes| - 1;
    if names[k] == TOOL {
      NativeTool(nodes[k], e.world, Run(e, nodes[..k], q).value.cache);
    } else {
      var j :| 0 <= j < |names| && names[j] == TOOL;
      assert names[..k][j] == TOOL;
      ToolCached(e, names[..k], nodes[..k], q);
    }
  }

  lemma NativeTool(c: Compiled, w: World, cache: Cache)
    requires ValidWorld(w) && ValidCache(cache) && c.node.taskMap == TcpPosition && EvaluateNode(c, w, cache).Ok?
    ensures EvaluateNode(c, w, cache).value == w.context.tcp
  {
    hide ValidWorld;
  }

  /** An axis leaf that can be evaluated. */
  ghost predicate AxisNode(e: Env, c: Compiled, g: Geometry) {
    && c.node.leaf == AxisTarget && c.node.handcraftedLeaf == NoLeaf && c.node.targetKey in e.inputs.targets
    && Shaped(g) && |g.x| == 3 && |e.inputs.targets[c.node.targetKey]| == 3
  }

  /** The term an axis leaf adds at a given distance, known or not. */
  function AxisLeaf(e: Env, c: Compiled, g: Geometry, distance: Option<real>): (t: Term)
    requires AxisNode(e, c, g)
    ensures ValidTerm(t)
  {
    AxisTerm(e.params.axis, e.world.lib, g, e.inputs.targets[c.node.targetKey], distance, g.velocity, g.curvature)
  }

  lemma AxisVisit(e: Env, nodes: seq<Compiled>, k: nat, q: Vec, p: Progress, g: Geometry)
    requires ValidEnv(e) && |q| == JOINTS && k < |nodes| && Run(e, nodes[..k], q) == Ok(p)
    requires EvaluateNode(nodes[k], e.world, p.cache) == Ok(g) && AxisNode(e, nodes[k], g)
    ensures var after := p.cache[nodes[k].node.name := g];
      Run(e, nodes[..k + 1], q) == Ok(Progress(after, p.terms + [AxisLeaf(e, nodes[k], g, GoalDistance(e, after))]))
  {
    hide ValidEnv, EvaluateNode, GoalDistance;
    EnvFacts(e);
    assert nodes[..k + 1][..k] == nodes[..k] && nodes[..k + 1][k] == nodes[k];
    var t := AxisLeaf(e, nodes[k], g, GoalDistance(e, p.cache[nodes[k].node.name := g]));
    assert [t] + [] == [t];
  }

  /** The distance of the tool from the position goal. */
  function ToolDistance(e: Env): real
    requires "goal" in e.inputs.targets && |e.inputs.targets["goal"]| == |e.world.context.tcp.x|
  {
    Norm(e.world.lib, Minus(e.inputs.targets["goal"], e.world.context.tcp.x))
  }

  /** With the position target enabled and its goal given, the term of a root-level axis leaf carries the boost for the
      tool's distance if and only if the leaf's node does not come before `tcp_position` in name order. */
  lemma BoostReachesIff(e: Env, g: Graph, names: seq<string>, nodes: seq<Compiled>, k: nat, q: Vec, p: Progress, geometry: Geometry)
    requires ValidEnv(e) && |q| == JOINTS && LeastReadyOrder(g, names) && Carry(nodes, names) && k < |nodes|
    requires RootLevel(g, names[k]) && RootLevel(g, TOOL) && GoalGiven(e)
    requires forall i | 0 <= i < |nodes| && names[i] == TOOL :: nodes[i].node.taskMap == TcpPosition
    requires Run(e, nodes[..k], q) == Ok(p) && EvaluateNode(nodes[k], e.world, p.cache) == Ok(geometry) && AxisNode(e, nodes[k], geometry)
    ensures |e.inputs.targets["goal"]| == |e.world.context.tcp.x| == 3
    ensures Run(e, nodes[..k + 1], q).Ok?
    ensures Run(e, nodes[..k + 1], q).value.terms
         == p.terms + [AxisLeaf(e, nodes[k], geometry, if Before(names[k], TOOL) then None else Some(ToolDistance(e)))]
  {
    hide Run, EvaluateNode, LeastReadyOrder, Before, AxisLeaf, RootLevel, LeafTerms;
    TargetLengths(e);
    AxisVisit(e, nodes, k, q, p, geometry);
    DistanceKnownIff(e, names, nodes, k, q);
    ToolSeenIff(g, names, k);
    GreedyOf(g, names);
    GreedyDistinct(g, names);
    CarryFront(nodes, names, k + 1);
    if TOOL in names[..k + 1] { ToolCached(e, names[..k + 1], nodes[..k + 1], q); }
  }

  lemma GreedyOf(g: Graph, names: seq<string>)
    requires LeastReadyOrder(g, names)
    ensures GreedyPrefix(g, names)
  {
  }

  lemma TargetLengths(e: Env)
    requires ValidEnv(e) && "goal" in e.inputs.targets
    ensures |e.inputs.targets["goal"]| == |e.world.context.tcp.x| == 3
  {
  }

  // ----- the default graph with an axis target

  const AXIS := "tcp_orientation"

  function AxisTargetNode(): RmpNode {
    SimpleNode(AXIS, "root", LinkOrientationAxis, AxisTarget, true).(targetKey := "orientation_goal")
  }

  /** The default configuration with its last node enabled as an axis target. */
  function OrientedNodes(): (r: seq<RmpNode>)
    ensures |r| == 10
  {
    DefaultNode(0);
    DefaultGraphNodes()[9 := AxisTargetNode()]
  }

  const ORIENTED_ORDER: seq<string> := ORDER[..6] + [AXIS] + ORDER[6..]

  lemma AxisIsNew()
    ensures AXIS !in DEFAULT_GRAPH
  {
  }

  lemma OrientedNode(i: nat)
    requires i < 10
    ensures var n := OrientedNodes()[i];
      && (n.enabled <==> i != 8)
      && (i < 8 ==> n.name in DEFAULT_GRAPH && DEFAULT_GRAPH[n.name] == n.parents && Position(n.name) == i)
      && (i == 9 ==> n.name == AXIS && n.parents == ["root"])
  {
    hide DefaultGraphNodes, DEFAULT_GRAPH, Position, AXIS;
    DefaultNode(i);
  }

  lemma Unchanged(i: nat)
    requires i < 9
    ensures |DefaultGraphNodes()| == 10 && OrientedNodes()[i] == DefaultGraphNodes()[i]
  {
    DefaultNode(0);
    hide DefaultGraphNodes;
  }

  lemma OrientedGraphIs()
    ensures NoDuplicates(OrientedNodes()) && GraphOf(OrientedNodes()) == DEFAULT_GRAPH[AXIS := ["root"]]
    ensures AXIS !in DEFAULT_GRAPH
  {
    hide DefaultGraphNodes, OrientedNodes, DEFAULT_GRAPH, Position, AXIS;
    var nodes := OrientedNodes();
    AxisIsNew();
    DefaultNode(0);
    forall i | 0 <= i < 10
      ensures nodes[i].enabled <==> i != 8
      ensures i < 8 ==>
        nodes[i].name in DEFAULT_GRAPH && DEFAULT_GRAPH[nodes[i].name] == nodes[i].parents && Position(nodes[i].name) == i
      ensures i == 9 ==> nodes[i].name == AXIS && nodes[i].parents == ["root"]
    {
      OrientedNode(i);
    }
    assert NoDuplicates(nodes);
    forall name | name in DEFAULT_GRAPH[AXIS := ["root"]]
      ensures name in GraphOf(nodes)
    {
      if name == AXIS {
        assert nodes[9].name in GraphOf(nodes);
      } else {
        DefaultName(name);
        Unchanged(Position(name));
        assert nodes[Position(name)].name in GraphOf(nodes);
      }
    }
  }

  /** A new root-level node that nothing depends on joins a least-ready order where its name belongs. */
  lemma InsertRootLevel(g: Graph, names: seq<string>, name: string, i: nat)
    requires LeastReadyOrder(g, names) && i <= |names| && name !in g && forall x | x in g :: name !in g[x]
    requires forall k | 0 <= k < i :: !Before(name, names[k])
    requires forall x | Ready(g, Elements(names[..i]), x) :: !Before(x, name)
    ensures LeastReadyOrder(g[name := ["root"]], names[..i] + [name] + names[i..])
  {
    hide Before, Ready, Elements;
    var after, order := g[name := ["root"]], names[..i] + [name] + names[i..];
    forall k | 0 <= k < |order|
      ensures Ready(after, Elements(order[..k]), order[k])
      ensures forall x | Ready(after, Elements(order[..k]), x) :: !Before(x, order[k])
    {
      InsertedAt(g, names, name, i, k);
    }
    InsertedAll(g, names, name, i);
  }

  lemma InsertedAll(g: Graph, names: seq<string>, name: string, i: nat)
    requires Elements(names) == g.Keys && i <= |names|
    ensures Elements(names[..i] + [name] + names[i..]) == g[name := ["root"]].Keys
  {
    assert names == names[..i] + names[i..];
  }

  lemma InsertedAt(g: Graph, names: seq<string>, name: string, i: nat, k: nat)
    requires LeastReadyOrder(g, names) && i <= |names| && k <= |names| && name !in g && forall x | x in g :: name !in g[x]
    requires forall j | 0 <= j < i :: !Before(name, names[j])
    requires forall x | Ready(g, Elements(names[..i]), x) :: !Before(x, name)
    ensures var after, order := g[name := ["root"]], names[..i] + [name] + names[i..];
      Ready(after, Elements(order[..k]), order[k]) && forall x | Ready(after, Elements(order[..k]), x) :: !Before(x, order[k])
  {
    hide Before, Ready, Elements;
    var order := names[..i] + [name] + names[i..];
    BeforeIrreflexive(name);
    if k <= i {
      assert order[..k] == names[..k];
      NotTaken(g, names, name, k);
      ReadyBefore(g, name, Elements(names[..k]));
      if k < i {
        assert order[k] == names[k];
        assert Ready(g, Elements(names[..k]), names[k]);
      } else {
        assert order[k] == name && names[..k] == names[..i];
      }
    } else {
      InsertedTake(names, name, i, k);
      ReadyAfter(g, name, Elements(names[..k - 1]));
      assert order[k] == names[k - 1];
    }
  }

  lemma NotTaken(g: Graph, names: seq<string>, name: string, k: nat)
    requires LeastReadyOrder(g, names) && k <= |names| && name !in g
    ensures name !in Elements(names[..k])
  {
    assert forall x | x in names[..k] :: x in names;
    assert name !in Elements(names);
  }

  lemma InsertedTake(names: seq<string>, name: string, i: nat, k: nat)
    requires i < k <= |names| + 1 && i <= |names|
    ensures Elements((names[..i] + [name] + names[i..])[..k]) == Elements(names[..k - 1]) + {name}
  {
    assert (names[..i] + [name] + names[i..])[..k] == names[..i] + [name] + names[i..k - 1];
    assert names[..k - 1] == names[..i] + names[i..k - 1];
  }

  lemma ReadyBefore(g: Graph, name: string, done: set<string>)
    requires name !in g && name !in done
    ensures Ready(g[name := ["root"]], done, name)
    ensures forall x | x != name :: Ready(g[name := ["root"]], done, x) <==> Ready(g, done, x)
  {
    var after := g[name := ["root"]];
    assert forall p | p in after[name] :: p == "root";
    assert Ready(after, done, name);
  }

  lemma ReadyAfter(g: Graph, name: string, done: set<string>)
    requires name !in g && forall x | x in g :: name !in g[x]
    ensures forall x :: Ready(g[name := ["root"]], done + {name}, x) <==> Ready(g, done, x)
  {
  }

  lemma AxisBeforeTool()
    ensures Before(AXIS, TOOL)
  {
    hide Before;
    InitialBefore("orientation", "position");
    PrefixBefore("tcp_", "orientation", "position");
    assert AXIS == "tcp_" + "orientation" && TOOL == "tcp_" + "position";
  }

  lemma AxisAfter(k: nat)
    requires k < 6
    ensures !Before(AXIS, ORDER[k])
  {
    hide Before;
    InitialBefore(ORDER[k], AXIS);
    BeforeAsymmetric(ORDER[k], AXIS);
  }

  lemma ReadyAtSix(x: string)
    requires Ready(DEFAULT_GRAPH, Elements(ORDER[..6]), x)
    ensures x == TOOL
  {
    var j := IndexOf(x);
    TakenAt(6);
    assert TOOL in DEFAULT_GRAPH["target"];
  }

  /** The configured graph is evaluated in this order: the axis node right before the tool position. */
  lemma OrientedOrder(names: seq<string>)
    requires NoDuplicates(OrientedNodes())
    ensures LeastReadyOrder(GraphOf(OrientedNodes()), names) <==> names == ORIENTED_ORDER
  {
    hide Before, LeastReadyOrder, Ready;
    DefaultGraphIs();
    DefaultOrder(ORDER);
    OrientedGraphIs();
    forall k | 0 <= k < 6
      ensures !Before(AXIS, ORDER[k])
    {
      AxisAfter(k);
    }
    forall x | Ready(DEFAULT_GRAPH, Elements(ORDER[..6]), x)
      ensures !Before(x, AXIS)
    {
      ReadyAtSix(x);
      AxisBeforeTool();
      BeforeAsymmetric(AXIS, TOOL);
    }
    NothingNeedsAxis();
    InsertRootLevel(DEFAULT_GRAPH, ORDER, AXIS, 6);
    var g := GraphOf(OrientedNodes());
    if LeastReadyOrder(g, names) { OrderUnique(g, names, ORIENTED_ORDER); }
  }

  lemma NothingNeedsAxis()
    ensures forall x | x in DEFAULT_GRAPH :: AXIS !in DEFAULT_GRAPH[x]
  {
  }

  /** Its nodes in evaluation order. */
  function OrientedCompiled(): (r: seq<Compiled>)
    ensures |r| == 9
  {
    DefaultCompiled()[..6] + [Compiled(AxisTargetNode(), [])] + DefaultCompiled()[6..]
  }

  /** The arm has a `tcp` link whose axis is a direction, and an orientation goal is given. */
  ghost predicate Oriented(e: Env, s: Scene) {
    && SameScene(e, s) && "tcp" in e.world.context.links && "orientation_goal" in e.inputs.targets
  }

  ghost function AxisGeometryOf(e: Env, s: Scene): (g: Geometry)
    requires Oriented(e, s)
    ensures Shaped(g) && |g.x| == 3
  {
    AxisGeometry(e.world.context.links["tcp"], Unit(3, 2))
  }

  lemma AxisFacts(e: Env, s: Scene)
    requires Oriented(e, s)
    ensures ValidEnv(e) && ValidWorld(e.world) && |s.q| == JOINTS && AxisNode(e, Compiled(AxisTargetNode(), []), AxisGeometryOf(e, s))
    ensures EvaluateNative(AxisTargetNode(), e.world, [RootOf(s)]) == Ok(AxisGeometryOf(e, s))
    ensures "goal" in e.inputs.targets && |e.inputs.targets["goal"]| == |e.world.context.tcp.x| == 3
  {
    hide AxisGeometry;
  }

  ghost function OrientedLeaf(e: Env, s: Scene, distance: Option<real>): (t: Term)
    requires Oriented(e, s)
    ensures ValidTerm(t)
  {
    AxisFacts(e, s);
    AxisLeaf(e, Compiled(AxisTargetNode(), []), AxisGeometryOf(e, s), distance)
  }

  function WithLeaf(early: seq<Term>, leaf: Term, s: Scene): (ts: seq<Term>)
    requires ValidTerms(early) && ValidTerm(leaf) && ValidScene(s)
    ensures ValidTerms(ts)
  {
    early + [leaf] + [TargetTerm(s.params.target, s.lib, s.tcp, s.goal)]
  }

  /** The terms with the axis leaf at a given distance. */
  ghost function OrientedTerms(e: Env, s: Scene, distance: Option<real>): (ts: seq<Term>)
    requires Oriented(e, s)
    ensures ValidTerms(ts)
  {
    WithLeaf(EarlyTerms(e, s), OrientedLeaf(e, s, distance), s)
  }

  /** A run of this solver accumulates the axis leaf without the boost, although the position target is enabled and
      its goal is given. */
  lemma OrientedRun(e: Env, s: Scene)
    requires Oriented(e, s) && GoalGiven(e)
    ensures ValidEnv(e) && |s.q| == JOINTS
    ensures Run(e, OrientedCompiled(), s.q).Ok? && Run(e, OrientedCompiled(), s.q).value.terms == OrientedTerms(e, s, None)
  {
    hide SameScene, ValidEnv, ValidWorld, ValidInputs, Run, EarlyTerms, TargetTerm, DefaultNodeAt, Shaped, AxisGeometryOf, AxisLeaf, RootOf,
      AxisNode, EvaluateNative, LeafTerms, LeastReadyOrder, RootLevel, Before, DefaultGraphNodes;
    var nodes := OrientedCompiled();
    var cache := FirstSix(e, s);
    AxisFacts(e, s);
    var g := AxisGeometryOf(e, s);
    assert nodes[..6] == DefaultCompiled()[..6];
    OneParent(nodes[6], e.world, cache, "root");
    OrientedGraphIs();
    OrientedOrder(ORIENTED_ORDER);
    OrientedCarry();
    AxisBeforeTool();
    OrientedLevels();
    BoostReachesIff(e, GraphOf(OrientedNodes()), ORIENTED_ORDER, nodes, 6, s.q, Progress(cache, EarlyTerms(e, s)), g);
    AxisVisit(e, nodes, 6, s.q, Progress(cache, EarlyTerms(e, s)), g);
    LastTwo(e, s, cache[AXIS := g], EarlyTerms(e, s) + [AxisLeaf(e, nodes[6], g, None)]);
  }

  lemma OrientedLevels()
    ensures var g := GraphOf(OrientedNodes()); RootLevel(g, ORIENTED_ORDER[6]) && RootLevel(g, TOOL)
  {
    OrientedGraphIs();
  }

  lemma OrientedCarry()
    ensures Carry(OrientedCompiled(), ORIENTED_ORDER)
    ensures forall i | 0 <= i < 9 && ORIENTED_ORDER[i] == TOOL :: OrientedCompiled()[i].node.taskMap == TcpPosition
  {
    NodesAre();
    hide DefaultNodeAt, DefaultGraphNodes;
  }

  lemma LastTwo(e: Env, s: Scene, cache: Cache, ts: seq<Term>)
    requires Oriented(e, s) && ValidEnv(e) && |s.q| == JOINTS && ValidCache(cache) && "root" in cache && ValidTerms(ts)
    requires Run(e, OrientedCompiled()[..7], s.q) == Ok(Progress(cache, ts))
    ensures Run(e, OrientedCompiled(), s.q).Ok?
    ensures Run(e, OrientedCompiled(), s.q).value.terms == ts + [TargetTerm(s.params.target, s.lib, s.tcp, s.goal)]
  {
    hide SameScene, ValidEnv, Run, TargetTerm, DefaultNodeAt, Shaped, ValidTerm;
    var nodes := OrientedCompiled();
    NodesAre();
    SceneFacts(e, s);
    ToolNodes(e, s, cache["root"]);
    OneParent(nodes[7], e.world, cache, "root");
    RunStep(e, nodes, 7, s.q, Progress(cache, ts), s.tcp, []);
    var after := cache[TOOL := s.tcp];
    assert ts + [] == ts;
    OneParent(nodes[8], e.world, after, TOOL);
    RunStep(e, nodes, 8, s.q, Progress(after, ts), s.tcp, [TargetTerm(s.params.target, s.lib, s.tcp, s.goal)]);
    assert nodes[..9] == nodes;
  }

  lemma ToolNodes(e: Env, s: Scene, root: Geometry)
    requires Oriented(e, s) && Shaped(root)
    ensures ValidWorld(e.world) && ValidInputs(e.inputs) && Shaped(s.tcp) && |s.tcp.x| == |s.goal|
    ensures EvaluateNative(DefaultNodeAt(6), e.world, [root]) == Ok(s.tcp) && EvaluateNative(DefaultNodeAt(7), e.world, [s.tcp]) == Ok(s.tcp)
    ensures forall d :: LeafTerms(DefaultNodeAt(6).leaf, DefaultNodeAt(6), s.tcp, e.params, e.world.lib, e.inputs, d) == Ok([])
    ensures forall d :: LeafTerms(DefaultNodeAt(7).leaf, DefaultNodeAt(7), s.tcp, e.params, e.world.lib, e.inputs, d)
                     == Ok([TargetTerm(s.params.target, s.lib, s.tcp, s.goal)])
  {
    hide DefaultNodeAt, TargetTerm, ValidWorld;
    NodesAre();
    SceneFacts(e, s);
    TcpShaped(s);
  }

  // ----- what the missing boost does to the root metric

  lemma {:induction false} EnergyConcat(a: seq<Term>, b: seq<Term>, v: Vec)
    requires ValidTerms(a) && ValidTerms(b) && |v| == JOINTS
    ensures Energy(a + b, v) == Energy(a, v) + Energy(b, v)
  {
    hide Form, ValidTerm;
    if b == [] {
      assert a + b == a;
    } else {
      var k := |b| - 1;
      EnergyConcat(a, b[..k], v);
      assert (a + b)[..|a| + k] == a + b[..k] && (a + b)[|a| + k] == b[k];
    }
  }

  /** The energy of an axis leaf: its scalar times the squared speed of the axis. */
  lemma AxisEnergy(e: Env, c: Compiled, g: Geometry, d: Option<real>, v: Vec)
    requires AxisNode(e, c, g) && |v| == JOINTS
    ensures var u := Dots(g.jacobian, v);
      Energy([AxisLeaf(e, c, g, d)], v) == Times(AxisScalar(e.params.axis, e.world.lib, d), Dot(u, u))
  {
    hide Dot, AxisScalar, Normalized;
    var t, u := AxisLeaf(e, c, g, d), Dots(g.jacobian, v);
    assert [t][..0] == [];
    var k := AxisScalar(e.params.axis, e.world.lib, d);
    ScaledIdentityForm(k, u);
  }

  lemma ScaledIdentityForm(k: real, u: Vec)
    ensures Form(MatScale(k, Identity(|u|)), u, u) == Times(k, Dot(u, u))
  {
    MatScaleForm(k, Identity(|u|), u, u);
    IdentityForm(u, u);
    TimesOf(k, Dot(u, u));
  }

  lemma {:induction false} ZeroPullback(j: seq<Vec>, b: seq<Vec>)
    requires |j| == |b| && IsMatrix(b, JOINTS) && forall i | 0 <= i < |j| :: j[i] == Zero(JOINTS)
    ensures IsMatrix(j, JOINTS) && TransposeMul(j, b, JOINTS) == ZeroMatrix(JOINTS, JOINTS)
  {
    if j != [] {
      ZeroPullback(j[1..], b[1..]);
      var o := Outer(j[0], b[0]);
      forall r | 0 <= r < JOINTS
        ensures o[r] == Zero(JOINTS)
      {
        ZeroScaled(b[0]);
      }
      var z := ZeroMatrix(JOINTS, JOINTS);
      assert o == z;
      forall r | 0 <= r < JOINTS
        ensures MatPlus(z, z)[r] == z[r]
      {
        assert Plus(Zero(JOINTS), Zero(JOINTS)) == Zero(JOINTS);
      }
    }
  }

  lemma ZeroScaled(v: Vec)
    ensures Scale(0.0, v) == Zero(|v|)
  {
  }

  /** The axis does not move with any joint. */
  predicate AxisStill(g: Geometry) { forall i | 0 <= i < |g.jacobian| :: g.jacobian[i] == Zero(JOINTS) }

  lemma MovingAxis(g: Geometry) returns (v: Vec)
    requires Shaped(g) && !AxisStill(g)
    ensures |v| == JOINTS && Dot(Dots(g.jacobian, v), Dots(g.jacobian, v)) > 0.0
  {
    var i :| 0 <= i < |g.jacobian| && g.jacobian[i] != Zero(JOINTS);
    var row := g.jacobian[i];
    var c :| 0 <= c < JOINTS && row[c] != 0.0;
    v := Unit(JOINTS, c);
    DotUnit(row, c);
    var u := Dots(g.jacobian, v);
    assert u[i] == row[c];
    if Dot(u, u) <= 0.0 { NoSquare(u, i); }
  }

  lemma NoSquare(u: Vec, i: nat)
    requires i < |u| && u[i] != 0.0
    ensures Dot(u, u) > 0.0
  {
    SquaredLength(u);
    assert Zero(|u|)[i] == 0.0;
  }

  /** The run of `OrientedRun` and the boosted one have the same root metric exactly when the boost leaves the leaf's
      scalar as it is, or the axis does not move with any joint. */
  lemma MissingBoostIff(e: Env, s: Scene)
    requires Oriented(e, s) && GoalGiven(e)
    ensures |e.inputs.targets["goal"]| == |e.world.context.tcp.x|
    ensures RootMetric(OrientedTerms(e, s, None)) == RootMetric(OrientedTerms(e, s, Some(ToolDistance(e))))
       <==> AxisScalar(e.params.axis, e.world.lib, None) == AxisScalar(e.params.axis, e.world.lib, Some(ToolDistance(e)))
            || AxisStill(AxisGeometryOf(e, s))
  {
    hide SameScene, ValidEnv, RootMetric, EarlyTerms, AxisGeometryOf, AxisLeaf, AxisScalar, TargetTerm, Energy, Form, AxisStill,
      ValidTerm, AxisNode, ValidWorld;
    AxisFacts(e, s);
    var g, c := AxisGeometryOf(e, s), Compiled(AxisTargetNode(), []);
    var d := Some(ToolDistance(e));
    SceneFacts(e, s);
    TcpShaped(s);
    var a, b := AxisLeaf(e, c, g, None), AxisLeaf(e, c, g, d);
    var t := TargetTerm(s.params.target, s.lib, s.tcp, s.goal);
    if AxisStill(g) {
      StillMetric(e, c, g, None, d);
      SameMetric(EarlyTerms(e, s), a, b, t);
    } else {
      var v := MovingAxis(g);
      var early := EarlyTerms(e, s);
      RootEnergy(early + [a] + [t], v);
      RootEnergy(early + [b] + [t], v);
      EnergyConcat(early + [a], [t], v);
      EnergyConcat(early + [b], [t], v);
      EnergyConcat(early, [a], v);
      EnergyConcat(early, [b], v);
      AxisEnergy(e, c, g, None, v);
      AxisEnergy(e, c, g, d, v);
      var x, y := AxisScalar(e.params.axis, e.world.lib, None), AxisScalar(e.params.axis, e.world.lib, d);
      FactorOf(x, y, Dot(Dots(g.jacobian, v), Dots(g.jacobian, v)));
      if x == y { SameLeaf(e, c, g, d); }
    }
  }

  lemma FactorOf(x: real, y: real, z: real)
    requires z > 0.0
    ensures Times(x, z) == Times(y, z) ==> x == y
  {
    if Times(x, z) == Times(y, z) {
      assert (x - y) * z == 0.0;
      assert (x - y) * z / z == x - y;
    }
  }

  lemma SameLeaf(e: Env, c: Compiled, g: Geometry, d: Option<real>)
    requires AxisNode(e, c, g) && AxisScalar(e.params.axis, e.world.lib, None) == AxisScalar(e.params.axis, e.world.lib, d)
    ensures AxisLeaf(e, c, g, None) == AxisLeaf(e, c, g, d)
  {
    hide AxisScalar;
  }

  lemma StillMetric(e: Env, c: Compiled, g: Geometry, x: Option<real>, y: Option<real>)
    requires AxisNode(e, c, g) && AxisStill(g)
    ensures TermMetric(AxisLeaf(e, c, g, x)) == TermMetric(AxisLeaf(e, c, g, y))
  {
    hide AxisScalar, MatMul, TransposeMul, Normalized;
    var a, b := AxisLeaf(e, c, g, x), AxisLeaf(e, c, g, y);
    ZeroPullback(g.jacobian, MatMul(a.metric, g.jacobian, JOINTS));
    ZeroPullback(g.jacobian, MatMul(b.metric, g.jacobian, JOINTS));
  }

  lemma SameMetric(early: seq<Term>, a: Term, b: Term, t: Term)
    requires ValidTerms(early) && ValidTerm(a) && ValidTerm(b) && ValidTerm(t) && TermMetric(a) == TermMetric(b)
    ensures RootMetric(early + [a] + [t]) == RootMetric(early + [b] + [t])
  {
    hide TermMetric, ValidTerm, AddMetrics;
    ZeroRoot();
    var zero, force := ZeroMatrix(JOINTS, JOINTS), Zero(JOINTS);
    AddConcat(false, zero, force, early, [a]);
    AddConcat(false, zero, force, early, [b]);
    AddConcat(false, zero, force, early + [a], [t]);
    AddConcat(false, zero, force, early + [b], [t]);
    OneTerm(false, AddMetrics(zero, early), AddForces(false, force, early), a);
    OneTerm(false, AddMetrics(zero, early), AddForces(false, force, early), b);
  }

  /** The boost changes the scalar exactly when both the scalar and the boost have something to say. */
  lemma BoostChangesIff(p: AxisParams, lib: Library, d: real)
    requires Standard(lib)
    ensures AxisScalar(p, lib, None) != AxisScalar(p, lib, Some(d)) <==> p.metricScalar != 0.0 && p.boostScalar != 1.0
  {
    hide Standard;
    var x := Over(d, Max(p.boostLengthScale, 0.000000001));
    GaussianRange(lib, x);
    var b := Gaussian(lib, x);
    BlendMinusOne(b, p.boostScalar, b * (p.boostScalar - 1.0));
    TimesMinus(p.metricScalar, Blend(b, p.boostScalar));
    if p.metricScalar != 0.0 && p.boostScalar != 1.0 {
      NonZero(b, p.boostScalar - 1.0, b * (p.boostScalar - 1.0));
      NonZero(p.metricScalar, Blend(b, p.boostScalar) - 1.0, p.metricScalar * (Blend(b, p.boostScalar) - 1.0));
    }
  }

  lemma BlendMinusOne(b: real, boost: real, p: real)
    requires p == b * (boost - 1.0)
    ensures Blend(b, boost) - 1.0 == p
  {
  }

  lemma TimesMinus(m: real, x: real)
    ensures Times(m, x) - m == m * (x - 1.0)
  {
  }

  lemma NonZero(x: real, y: real, z: real)
    requires z == x * y && x != 0.0 && y != 0.0
    ensures z != 0.0
  {
    assert z / y == x;
  }

  // ----- a configuration in which it matters

  function StillPoint(): (g: Geometry)
    ensures Shaped(g) && |g.x| == 3
  {
    Geometry(Zero(3), [Zero(JOINTS), Zero(JOINTS), Zero(JOINTS)], Zero(3), Zero(3))
  }

  function WitnessParams(): Params {
    var axis := AxisParams(1.0, 1.0, 1.0, 2.0, 1.0);
    Params(CspaceParams(1.0, 1.0, 1.0, 1.0, 1.0, Zero(JOINTS)), JointLimitParams(1.0, 1.0, 1.0, 1.0, 1.0, 1.0, 1.0, 1.0),
           VelocityCapParams(1.0, 0.5, 1.0, 1.0, 0.1), TargetParams(1.0, 1.0, 1.0, 1.0, 0.5, 1.0, 1.0, 1.0, 1.0), axis, axis,
           CollisionParams(1.0, 1.0, 1.0, 1.0, 1.0, 1.0, 1.0, 1.0, 1.0, 1.0), DampingParams(1.0, 1.0, 1.0))
  }

  function WitnessScene(lib: Library): Scene {
    Scene(lib, StillPoint(), seq(SENSOR_POINTS, _ => StillPoint()),
          Robot(Zero(JOINTS), Zero(JOINTS), Zero(JOINTS), Zero(SENSOR_POINTS), 0.0), [], WitnessParams(),
          Zero(JOINTS), Zero(JOINTS), Zero(3))
  }

  /** A tool whose axis points up and turns with the first joint about the x direction. */
  function WitnessLink(): Link {
    Link(StillPoint(), Identity(3), [Unit(JOINTS, 0), Zero(JOINTS), Zero(JOINTS)], Zero(3), Zero(3))
  }

  function WitnessEnv(lib: Library): Env {
    var s := WitnessScene(lib);
    Env(World(lib, Context(s.tcp, map["tcp" := WitnessLink()], s.points), s.robot, s.obstacles), OrientedNodes(), s.params,
        Inputs(s.qd, map["goal" := s.goal, "orientation_goal" := Unit(3, 2)], map[]))
  }

  lemma WitnessValid(lib: Library)
    ensures Oriented(WitnessEnv(lib), WitnessScene(lib))
  {
    var s := WitnessScene(lib);
    assert Dots(StillPoint().jacobian, s.qd) == Zero(3) by {
      DotZero(Zero(JOINTS));
    }
    assert IsMatrix(WitnessLink().rotation, 3) && ValidLink(WitnessLink());
  }

  lemma WitnessGoal(lib: Library)
    ensures GoalGiven(WitnessEnv(lib))
  {
    var nodes := OrientedNodes();
    DefaultNode(0);
    EnabledAt(nodes, "target", 4);
  }

  /** `node_enabled` finds the first node of the name. */
  lemma {:induction false} EnabledAt(nodes: seq<RmpNode>, name: string, k: nat)
    requires k < |nodes| && nodes[k].name == name && forall i | 0 <= i < k :: nodes[i].name != name
    ensures NodeEnabled(nodes, name) == nodes[k].enabled
  {
    if k > 0 { EnabledAt(nodes[1..], name, k - 1); }
  }

  lemma WitnessMoves(lib: Library)
    requires Oriented(WitnessEnv(lib), WitnessScene(lib))
    ensures !AxisStill(AxisGeometryOf(WitnessEnv(lib), WitnessScene(lib)))
  {
    var l := WitnessLink();
    var world := Dots(l.rotation, Unit(3, 2));
    DotsIdentity(Unit(3, 2));
    assert world == Unit(3, 2);
    var column := Column(l.angularJacobian, 0);
    assert column == [1.0, 0.0, 0.0];
    CrossDown(column, world);
    assert AxisGeometryOf(WitnessEnv(lib), WitnessScene(lib)).jacobian[1][0] == -1.0;
    assert Zero(JOINTS)[0] == 0.0;
  }

  lemma CrossDown(a: Vec, b: Vec)
    requires a == [1.0, 0.0, 0.0] && b == [0.0, 0.0, 1.0]
    ensures Cross(a, b)[1] == -1.0
  {
  }

  /** A run over the default graph with the axis target enabled: it succeeds, the position target is enabled with a
      goal, and the leaf boosted for the tool's distance would give another root metric. */
  ghost predicate MissesBoost(e: Env, s: Scene) {
    && Oriented(e, s) && GoalGiven(e) && e.config == OrientedNodes() && ValidEnv(e) && |s.q| == JOINTS
    && Run(e, OrientedCompiled(), s.q).Ok? && Run(e, OrientedCompiled(), s.q).value.terms == OrientedTerms(e, s, None)
    && |e.inputs.targets["goal"]| == |e.world.context.tcp.x|
    && RootMetric(OrientedTerms(e, s, None)) != RootMetric(OrientedTerms(e, s, Some(ToolDistance(e))))
  }

  lemma MissingBoostMatters(lib: Library)
    requires Standard(lib)
    ensures exists e, s :: MissesBoost(e, s)
  {
    hide Oriented, Standard, Run, OrientedTerms, AxisScalar, RootMetric, AxisStill, ValidEnv, GoalGiven, OrientedNodes;
    var e, s := WitnessEnv(lib), WitnessScene(lib);
    WitnessValid(lib);
    WitnessGoal(lib);
    WitnessMoves(lib);
    OrientedRun(e, s);
    MissingBoostIff(e, s);
    BoostChangesIff(e.params.axis, lib, ToolDistance(e));
    assert MissesBoost(e, s);
  }
}
