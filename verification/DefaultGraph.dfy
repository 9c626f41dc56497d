/** The default graph: its evaluation order, what one run over it accumulates, and the refinement of the
    hand-written solver. */
module DefaultGraph {
  import opened LinearAlgebra
  import opened RmpConfig
  import opened TopologicalOrder
  import opened Elementary
  import opened ChainRule
  import opened TaskMaps
  import opened TaskGraph
  import opened RmpLeaves
  import opened DirectSolver
  import opened EigenSolver
  import opened GraphRefinement
  import opened GraphBuild

  // ----- the evaluation order

  const ORDER: seq<string> :=
    ["control_points", "collision", "cspace_target", "damping", "joint_limits", "joint_velocity_cap", "tcp_position", "target"]

  const DEFAULT_GRAPH: Graph :=
    map["cspace_target" := ["root"], "joint_limits" := ["root"], "joint_velocity_cap" := ["root"],
        "tcp_position" := ["root"], "target" := ["tcp_position"], "control_points" := ["root"],
        "collision" := ["control_points"], "damping" := ["root"]]

  /** Where the configuration lists the node of that name. */
  function Position(name: string): (i: nat)
    ensures i < 8
  {
    if name == "cspace_target" then 0 else if name == "joint_limits" then 1 else if name == "joint_velocity_cap" then 2
    else if name == "tcp_position" then 3 else if name == "target" then 4 else if name == "control_points" then 5
    else if name == "collision" then 6 else 7
  }

  lemma DefaultNode(i: nat)
    requires i < 10
    ensures |DefaultGraphNodes()| == 10
    ensures DefaultGraphNodes()[i].enabled <==> i < 8
    ensures i < 8 ==>
      var n := DefaultGraphNodes()[i];
      n.name in DEFAULT_GRAPH && DEFAULT_GRAPH[n.name] == n.parents && Position(n.name) == i
  {
  }

  lemma DefaultName(name: string)
    requires name in DEFAULT_GRAPH
    ensures |DefaultGraphNodes()| == 10 && DefaultGraphNodes()[Position(name)].name == name
  {
  }

  lemma DefaultGraphIs()
    ensures NoDuplicates(DefaultGraphNodes()) && GraphOf(DefaultGraphNodes()) == DEFAULT_GRAPH
  {
    var nodes := DefaultGraphNodes();
    DefaultNode(0);
    hide DefaultGraphNodes, DEFAULT_GRAPH, Position;
    forall i | 0 <= i < 10
      ensures nodes[i].enabled <==> i < 8
      ensures i < 8 ==>
        nodes[i].name in DEFAULT_GRAPH && DEFAULT_GRAPH[nodes[i].name] == nodes[i].parents && Position(nodes[i].name) == i
    {
      DefaultNode(i);
    }
    assert NoDuplicates(nodes);
    forall name | name in DEFAULT_GRAPH
      ensures name in GraphOf(nodes)
    {
      DefaultName(name);
      assert nodes[Position(name)].name in GraphOf(nodes);
    }
  }

  lemma {:induction false} PrefixBefore(p: string, a: string, b: string)
    requires Before(a, b)
    ensures Before(p + a, p + b)
  {
    if p == "" {
      assert p + a == a && p + b == b;
    } else {
      PrefixBefore(p[1..], a, b);
      assert (p + a)[1..] == p[1..] + a && (p + b)[1..] == p[1..] + b;
    }
  }

  lemma InitialBefore(a: string, b: string)
    requires a != "" && b != "" && a[0] < b[0]
    ensures Before(a, b)
  {
  }

  /** The root-level nodes in name order. */
  lemma NamesInOrder()
    ensures Before(ORDER[0], ORDER[2]) && Before(ORDER[1], ORDER[2]) && Before(ORDER[2], ORDER[3])
    ensures Before(ORDER[3], ORDER[4]) && Before(ORDER[4], ORDER[5]) && Before(ORDER[5], ORDER[6])
  {
    hide Before;
    InitialBefore("ontrol_points", "space_target");
    InitialBefore("ollision", "space_target");
    PrefixBefore("c", "ontrol_points", "space_target");
    PrefixBefore("c", "ollision", "space_target");
    assert ORDER[0] == "c" + "ontrol_points" && ORDER[2] == "c" + "space_target" && ORDER[1] == "c" + "ollision";
    InitialBefore(ORDER[2], ORDER[3]);
    InitialBefore(ORDER[3], ORDER[4]);
    InitialBefore("limits", "velocity_cap");
    PrefixBefore("joint_", "limits", "velocity_cap");
    assert ORDER[4] == "joint_" + "limits" && ORDER[5] == "joint_" + "velocity_cap";
    InitialBefore(ORDER[5], ORDER[6]);
  }

  /** Positions 2 to 6 hold the remaining root-level nodes, so the least ready one is the next of them. */
  lemma {:induction false} BeforeLater(i: nat, j: nat)
    requires i < j <= 6 && j >= 2 && (i, j) != (0, 1)
    ensures Before(ORDER[i], ORDER[j])
    decreases j - i
  {
    hide Before;
    NamesInOrder();
    if i < 2 {
      if j > 2 {
        BeforeLater(2, j);
        BeforeTransitive(ORDER[i], ORDER[2], ORDER[j]);
      }
    } else if j > i + 1 {
      BeforeLater(i + 1, j);
      BeforeTransitive(ORDER[i], ORDER[i + 1], ORDER[j]);
    }
  }

  lemma TakenAt(k: nat)
    requires k <= 8
    ensures forall x :: x in Elements(ORDER[..k]) <==> exists i :: 0 <= i < k && ORDER[i] == x
  {
    forall i | 0 <= i < k
      ensures ORDER[..k][i] == ORDER[i]
    {
    }
  }

  lemma OrderReady(k: nat)
    requires k < 8
    ensures Ready(DEFAULT_GRAPH, Elements(ORDER[..k]), ORDER[k])
  {
    TakenAt(k);
    if k == 1 { assert ORDER[0] in Elements(ORDER[..k]); }
    if k == 7 { assert ORDER[6] in Elements(ORDER[..k]); }
  }

  lemma OrderLeast(k: nat, j: nat)
    requires k < 8 && j < 8 && Ready(DEFAULT_GRAPH, Elements(ORDER[..k]), ORDER[j])
    ensures !Before(ORDER[j], ORDER[k])
  {
    TakenAt(k);
    assert j >= k;
    assert "control_points" in DEFAULT_GRAPH["collision"] && "tcp_position" in DEFAULT_GRAPH["target"];
    assert !(j == 1 && k == 0);
    assert !(j == 7 && k < 7);
    if j == k {
      BeforeIrreflexive(ORDER[k]);
    } else {
      BeforeLater(k, j);
      BeforeAsymmetric(ORDER[k], ORDER[j]);
    }
  }

  /** The configured default graph is evaluated in the order of `ORDER`, and in no other. */
  lemma DefaultOrder(names: seq<string>)
    requires NoDuplicates(DefaultGraphNodes())
    ensures LeastReadyOrder(GraphOf(DefaultGraphNodes()), names) <==> names == ORDER
  {
    DefaultGraphIs();
    forall k | 0 <= k < 8
      ensures Ready(DEFAULT_GRAPH, Elements(ORDER[..k]), ORDER[k])
      ensures forall other | Ready(DEFAULT_GRAPH, Elements(ORDER[..k]), other) :: !Before(other, ORDER[k])
    {
      OrderReady(k);
      forall other | Ready(DEFAULT_GRAPH, Elements(ORDER[..k]), other)
        ensures !Before(other, ORDER[k])
      {
        var j := IndexOf(other);
        OrderLeast(k, j);
      }
    }
    OrderCovers();
    if LeastReadyOrder(DEFAULT_GRAPH, names) { OrderUnique(DEFAULT_GRAPH, names, ORDER); }
  }

  lemma IndexOf(name: string) returns (j: nat)
    requires name in DEFAULT_GRAPH
    ensures j < 8 && ORDER[j] == name
  {
    j := if name == ORDER[0] then 0 else if name == ORDER[1] then 1 else if name == ORDER[2] then 2
         else if name == ORDER[3] then 3 else if name == ORDER[4] then 4 else if name == ORDER[5] then 5
         else if name == ORDER[6] then 6 else 7;
  }

  lemma OrderCovers()
    ensures Elements(ORDER) == DEFAULT_GRAPH.Keys
  {
    forall name | name in DEFAULT_GRAPH
      ensures name in ORDER
    {
      var j := IndexOf(name);
    }
  }

  // ----- one run over the default graph

  function DefaultNodeAt(k: nat): RmpNode
    requires k < 8
  {
    DefaultNode(0);
    DefaultGraphNodes()[Position(ORDER[k])]
  }

  /** The nodes in evaluation order; none of them is a compiled map. */
  function DefaultCompiled(): (r: seq<Compiled>)
    ensures |r| == 8
  {
    seq(8, k requires 0 <= k < 8 => Compiled(DefaultNodeAt(k), []))
  }

  function DefaultNodes(): (r: seq<RmpNode>)
    ensures |r| == 8
  {
    seq(8, k requires 0 <= k < 8 => DefaultNodeAt(k))
  }

  lemma InferStep(nodes: seq<RmpNode>, k: nat, dims: Dims, parent: string, d: int)
    requires k < |nodes| && InferAll(nodes[..k]) == Ok(dims) && nodes[k].parents == [parent] && parent in dims && dims[parent] >= 0
    requires InferDim(nodes[k], [dims[parent]], SENSOR_POINTS) == Some(d) && nodes[k].name !in dims
    ensures InferAll(nodes[..k + 1]) == Ok(dims[nodes[k].name := d])
  {
    hide InferDim;
    assert nodes[..k + 1][..k] == nodes[..k];
    assert [parent][1..] == [];
    assert DimsAt(dims, []) == Some([]);
    assert [dims[parent]] + [] == [dims[parent]];
    assert DimsAt(dims, [parent]) == Some([dims[parent]]);
    assert ParentNats(dims, nodes[k]) == Some([dims[parent]]);
  }

  function DimAt(k: nat): nat { if k == 0 then 60 else if k == 1 then 20 else if k == 4 then 12 else if k >= 6 then 3 else 6 }

  function ParentAt(k: nat): nat { if k == 1 then 60 else if k == 7 then 3 else 6 }

  /** The dimensions inferred for the first `k` default nodes. */
  function DimsTo(k: nat): Dims
    requires k <= 8
  {
    if k == 0 then map["root" := JOINTS] else DimsTo(k - 1)[ORDER[k - 1] := DimAt(k - 1)]
  }

  lemma DefaultDim(k: nat)
    requires k < 8
    ensures InferDim(DefaultNodeAt(k), [ParentAt(k)], SENSOR_POINTS) == Some(DimAt(k))
    ensures DefaultNodeAt(k).name == ORDER[k] && DefaultNodeAt(k).parents == [if k == 1 then ORDER[0] else if k == 7 then ORDER[6] else "root"]
  {
    NodesAre();
  }

  lemma {:induction false} DimsToHas(k: nat)
    requires k <= 8
    ensures "root" in DimsTo(k) && DimsTo(k)["root"] == 6 && forall i | k <= i < 8 :: ORDER[i] !in DimsTo(k)
    ensures k >= 1 ==> ORDER[0] in DimsTo(k) && DimsTo(k)[ORDER[0]] == 60
    ensures k >= 7 ==> ORDER[6] in DimsTo(k) && DimsTo(k)[ORDER[6]] == 3
  {
    hide ORDER;
    OrderDistinct();
    if k > 0 { DimsToHas(k - 1); }
  }

  lemma {:induction false} DefaultInferred(k: nat)
    requires k <= 8
    ensures InferAll(DefaultNodes()[..k]) == Ok(DimsTo(k))
  {
    hide InferAll, InferNext, DefaultNodeAt, InferDim;
    if k == 0 {
      InferNothing();
      assert DefaultNodes()[..0] == [];
    } else {
      DefaultInferred(k - 1);
      DefaultDim(k - 1);
      DimsToHas(k - 1);
      InferStep(DefaultNodes(), k - 1, DimsTo(k - 1), DefaultNodeAt(k - 1).parents[0], DimAt(k - 1));
    }
  }

  lemma OrderDistinct()
    ensures |ORDER| == 8 && forall i, j | 0 <= i < j < 8 :: ORDER[i] != ORDER[j]
    ensures forall i | 0 <= i < 8 :: ORDER[i] != "root"
  {
    forall i, j | 0 <= i < j < 8
      ensures ORDER[i] != ORDER[j]
    {
      assert |ORDER[i]| != |ORDER[j]| || ORDER[i][0] != ORDER[j][0];
    }
  }

  lemma InferNothing()
    ensures InferAll([]) == Ok(map["root" := JOINTS])
  {
  }

  /** Nodes without a compiled map compile to themselves. */
  lemma {:induction false} CompileNative(dims: Dims, nodes: seq<RmpNode>)
    requires forall i | 0 <= i < |nodes| :: !UsesCasadi(nodes[i].taskMap)
    ensures CompileAll(dims, nodes).Ok? && |CompileAll(dims, nodes).value| == |nodes|
    ensures forall i | 0 <= i < |nodes| :: CompileAll(dims, nodes).value[i] == Compiled(nodes[i], [])
  {
    if nodes != [] {
      var k := |nodes| - 1;
      CompileNative(dims, nodes[..k]);
      assert CompileNode(dims, nodes[k]) == Ok(Compiled(nodes[k], []));
    }
  }

  lemma DefaultNative(k: nat)
    requires k < 8
    ensures !UsesCasadi(DefaultNodeAt(k).taskMap)
  {
    NodesAre();
  }

  /** The default nodes in evaluation order construct to `DefaultCompiled`. */
  lemma DefaultConstructed()
    ensures Constructed(DefaultNodes()) == Ok(DefaultCompiled())
  {
    hide InferAll, CompileAll, DefaultNodeAt, UsesCasadi;
    DefaultInferred(8);
    var nodes := DefaultNodes();
    assert nodes[..8] == nodes;
    forall k | 0 <= k < 8
      ensures !UsesCasadi(nodes[k].taskMap)
    {
      DefaultNative(k);
    }
    CompileNative(DimsTo(8), nodes);
    assert CompileAll(DimsTo(8), nodes).value == DefaultCompiled();
  }

  lemma NamedNodes(names: seq<string>, nodes: seq<RmpNode>)
    requires NodesNamed(DefaultGraphNodes(), names, nodes) && names == ORDER
    ensures nodes == DefaultNodes()
  {
    hide DefaultGraphNodes, Position;
    forall k | 0 <= k < 8
      ensures nodes[k] == DefaultNodeAt(k)
    {
      NamedNode(nodes[k], k);
    }
  }

  lemma NamedNode(n: RmpNode, k: nat)
    requires k < 8 && n in DefaultGraphNodes() && n.enabled && n.name == ORDER[k]
    ensures n == DefaultNodeAt(k)
  {
    hide DefaultGraphNodes, Position, ORDER;
    DefaultNode(0);
    var i :| 0 <= i < |DefaultGraphNodes()| && DefaultGraphNodes()[i] == n;
    DefaultNode(i);
  }

  /** The constructor turns the default configuration into exactly these nodes, so the runs below are runs of
      the solver it builds. */
  method BuildDefault() returns (r: Result<seq<Compiled>, BuildError>)
    ensures r == Ok(DefaultCompiled())
  {
    hide LeastReadyOrder, NodesNamed, Constructed, DefaultGraphNodes, GraphOf;
    ghost var names, nodes, dims;
    r, names, nodes, dims := Build(DefaultGraphNodes());
    DefaultGraphIs();
    DefaultOrder(ORDER);
    DefaultOrdered();
    DefaultOrder(names);
    if !(r.Err? && r.error.BadOrder?) {
      NamedNodes(names, nodes);
      DefaultConstructed();
    }
  }

  /** The default graph has an order. */
  lemma DefaultOrdered()
    ensures NoDuplicates(DefaultGraphNodes()) && ParentsPresent(GraphOf(DefaultGraphNodes())) && !HasCycle(GraphOf(DefaultGraphNodes()))
  {
    hide LeastReadyOrder, HasCycle, ParentsPresent, NoDuplicates, DefaultGraphNodes, GraphOf, DEFAULT_GRAPH;
    DefaultGraphIs();
    DefaultOrder(ORDER);
    DefaultParents();
    NoCycleWhenOrdered(DEFAULT_GRAPH, ORDER);
  }

  lemma DefaultParents()
    ensures ParentsPresent(DEFAULT_GRAPH)
  {
  }

  /** The environment of the graph solver describes the scene of the hand-written one. */
  ghost predicate SameScene(e: Env, s: Scene) {
    && ValidEnv(e) && SharedKinematics(s, e.world) && e.params == s.params && e.inputs.qd == s.qd
    && "goal" in e.inputs.targets && e.inputs.targets["goal"] == s.goal
  }

  /** One visited node without a second leaf. */
  lemma RunStep(e: Env, nodes: seq<Compiled>, k: nat, q: Vec, p: Progress, g: Geometry, ts: seq<Term>)
    requires ValidEnv(e) && |q| == JOINTS && k < |nodes| && Run(e, nodes[..k], q) == Ok(p)
    requires EvaluateNode(nodes[k], e.world, p.cache) == Ok(g) && nodes[k].node.handcraftedLeaf == NoLeaf
    requires forall d :: LeafTerms(nodes[k].node.leaf, nodes[k].node, g, e.params, e.world.lib, e.inputs, d) == Ok(ts)
    ensures Run(e, nodes[..k + 1], q) == Ok(Progress(p.cache[nodes[k].node.name := g], p.terms + ts))
  {
    hide ValidEnv, EvaluateNode, GoalDistance;
    EnvParts(e);
    assert nodes[..k + 1][..k] == nodes[..k] && nodes[..k + 1][k] == nodes[k];
    var after := p.cache[nodes[k].node.name := g];
    var d := GoalDistance(e, after);
    NoLeafTerms(nodes[k].node, g, e, d);
    hide LeafTerms;
    assert LeafTerms(nodes[k].node.leaf, nodes[k].node, g, e.params, e.world.lib, e.inputs, d) == Ok(ts);
    assert ts + [] == ts;
    assert Visit(e, nodes[k], p.cache) == Ok(Progress(after, ts));
  }

  lemma NoLeafTerms(node: RmpNode, g: Geometry, e: Env, d: Option<real>)
    requires Shaped(g) && ValidInputs(e.inputs)
    ensures LeafTerms(NoLeaf, node, g, e.params, e.world.lib, e.inputs, d) == Ok([])
  {
  }

  /** A node with a single cached parent. */
  lemma OneParent(c: Compiled, w: World, cache: Cache, parent: string)
    requires ValidWorld(w) && ValidCache(cache) && c.node.parents == [parent] && parent in cache && !UsesCasadi(c.node.taskMap)
    ensures Shaped(cache[parent]) && EvaluateNode(c, w, cache) == EvaluateNative(c.node, w, [cache[parent]])
  {
    hide ValidWorld, EvaluateNative;
    var parents := ParentsOf(cache, [parent]).value;
    assert parents == [cache[parent]];
  }

  ghost function CollisionBlock(e: Env, s: Scene): (ts: seq<Term>)
    requires SameScene(e, s)
    ensures ValidTerms(ts)
  {
    PointsParts(s);
    StackSize(s.points);
    RowTerms(CollisionGeometry(e.world, Stack(s.points)), CollisionPolicy(s.params.collision, s.lib), SENSOR_POINTS * |s.obstacles|)
  }

  ghost function LimitBlock(s: Scene): (ts: seq<Term>)
    requires ValidScene(s)
    ensures ValidTerms(ts)
  {
    RowTerms(JointLimitGeometry(s.robot, RootOf(s)), LimitPolicy(s.params.limit, s.lib), 12)
  }

  ghost function CapBlock(s: Scene): (ts: seq<Term>)
    requires ValidScene(s)
    ensures ValidTerms(ts)
  {
    RowTerms(RootOf(s), CapPolicy(s.params.cap), JOINTS)
  }

  ghost function FirstBlocks(e: Env, s: Scene): (ts: seq<Term>)
    requires SameScene(e, s)
    ensures ValidTerms(ts)
  {
    CollisionBlock(e, s) + [CspaceTerm(s.params.cspace, s.lib, RootOf(s))] + [DampingTerm(s.params.damping, s.lib, RootOf(s))]
  }

  ghost function EarlyTerms(e: Env, s: Scene): (ts: seq<Term>)
    requires SameScene(e, s)
    ensures ValidTerms(ts)
  {
    FirstBlocks(e, s) + LimitBlock(s) + CapBlock(s)
  }

  /** The terms of the default graph, block by block in evaluation order. */
  ghost function DefaultTerms(e: Env, s: Scene): (ts: seq<Term>)
    requires SameScene(e, s)
    ensures ValidTerms(ts)
  {
    EarlyTerms(e, s) + [TargetTerm(s.params.target, s.lib, s.tcp, s.goal)]
  }

  lemma SceneFacts(e: Env, s: Scene)
    requires SameScene(e, s)
    ensures ValidEnv(e) && ValidScene(s) && ValidWorld(e.world) && ValidInputs(e.inputs)
    ensures e.params == s.params && e.inputs.qd == s.qd && "goal" in e.inputs.targets && e.inputs.targets["goal"] == s.goal
    ensures e.world.lib == s.lib && e.world.context.tcp == s.tcp && e.world.context.points == s.points
    ensures e.world.robot == s.robot && e.world.obstacles == s.obstacles && |s.points| == SENSOR_POINTS
  {
  }

  ghost predicate Reached(e: Env, s: Scene, k: nat, cache: Cache, ts: seq<Term>)
    requires ValidEnv(e) && |s.q| == JOINTS && k <= 8
  {
    Run(e, DefaultCompiled()[..k], s.q) == Ok(Progress(cache, ts))
  }

  /** Visiting node `k` of the default order. */
  lemma Reach(e: Env, s: Scene, k: nat, cache: Cache, ts: seq<Term>, g: Geometry, more: seq<Term>)
    requires SameScene(e, s) && k < 8 && ValidEnv(e) && |s.q| == JOINTS && Reached(e, s, k, cache, ts) && ValidCache(cache)
    requires |DefaultNodeAt(k).parents| == 1 && DefaultNodeAt(k).parents[0] in cache && !UsesCasadi(DefaultNodeAt(k).taskMap)
    requires DefaultNodeAt(k).handcraftedLeaf == NoLeaf
    requires Shaped(cache[DefaultNodeAt(k).parents[0]]) && ValidWorld(e.world)
    requires EvaluateNative(DefaultNodeAt(k), e.world, [cache[DefaultNodeAt(k).parents[0]]]) == Ok(g) && ValidInputs(e.inputs)
    requires forall d :: LeafTerms(DefaultNodeAt(k).leaf, DefaultNodeAt(k), g, e.params, e.world.lib, e.inputs, d) == Ok(more)
    ensures Reached(e, s, k + 1, cache[DefaultNodeAt(k).name := g], ts + more)
  {
    hide ValidEnv, EvaluateNative, LeafTerms, DefaultNodeAt, SameScene, ValidWorld, ValidInputs;
    OneParent(Compiled(DefaultNodeAt(k), []), e.world, cache, DefaultNodeAt(k).parents[0]);
    RunStep(e, DefaultCompiled(), k, s.q, Progress(cache, ts), g, more);
  }

  lemma NodesAre()
    ensures DefaultNodeAt(0) == SimpleNode("control_points", "root", ControlPoints, NoLeaf, true)
    ensures DefaultNodeAt(1) == SimpleNode("collision", "control_points", CollisionDistance, Collision, true)
    ensures DefaultNodeAt(2) == SimpleNode("cspace_target", "root", CspaceTargetMap, CspaceTarget, true)
    ensures DefaultNodeAt(3) == SimpleNode("damping", "root", IdentityMap, Damping, true)
    ensures DefaultNodeAt(4) == SimpleNode("joint_limits", "root", JointLimitMap, JointLimit, true)
    ensures DefaultNodeAt(5) == SimpleNode("joint_velocity_cap", "root", IdentityMap, JointVelocityCap, true)
    ensures DefaultNodeAt(6) == SimpleNode("tcp_position", "root", TcpPosition, NoLeaf, true)
    ensures DefaultNodeAt(7) == SimpleNode("target", "tcp_position", IdentityMap, Target, true)
  {
  }

  lemma CollisionNode(e: Env, s: Scene)
    requires SameScene(e, s)
    ensures ValidWorld(e.world) && ValidInputs(e.inputs) && Shaped(Stack(s.points)) && |Stack(s.points).x| == 3 * SENSOR_POINTS
    ensures var n := SimpleNode("collision", "control_points", CollisionDistance, Collision, true);
            var g := CollisionGeometry(e.world, Stack(s.points));
            && EvaluateNative(n, e.world, [Stack(s.points)]) == Ok(g)
            && forall d :: LeafTerms(Collision, n, g, e.params, e.world.lib, e.inputs, d) == Ok(CollisionBlock(e, s))
  {
    hide RowTerms, CollisionGeometry, ValidScene, Stack, ValidWorld, ValidInputs, CollisionPolicy;
    SceneFacts(e, s);
    PointsParts(s);
    StackSize(s.points);
  }

  /** The first half of the run: collision, configuration target and damping. */
  lemma FirstHalf(e: Env, s: Scene) returns (cache: Cache)
    requires SameScene(e, s)
    ensures ValidEnv(e) && |s.q| == JOINTS && ValidCache(cache) && ValidScene(s)
    ensures "root" in cache && cache["root"] == RootOf(s)
    ensures Reached(e, s, 4, cache, CollisionBlock(e, s) + [CspaceTerm(s.params.cspace, s.lib, RootOf(s))]
                                  + [DampingTerm(s.params.damping, s.lib, RootOf(s))])
  {
    hide SameScene, ValidScene, ValidEnv, ValidWorld, ValidInputs, Run, CollisionBlock, CspaceTerm, DampingTerm,
      DefaultNodeAt, Reached, CollisionGeometry, Shaped, Stack, RowTerms;
    SceneFacts(e, s);
    SceneParts(s);
    NodesAre();
    CollisionNode(e, s);
    cache := map["root" := RootOf(s)];
    StartReached(e, s);
    Reach(e, s, 0, cache, [], Stack(s.points), []);
    cache := cache["control_points" := Stack(s.points)];
    var ts := [] + [];
    Reach(e, s, 1, cache, ts, CollisionGeometry(e.world, Stack(s.points)), CollisionBlock(e, s));
    cache := cache["collision" := CollisionGeometry(e.world, Stack(s.points))];
    ts := ts + CollisionBlock(e, s);
    RootLength(s);
    Reach(e, s, 2, cache, ts, RootOf(s), [CspaceTerm(s.params.cspace, s.lib, RootOf(s))]);
    cache := cache["cspace_target" := RootOf(s)];
    ts := ts + [CspaceTerm(s.params.cspace, s.lib, RootOf(s))];
    Reach(e, s, 3, cache, ts, RootOf(s), [DampingTerm(s.params.damping, s.lib, RootOf(s))]);
    cache := cache["damping" := RootOf(s)];
    assert [] + [] + CollisionBlock(e, s) == CollisionBlock(e, s);
  }

  lemma StartReached(e: Env, s: Scene)
    requires SameScene(e, s)
    ensures ValidEnv(e) && |s.q| == JOINTS && ValidScene(s) && Reached(e, s, 0, map["root" := RootOf(s)], [])
  {
    hide ValidEnv, ValidScene, SharedKinematics;
    SceneFacts(e, s);
    SceneParts(s);
    assert DefaultCompiled()[..0] == [];
  }

  lemma RootLength(s: Scene)
    requires ValidScene(s)
    ensures |RootOf(s).x| == JOINTS && |s.params.cspace.defaultQ| == JOINTS
  {
  }

  lemma LimitLength12(s: Scene)
    requires ValidScene(s)
    ensures |s.robot.lower| == |s.robot.upper| == |s.robot.buffers| == JOINTS
    ensures |JointLimitGeometry(s.robot, RootOf(s)).x| == 12 && |RootOf(s).x| == JOINTS
  {
  }

  /** The terms of the six nodes before the tool position. */
  lemma FirstSix(e: Env, s: Scene) returns (cache: Cache)
    requires SameScene(e, s)
    ensures ValidEnv(e) && |s.q| == JOINTS && ValidCache(cache) && "root" in cache && cache["root"] == RootOf(s)
    ensures Reached(e, s, 6, cache, EarlyTerms(e, s))
  {
    hide SameScene, ValidScene, ValidEnv, ValidWorld, ValidInputs, Run, CollisionBlock, CspaceTerm, DampingTerm, TargetTerm,
      DefaultNodeAt, JointLimitGeometry, Shaped, RowTerms, IsPoint, LimitPolicy, CapPolicy, RootOf;
    cache := FirstHalf(e, s);
    SceneFacts(e, s);
    SceneParts(s);
    NodesAre();
    RootLength(s);
    var ts := CollisionBlock(e, s) + [CspaceTerm(s.params.cspace, s.lib, RootOf(s))] + [DampingTerm(s.params.damping, s.lib, RootOf(s))];
    LimitLength12(s);
    Reach(e, s, 4, cache, ts, JointLimitGeometry(s.robot, RootOf(s)), LimitBlock(s));
    cache := cache["joint_limits" := JointLimitGeometry(s.robot, RootOf(s))];
    ts := ts + LimitBlock(s);
    Reach(e, s, 5, cache, ts, RootOf(s), CapBlock(s));
    cache := cache["joint_velocity_cap" := RootOf(s)];
  }

  /** One run over the default graph accumulates exactly `DefaultTerms`. */
  lemma DefaultRun(e: Env, s: Scene)
    requires SameScene(e, s)
    ensures ValidEnv(e) && |s.q| == JOINTS
    ensures Run(e, DefaultCompiled(), s.q).Ok? && Run(e, DefaultCompiled(), s.q).value.terms == DefaultTerms(e, s)
  {
    hide SameScene, ValidScene, ValidEnv, ValidWorld, ValidInputs, Run, CollisionBlock, CspaceTerm, DampingTerm, TargetTerm,
      DefaultNodeAt, JointLimitGeometry, Shaped, RowTerms, IsPoint, LimitPolicy, CapPolicy, RootOf;
    var cache := FirstSix(e, s);
    SceneFacts(e, s);
    NodesAre();
    TcpShaped(s);
    var ts := EarlyTerms(e, s);
    Reach(e, s, 6, cache, ts, s.tcp, []);
    cache := cache["tcp_position" := s.tcp];
    assert ts + [] == ts;
    Reach(e, s, 7, cache, ts, s.tcp, [TargetTerm(s.params.target, s.lib, s.tcp, s.goal)]);
    assert DefaultCompiled()[..8] == DefaultCompiled();
  }

  lemma TcpShaped(s: Scene)
    requires ValidScene(s)
    ensures Shaped(s.tcp) && |s.tcp.x| == 3 && |s.goal| == 3
  {
  }

  // ----- the refinement

  lemma FlatOne(t: Term)
    requires ValidTerm(t)
    ensures FlatAll([t]) == [Flat(t)]
  {
  }

  lemma SimpleTermsAgree(e: Env, s: Scene)
    requires SameScene(e, s)
    ensures ValidScene(s)
    ensures Flat(CspaceTerm(s.params.cspace, s.lib, RootOf(s))) == CspaceTermOf(s)
    ensures Flat(DampingTerm(s.params.damping, s.lib, RootOf(s))) == DampingTermOf(s)
    ensures Shaped(s.tcp) && |s.tcp.x| == |s.goal| && Flat(TargetTerm(s.params.target, s.lib, s.tcp, s.goal)) == TargetTermOf(s)
  {
    hide CspaceAcceleration, TargetMetric, TargetAcceleration, Norm, MatScale, Identity;
  }

  lemma BlocksAgree(e: Env, s: Scene)
    requires SameScene(e, s)
    ensures ValidScene(s)
    ensures FlatAll(CollisionBlock(e, s)) == GraphTermsOf(s, |s.points|, 0)
    ensures FlatAll(LimitBlock(s)) == LimitTermsOf(s, JOINTS, 0) && FlatAll(CapBlock(s)) == CapTermsOf(s, JOINTS)
  {
    hide RowTerms, FlatAll, GraphTermsOf, LimitTermsOf, CapTermsOf, ValidScene, ValidWorld, SharedKinematics;
    SceneFactsShared(e, s);
    CollisionRowsAgree(s, e.world, SENSOR_POINTS, 0);
    LimitRowsAgree(s, JOINTS, 0);
    CapRowsAgree(s, JOINTS);
  }

  lemma SceneFactsShared(e: Env, s: Scene)
    requires SameScene(e, s)
    ensures SharedKinematics(s, e.world) && ValidScene(s) && |s.points| == SENSOR_POINTS && |s.q| == |s.qd| == JOINTS
  {
  }

  /** The blocks other than the collision rows. */
  function OtherBlocks(s: Scene): (ts: seq<Term>)
    requires ValidScene(s)
    ensures ValidTerms(ts)
  {
    [CspaceTermOf(s)] + [DampingTermOf(s)] + LimitTermsOf(s, JOINTS, 0) + CapTermsOf(s, JOINTS) + [TargetTermOf(s)]
  }

  /** The hand-written solver's terms and the graph's, each with its collision rows in front. */
  lemma BothInBlocks(e: Env, s: Scene)
    requires SameScene(e, s) && ValidScene(s)
    ensures ValidTerms(CollisionTermsOf(s, |s.points|, 0) + OtherBlocks(s)) && ValidTerms(GraphTermsOf(s, |s.points|, 0) + OtherBlocks(s))
    ensures SameRoot(SceneTerms(s), CollisionTermsOf(s, |s.points|, 0) + OtherBlocks(s))
    ensures FlatAll(DefaultTerms(e, s)) == GraphTermsOf(s, |s.points|, 0) + OtherBlocks(s)
  {
    hide SameScene, ValidScene, ValidEnv, RootMetric, RootForce, FlatAll, Flat, CollisionTermsOf, GraphTermsOf, LimitTermsOf, CapTermsOf,
      CspaceTermOf, DampingTermOf, TargetTermOf, ValidTerm, DefaultTerms;
    FlatBlocks(e, s);
    var c, g := CollisionTermsOf(s, |s.points|, 0), GraphTermsOf(s, |s.points|, 0);
    SameBlocks(c, [CspaceTermOf(s)], [DampingTermOf(s)], LimitTermsOf(s, JOINTS, 0), CapTermsOf(s, JOINTS), [TargetTermOf(s)]);
    Regrouped(c, [CspaceTermOf(s)], [DampingTermOf(s)], LimitTermsOf(s, JOINTS, 0), CapTermsOf(s, JOINTS), [TargetTermOf(s)]);
    Regrouped(g, [CspaceTermOf(s)], [DampingTermOf(s)], LimitTermsOf(s, JOINTS, 0), CapTermsOf(s, JOINTS), [TargetTermOf(s)]);
    RootConcat(c, OtherBlocks(s));
    RootConcat(g, OtherBlocks(s));
    RootPermuted(SceneTerms(s), c + OtherBlocks(s));
  }

  lemma Regrouped(c: seq<Term>, s: seq<Term>, d: seq<Term>, l: seq<Term>, v: seq<Term>, t: seq<Term>)
    ensures c + s + d + l + v + t == c + (s + d + l + v + t)
  {
  }

  /** What a run over the default graph accumulates. */
  ghost function RunTerms(e: Env, s: Scene): (ts: seq<Term>)
    requires SameScene(e, s)
    ensures ValidTerms(ts)
  {
    DefaultRun(e, s);
    Run(e, DefaultCompiled(), s.q).value.terms
  }

  /** With shared kinematics, and no penetrating row whose point moves towards or away from its obstacle, the graph solver
      over the default graph and the hand-written solver produce the same root metric, and their forces differ by the sum
      of `J^T M curvature` over the graph's leaves. */
  lemma GraphRefinesEigen(e: Env, s: Scene)
    requires SameScene(e, s) && ValidScene(s) && Steady(s)
    ensures ValidEnv(e) && |s.q| == JOINTS && Run(e, DefaultCompiled(), s.q).Ok?
    ensures var ts := RunTerms(e, s);
      && RootMetric(SceneTerms(s)) == RootMetric(ts)
      && RootForce(false, SceneTerms(s)) == Plus(RootForce(false, ts), CurvatureForce(ts))
  {
    hide SameScene, ValidScene, ValidEnv, Run, RootMetric, RootForce, CurvatureForce, FlatAll, Flat, DefaultTerms, SceneTerms, OtherBlocks,
      CollisionTermsOf, GraphTermsOf, ValidTerm, ValidTerms, Steady;
    DefaultRun(e, s);
    FlatRoot(DefaultTerms(e, s));
    BothInBlocks(e, s);
    SteadyTerms(s, |s.points|, 0);
  }

  /** For every scene, penetrating or not: the root metrics differ by the metrics of the gap terms, which vanish for clear
      rows; so they agree if and only if those add up to zero. */
  lemma GraphMetricGap(e: Env, s: Scene)
    requires SameScene(e, s) && ValidScene(s)
    ensures ValidEnv(e) && |s.q| == JOINTS && Run(e, DefaultCompiled(), s.q).Ok?
    ensures Apart(SceneTerms(s), RunTerms(e, s), GapTermsOf(s, |s.points|, 0))
  {
    hide SameScene, ValidScene, ValidEnv, Run, RootMetric, RootForce, CurvatureForce, FlatAll, Flat, DefaultTerms, SceneTerms, OtherBlocks,
      CollisionTermsOf, GraphTermsOf, GapTermsOf, ValidTerm, ValidTerms, MatPlus, ZeroMatrix;
    DefaultRun(e, s);
    FlatRoot(DefaultTerms(e, s));
    BothInBlocks(e, s);
    GapRows(s, |s.points|, 0);
    GapAround(CollisionTermsOf(s, |s.points|, 0), GraphTermsOf(s, |s.points|, 0), GapTermsOf(s, |s.points|, 0), OtherBlocks(s));
    MatPlusCancels(RootMetric(DefaultTerms(e, s)), RootMetric(GapTermsOf(s, |s.points|, 0)));
  }

  /** The interpreter's order of leaf blocks and the hand-written one. */
  lemma SameBlocks(c: seq<Term>, s: seq<Term>, d: seq<Term>, l: seq<Term>, v: seq<Term>, t: seq<Term>)
    ensures multiset(c + s + d + l + v + t) == multiset(s + l + v + t + c + d)
  {
  }

  lemma FlatBlocks(e: Env, s: Scene)
    requires SameScene(e, s) && ValidScene(s)
    ensures FlatAll(DefaultTerms(e, s))
         == GraphTermsOf(s, |s.points|, 0) + [CspaceTermOf(s)] + [DampingTermOf(s)] + LimitTermsOf(s, JOINTS, 0)
            + CapTermsOf(s, JOINTS) + [TargetTermOf(s)]
  {
    hide SameScene, ValidScene, FlatAll, Flat, CollisionBlock, LimitBlock, CapBlock, GraphTermsOf, LimitTermsOf, CapTermsOf,
      CspaceTerm, DampingTerm, TargetTerm, CspaceTermOf, DampingTermOf, TargetTermOf, ValidTerm, Shaped, RootOf;
    SimpleTermsAgree(e, s);
    BlocksAgree(e, s);
    RootLength(s);
    TcpShaped(s);
    var c, t := CspaceTerm(s.params.cspace, s.lib, RootOf(s)), TargetTerm(s.params.target, s.lib, s.tcp, s.goal);
    var d := DampingTerm(s.params.damping, s.lib, RootOf(s));
    FlatOne(c);
    FlatOne(d);
    FlatOne(t);
    FlatConcat(CollisionBlock(e, s), [c]);
    FlatConcat(CollisionBlock(e, s) + [c], [d]);
    FlatConcat(CollisionBlock(e, s) + [c] + [d], LimitBlock(s));
    FlatConcat(CollisionBlock(e, s) + [c] + [d] + LimitBlock(s), CapBlock(s));
    FlatConcat(CollisionBlock(e, s) + [c] + [d] + LimitBlock(s) + CapBlock(s), [t]);
  }
}
