/** Two accepted configurations whose runs end in a dimension mismatch. */
module SizeWitness {
  import opened LinearAlgebra
  import opened RmpConfig
  import opened TopologicalOrder
  import opened ChainRule
  import opened TaskMaps
  import opened TaskGraph
  import opened GraphBuild
  import opened GraphSizes

  // ----- a compiled map over collision rows

  const POINTS := "points"
  const ROWS := "rows"
  const JOINED := "rows_joined"

  /** A map that reads collision rows. */
  function JoinedNodes(): seq<RmpNode> {
    [ SimpleNode(POINTS, "root", ControlPoints, NoLeaf, true),
      SimpleNode(ROWS, POINTS, CollisionDistance, NoLeaf, true),
      SimpleNode(JOINED, ROWS, Concat, NoLeaf, true) ]
  }

  function JoinedCompiled(): seq<Compiled> {
    [Compiled(JoinedNodes()[0], []), Compiled(JoinedNodes()[1], []), Compiled(JoinedNodes()[2], [SENSOR_POINTS])]
  }

  lemma JoinedBuilt()
    ensures NoDuplicates(JoinedNodes()) && LeastReadyOrder(GraphOf(JoinedNodes()), [POINTS, ROWS, JOINED])
    ensures NodesNamed(JoinedNodes(), [POINTS, ROWS, JOINED], JoinedNodes())
    ensures Constructed(JoinedNodes()) == Ok(JoinedCompiled())
  {
    hide JoinedCompiled, GraphOf, NoDuplicates, LeastReadyOrder, InferAll, CompileAll;
    JoinedOrder();
    JoinedInferred();
    JoinedMaps();
    var nodes := JoinedNodes();
    assert nodes[0] in nodes && nodes[1] in nodes && nodes[2] in nodes;
  }

  lemma NamesDiffer()
    ensures POINTS != ROWS && POINTS != JOINED && ROWS != JOINED && POINTS != "root" && ROWS != "root" && JOINED != "root"
  {
    assert |POINTS| == 6 && |ROWS| == 4 && |JOINED| == 11 && POINTS[0] == 'p' && ROWS[1] == 'o' && ROWS[2] == 'w';
  }

  lemma JoinedNodesAre()
    ensures var nodes := JoinedNodes();
      && |nodes| == 3 && nodes[0].enabled && nodes[1].enabled && nodes[2].enabled
      && nodes[0].name == POINTS && nodes[1].name == ROWS && nodes[2].name == JOINED
      && nodes[0].parents == ["root"] && nodes[1].parents == [POINTS] && nodes[2].parents == [ROWS]
  {
    hide POINTS, ROWS, JOINED;
  }

  lemma JoinedGraph()
    ensures NoDuplicates(JoinedNodes())
    ensures GraphOf(JoinedNodes()) == map[POINTS := ["root"], ROWS := [POINTS], JOINED := [ROWS]]
  {
    NamesDiffer();
    JoinedNodesAre();
    hide JoinedNodes, POINTS, ROWS, JOINED, GraphOf, NoDuplicates;
    var nodes := JoinedNodes();
    NoGraph();
    assert [] + [nodes[0]] == [nodes[0]] && [nodes[0]] + [nodes[1]] == [nodes[0], nodes[1]] && [nodes[0], nodes[1]] + [nodes[2]] == nodes;
    GraphNext([], nodes[0]);
    GraphNext([nodes[0]], nodes[1]);
    GraphNext([nodes[0], nodes[1]], nodes[2]);
  }

  lemma NoGraph()
    ensures NoDuplicates([]) && GraphOf([]) == map[]
  {
  }

  lemma GraphNext(nodes: seq<RmpNode>, n: RmpNode)
    requires NoDuplicates(nodes) && n.enabled && n.name !in GraphOf(nodes)
    ensures NoDuplicates(nodes + [n]) && GraphOf(nodes + [n]) == GraphOf(nodes)[n.name := n.parents]
  {
    var all := nodes + [n];
    forall i | 0 <= i < |nodes| && nodes[i].enabled
      ensures all[i].name != n.name
    {
      assert nodes[i].name in GraphOf(nodes);
    }
    assert NoDuplicates(all);
    forall name | name in GraphOf(nodes)[n.name := n.parents]
      ensures name in GraphOf(all) && GraphOf(all)[name] == GraphOf(nodes)[n.name := n.parents][name]
    {
      if name == n.name {
        assert all[|nodes|].name in GraphOf(all);
      } else {
        var i :| 0 <= i < |nodes| && nodes[i].enabled && nodes[i].name == name;
        assert all[i].name in GraphOf(all);
      }
    }
    forall name | name in GraphOf(all)
      ensures name in GraphOf(nodes)[n.name := n.parents]
    {
      var i :| 0 <= i < |all| && all[i].enabled && all[i].name == name;
      if i < |nodes| { assert nodes[i].name in GraphOf(nodes); }
    }
  }

  lemma JoinedOrder()
    ensures NoDuplicates(JoinedNodes()) && LeastReadyOrder(GraphOf(JoinedNodes()), [POINTS, ROWS, JOINED])
  {
    JoinedGraph();
    NamesDiffer();
    hide JoinedNodes, GraphOf, NoDuplicates, Before, POINTS, ROWS, JOINED;
    var g: Graph := map[POINTS := ["root"], ROWS := [POINTS], JOINED := [ROWS]];
    var names := [POINTS, ROWS, JOINED];
    assert names[..0] == [] && names[..1] == [POINTS] && names[..2] == [POINTS, ROWS];
    BeforeIrreflexive(POINTS);
    BeforeIrreflexive(ROWS);
    BeforeIrreflexive(JOINED);
    forall k | 0 <= k < 3
      ensures Ready(g, Elements(names[..k]), names[k])
      ensures forall other | Ready(g, Elements(names[..k]), other) :: !Before(other, names[k])
    {
      assert g[POINTS][0] == "root" && g[ROWS][0] == POINTS && g[JOINED][0] == ROWS;
      forall other | Ready(g, Elements(names[..k]), other)
        ensures other == names[k]
      {
        assert g[other][0] == "root" || g[other][0] in Elements(names[..k]);
      }
    }
  }

  lemma JoinedInferred()
    ensures InferAll(JoinedNodes()) == Ok(map["root" := JOINTS, POINTS := 60, ROWS := 20, JOINED := 20])
  {
    NamesDiffer();
    hide POINTS, ROWS, JOINED, InferAll;
    var nodes := JoinedNodes();
    InferFirst(nodes[..0]);
    InferOne(nodes, 0, map["root" := JOINTS], 60);
    InferOne(nodes, 1, map["root" := JOINTS, POINTS := 60], 20);
    assert [20][1..] == [] && TotalDim([20]) == 20;
    InferOne(nodes, 2, map["root" := JOINTS, POINTS := 60, ROWS := 20], 20);
    assert nodes[..3] == nodes;
  }

  lemma InferFirst(nodes: seq<RmpNode>)
    requires nodes == []
    ensures InferAll(nodes) == Ok(map["root" := JOINTS])
  {
  }

  lemma InferOne(nodes: seq<RmpNode>, k: nat, dims: Dims, d: int)
    requires k < |nodes| && InferAll(nodes[..k]) == Ok(dims) && |nodes[k].parents| == 1 && nodes[k].parents[0] in dims
    requires dims[nodes[k].parents[0]] >= 0 && InferDim(nodes[k], [dims[nodes[k].parents[0]]], SENSOR_POINTS) == Some(d)
    ensures InferAll(nodes[..k + 1]) == Ok(Emplace(dims, nodes[k].name, d))
  {
    hide InferDim;
    assert nodes[..k + 1][..k] == nodes[..k] && nodes[..k + 1][k] == nodes[k];
    OneParentNats(dims, nodes[k]);
  }

  lemma OneParentNats(dims: Dims, node: RmpNode)
    requires |node.parents| == 1 && node.parents[0] in dims && dims[node.parents[0]] >= 0
    ensures ParentNats(dims, node) == Some([dims[node.parents[0]]])
  {
    assert node.parents[1..] == [];
    assert DimsAt(dims, node.parents[1..]) == Some([]);
    var d := dims[node.parents[0]];
    assert [d] + [] == [d];
    assert DimsAt(dims, node.parents) == Some([dims[node.parents[0]]]);
  }

  lemma JoinedMaps()
    ensures CompileAll(map["root" := JOINTS, POINTS := 60, ROWS := 20, JOINED := 20], JoinedNodes()) == Ok(JoinedCompiled())
  {
    NamesDiffer();
    hide POINTS, ROWS, JOINED, CompileNode, CompileAll, JoinedNodes, JoinedCompiled;
    var dims: Dims := map["root" := JOINTS, POINTS := 60, ROWS := 20, JOINED := 20];
    JoinedMapsOver(dims);
  }

  lemma JoinedMapsOver(dims: Dims)
    requires ROWS in dims && dims[ROWS] == 20
    ensures CompileAll(dims, JoinedNodes()) == Ok(JoinedCompiled())
  {
    JoinedEach(dims);
    hide POINTS, ROWS, JOINED, CompileNode, CompileAll;
    var nodes := JoinedNodes();
    var cs := JoinedCompiled();
    assert nodes[..0] == [] && nodes[..3] == nodes;
    NothingCompiled(dims, nodes[..0]);
    CompileOne(dims, nodes, 0, [], cs[0]);
    assert [] + [cs[0]] == [cs[0]] && [cs[0]] + [cs[1]] == [cs[0], cs[1]] && [cs[0], cs[1]] + [cs[2]] == cs;
    CompileOne(dims, nodes, 1, [cs[0]], cs[1]);
    CompileOne(dims, nodes, 2, [cs[0], cs[1]], cs[2]);
  }

  lemma JoinedEach(dims: Dims)
    requires ROWS in dims && dims[ROWS] == 20
    ensures var nodes, cs := JoinedNodes(), JoinedCompiled();
      CompileNode(dims, nodes[0]) == Ok(cs[0]) && CompileNode(dims, nodes[1]) == Ok(cs[1]) && CompileNode(dims, nodes[2]) == Ok(cs[2])
  {
    hide POINTS, ROWS, JOINED, ApplyTaskMap, ParentNats;
    JoinedSome();
    OneParentNats(dims, JoinedNodes()[2]);
  }

  lemma NothingCompiled(dims: Dims, nodes: seq<RmpNode>)
    requires nodes == []
    ensures CompileAll(dims, nodes) == Ok([])
  {
  }

  lemma CompileOne(dims: Dims, nodes: seq<RmpNode>, k: nat, done: seq<Compiled>, c: Compiled)
    requires k < |nodes| && CompileAll(dims, nodes[..k]) == Ok(done) && CompileNode(dims, nodes[k]) == Ok(c)
    ensures CompileAll(dims, nodes[..k + 1]) == Ok(done + [c])
  {
    hide CompileNode;
    assert nodes[..k + 1][..k] == nodes[..k] && nodes[..k + 1][k] == nodes[k];
  }

  /** One more node of a run, over its one parent. */
  lemma NextNode(cs: seq<Compiled>, k: nat, w: World, q: Vec, qd: Vec, cache: Cache)
    requires ValidWorld(w) && |q| == |qd| == JOINTS && k < |cs| && EvaluateAll(cs[..k], w, q, qd) == Ok(cache)
    requires |cs[k].node.parents| == 1 && cs[k].node.parents[0] in cache
    ensures Shaped(cache[cs[k].node.parents[0]])
    ensures var parents := [cache[cs[k].node.parents[0]]];
      var r := if UsesCasadi(cs[k].node.taskMap) then EvaluateCasadi(cs[k], w, parents) else EvaluateNative(cs[k].node, w, parents);
      EvaluateAll(cs[..k + 1], w, q, qd) == if r.Ok? then Ok(cache[cs[k].node.name := r.value]) else Err(r.error)
  {
    hide EvaluateCasadi, EvaluateNative, ValidWorld, UsesCasadi;
    assert cs[..k + 1][..k] == cs[..k] && cs[..k + 1][k] == cs[k];
    OneEvaluated(cs[k], w, cache);
  }

  lemma NoNodes(cs: seq<Compiled>, w: World, q: Vec, qd: Vec)
    requires ValidWorld(w) && |q| == |qd| == JOINTS
    ensures EvaluateAll(cs[..0], w, q, qd) == Ok(map["root" := RootGeometry(q, qd)])
  {
    assert cs[..0] == [];
  }

  /** In every world that built solver throws if and only if there is not exactly one obstacle: with two, for one. */
  lemma JoinedFails(w: World, q: Vec, qd: Vec)
    requires ValidWorld(w) && |q| == |qd| == JOINTS
    ensures EvaluateAll(JoinedCompiled(), w, q, qd) == Err(DimensionMismatch) <==> |w.obstacles| != 1
  {
    hide ValidWorld, ApplyTaskMap, CollisionGeometry, RootGeometry, MapGeometry, EvaluateAll, Shaped, Stack;
    var cs := JoinedCompiled();
    PointsLength(w);
    PointsShaped(w);
    NoNodes(cs, w, q, qd);
    var first: Cache := map["root" := RootGeometry(q, qd)];
    NextNode(cs, 0, w, q, qd, first);
    var points := Stack(w.context.points);
    NextNode(cs, 1, w, q, qd, first[POINTS := points]);
    var rows := CollisionGeometry(w, points);
    NextNode(cs, 2, w, q, qd, first[POINTS := points][ROWS := rows]);
    assert cs[..3] == cs && ShapesOf([rows]) == [|rows.x|];
    assert JoinedNodes()[2].taskMap == Concat;
    JoinedSome();
  }

  lemma JoinedSome()
    ensures ApplyTaskMap(JoinedNodes()[2], [SENSOR_POINTS]).Some?
  {
  }

  lemma PointsShaped(w: World)
    requires ValidWorld(w)
    ensures forall i | 0 <= i < |w.context.points| :: Shaped(w.context.points[i])
  {
  }

  lemma OneEvaluated(c: Compiled, w: World, cache: Cache)
    requires ValidWorld(w) && ValidCache(cache) && |c.node.parents| == 1 && c.node.parents[0] in cache
    ensures EvaluateNode(c, w, cache) ==
      if UsesCasadi(c.node.taskMap) then EvaluateCasadi(c, w, [cache[c.node.parents[0]]])
      else EvaluateNative(c.node, w, [cache[c.node.parents[0]]])
  {
    hide EvaluateCasadi, EvaluateNative, ValidWorld;
    assert ParentsOf(cache, c.node.parents).value == [cache[c.node.parents[0]]];
  }

  // ----- a node named "root"

  const SQUARES := "squares"

  /** A node named "root" replaces the root for the nodes after it, while its dimension stays six. */
  function ReplacedNodes(): seq<RmpNode> {
    [SimpleNode("root", "root", TcpPosition, NoLeaf, true), SimpleNode(SQUARES, "root", SquareMap, NoLeaf, true)]
  }

  function ReplacedCompiled(): seq<Compiled> {
    [Compiled(ReplacedNodes()[0], []), Compiled(ReplacedNodes()[1], [JOINTS])]
  }

  lemma ReplacedBuilt()
    ensures NoDuplicates(ReplacedNodes()) && LeastReadyOrder(GraphOf(ReplacedNodes()), ["root", SQUARES])
    ensures NodesNamed(ReplacedNodes(), ["root", SQUARES], ReplacedNodes())
    ensures Constructed(ReplacedNodes()) == Ok(ReplacedCompiled())
  {
    hide ReplacedCompiled, GraphOf, NoDuplicates, LeastReadyOrder, InferAll, CompileAll;
    ReplacedOrder();
    ReplacedInferred();
    var nodes := ReplacedNodes();
    assert nodes[0] in nodes && nodes[1] in nodes;
  }

  lemma ReplacedNodesAre()
    ensures var nodes := ReplacedNodes();
      && |nodes| == 2 && nodes[0].enabled && nodes[1].enabled && nodes[0].name == "root" && nodes[1].name == SQUARES
      && nodes[0].parents == ["root"] && nodes[1].parents == ["root"]
    ensures SQUARES != "root"
  {
    assert |SQUARES| == 7;
  }

  lemma ReplacedGraph()
    ensures NoDuplicates(ReplacedNodes()) && GraphOf(ReplacedNodes()) == map["root" := ["root"], SQUARES := ["root"]]
  {
    ReplacedNodesAre();
    hide ReplacedNodes, SQUARES, GraphOf, NoDuplicates;
    var nodes := ReplacedNodes();
    NoGraph();
    assert [] + [nodes[0]] == [nodes[0]] && [nodes[0]] + [nodes[1]] == nodes;
    GraphNext([], nodes[0]);
    GraphNext([nodes[0]], nodes[1]);
  }

  lemma ReplacedOrder()
    ensures NoDuplicates(ReplacedNodes()) && LeastReadyOrder(GraphOf(ReplacedNodes()), ["root", SQUARES])
  {
    ReplacedGraph();
    NotBefore();
    ReplacedNodesAre();
    hide ReplacedNodes, GraphOf, NoDuplicates, Before, SQUARES;
    var g: Graph := map["root" := ["root"], SQUARES := ["root"]];
    var names := ["root", SQUARES];
    assert names[..0] == [] && names[..1] == ["root"];
    forall k | 0 <= k < 2
      ensures Ready(g, Elements(names[..k]), names[k])
      ensures forall other | Ready(g, Elements(names[..k]), other) :: !Before(other, names[k])
    {
      assert g["root"][0] == "root" && g[SQUARES][0] == "root";
    }
  }

  lemma NotBefore()
    ensures !Before(SQUARES, "root") && !Before("root", "root") && !Before(SQUARES, SQUARES)
  {
    BeforeIrreflexive("root");
    BeforeIrreflexive(SQUARES);
  }

  lemma ReplacedInferred()
    ensures InferAll(ReplacedNodes()) == Ok(map["root" := JOINTS, SQUARES := JOINTS])
    ensures CompileAll(map["root" := JOINTS, SQUARES := JOINTS], ReplacedNodes()) == Ok(ReplacedCompiled())
  {
    ReplacedNodesAre();
    hide InferAll, CompileAll, SQUARES;
    var nodes := ReplacedNodes();
    InferFirst(nodes[..0]);
    InferOne(nodes, 0, map["root" := JOINTS], 3);
    InferOne(nodes, 1, map["root" := JOINTS], JOINTS);
    var dims: Dims := map["root" := JOINTS, SQUARES := JOINTS];
    var cs := ReplacedCompiled();
    OneParentNats(dims, nodes[1]);
    assert nodes[..0] == [] && nodes[..2] == nodes && [] + [cs[0]] == [cs[0]] && [cs[0]] + [cs[1]] == cs;
    NothingCompiled(dims, nodes[..0]);
    CompileOne(dims, nodes, 0, [], cs[0]);
    CompileOne(dims, nodes, 1, [cs[0]], cs[1]);
  }

  /** The configuration is accepted, and every run of it ends in a dimension mismatch. */
  lemma ReplacedRootFails(w: World, q: Vec, qd: Vec)
    requires ValidWorld(w) && |q| == |qd| == JOINTS
    ensures EvaluateAll(ReplacedCompiled(), w, q, qd) == Err(DimensionMismatch)
  {
    hide ValidWorld, ApplyTaskMap, RootGeometry, MapGeometry, EvaluateAll, Shaped;
    var cs := ReplacedCompiled();
    NoNodes(cs, w, q, qd);
    TcpRows(w);
    var first: Cache := map["root" := RootGeometry(q, qd)];
    NextNode(cs, 0, w, q, qd, first);
    NextNode(cs, 1, w, q, qd, first["root" := w.context.tcp]);
    assert cs[..2] == cs && ShapesOf([w.context.tcp]) == [3];
  }

  lemma TcpRows(w: World)
    requires ValidWorld(w)
    ensures Shaped(w.context.tcp) && |w.context.tcp.x| == 3
  {
  }
}
