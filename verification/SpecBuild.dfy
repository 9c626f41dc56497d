/** The learning interface's own pass over the configuration: evaluation order, inferred dimensions, feature specs. */
module SpecBuild {
  import opened RmpConfig
  import opened TopologicalOrder
  import opened TaskMaps
  import GraphBuild
  import opened FeatureLayout

  datatype BuildError = BadOrder(order: OrderError) | BadDimension | BadSpec(error: SpecError)

  /** `dims.at` for the first parent; `None` where it throws or there is none. */
  function FrontAt(dims: Dims, names: seq<string>): Option<int> {
    if names != [] && names[0] in dims then Some(dims[names[0]]) else None
  }

  function SumAt(dims: Dims, names: seq<string>): Option<int> {
    if names == [] then Some(0)
    else if names[0] !in dims then None
    else match SumAt(dims, names[1..])
      case None => None
      case Some(rest) => Some(dims[names[0]] + rest)
  }

  method AddUp(dims: Dims, names: seq<string>) returns (r: Option<int>)
    ensures r == SumAt(dims, names)
  {
    var total := 0;
    assert names[0..] == names;
    for i := 0 to |names|
      invariant SumAt(dims, names) ==
        match SumAt(dims, names[i..]) { case None => None case Some(rest) => Some(total + rest) }
    {
      if names[i] !in dims { return None; }
      assert names[i..][1..] == names[i + 1..];
      total := total + dims[names[i]];
    }
    return Some(total);
  }

  /** What `infer_node_dim` makes of a node; `None` where it throws or looks at a first parent that is not there. */
  function NodeDim(node: RmpNode, dims: Dims): Option<int> {
    match node.taskMap
    case TcpPosition | LinkPosition | LinkOrientationAxis => Some(3)
    case JointLimitMap => Some(12)
    case ControlPoints => Some(3 * LEARNING_POINTS)
    case CollisionDistance => Some(LEARNING_POINTS)
    case NormMap => Some(1)
    case Affine =>
      if node.bias != [] then Some(|node.bias|)
      else if node.matrix != [] then
        var n := SumAt(dims, node.parents);
        if n.None? || n.value <= 0 || |node.matrix| % n.value != 0 then None else Some(|node.matrix| / n.value)
      else FrontAt(dims, node.parents)
    case Concat => SumAt(dims, node.parents)
    case Slice =>
      if node.sliceLength > 0 then Some(node.sliceLength)
      else
        var front := FrontAt(dims, node.parents);
        if front.None? then None else Some(front.value - node.sliceStart)
    case _ => FrontAt(dims, node.parents)
  }

  /** `infer_node_dim`. */
  method InferNodeDim(node: RmpNode, dims: Dims) returns (r: Option<int>)
    ensures r == NodeDim(node, dims)
  {
    match node.taskMap {
      case TcpPosition => return Some(3);
      case LinkPosition => return Some(3);
      case LinkOrientationAxis => return Some(3);
      case JointLimitMap => return Some(12);
      case ControlPoints => return Some(3 * LEARNING_POINTS);
      case CollisionDistance => return Some(LEARNING_POINTS);
      case NormMap => return Some(1);
      case Affine =>
        if node.bias != [] { return Some(|node.bias|); }
        if node.matrix != [] {
          var n := AddUp(dims, node.parents);
          if n.None? || n.value <= 0 || |node.matrix| % n.value != 0 { return None; }
          return Some(|node.matrix| / n.value);
        }
        return FrontAt(dims, node.parents);
      case Concat =>
        r := AddUp(dims, node.parents);
      case Slice =>
        if node.sliceLength > 0 { return Some(node.sliceLength); }
        var front := FrontAt(dims, node.parents);
        return if front.None? then None else Some(front.value - node.sliceStart);
      case _ => return FrontAt(dims, node.parents);
    }
  }

  /** The dimensions after the first nodes of the order. */
  function DimsOf(nodes: seq<RmpNode>): Option<Dims> {
    if nodes == [] then Some(map["root" := 6])
    else
      var k := |nodes| - 1;
      match DimsOf(nodes[..k])
      case None => None
      case Some(dims) =>
        match NodeDim(nodes[k], dims)
        case None => None
        case Some(d) => Some(GraphBuild.Emplace(dims, nodes[k].name, d))
  }

  lemma {:induction false} DimsFail(nodes: seq<RmpNode>, k: nat)
    requires k <= |nodes| && DimsOf(nodes[..k]).None?
    ensures DimsOf(nodes).None?
    decreases |nodes| - k
  {
    if k == |nodes| {
      assert nodes[..k] == nodes;
    } else {
      assert nodes[..k + 1][..k] == nodes[..k];
      DimsFail(nodes, k + 1);
    }
  }

  /** The dimensions in evaluation order; every listed node gets one. */
  method InferDims(nodes: seq<RmpNode>) returns (r: Option<Dims>)
    ensures r == DimsOf(nodes)
    ensures r.Some? ==> forall i | 0 <= i < |nodes| :: nodes[i].name in r.value
  {
    hide NodeDim;
    var dims: Dims := map["root" := 6];
    assert nodes[..0] == [];
    for k := 0 to |nodes|
      invariant DimsOf(nodes[..k]) == Some(dims) && forall i | 0 <= i < k :: nodes[i].name in dims
    {
      var d := InferNodeDim(nodes[k], dims);
      assert nodes[..k + 1][..k] == nodes[..k];
      if d.None? {
        DimsFail(nodes, k + 1);
        return None;
      }
      dims := GraphBuild.Emplace(dims, nodes[k].name, d.value);
    }
    assert nodes[..|nodes|] == nodes;
    return Some(dims);
  }

  /** The order and its dimensions give every enabled node a dimension. */
  lemma AllDimensioned(config: seq<RmpNode>, names: seq<string>, nodes: seq<RmpNode>, dims: Dims)
    requires NoDuplicates(config) && LeastReadyOrder(GraphOf(config), names) && GraphBuild.NodesNamed(config, names, nodes)
    requires forall i | 0 <= i < |nodes| :: nodes[i].name in dims
    ensures Dimensioned(config, dims)
  {
    forall i | 0 <= i < |config| && config[i].enabled
      ensures config[i].name in dims
    {
      assert config[i].name in GraphOf(config);
      assert config[i].name in Elements(names);
      var k :| 0 <= k < |names| && names[k] == config[i].name;
      assert nodes[k].name in dims;
    }
  }

  /** The nodes in evaluation order are those of the names. */
  ghost predicate Ordered(config: seq<RmpNode>, names: seq<string>, nodes: seq<RmpNode>) {
    NoDuplicates(config) && LeastReadyOrder(GraphOf(config), names) && GraphBuild.NodesNamed(config, names, nodes)
  }

  /** `build_external_feature_specs` from the configuration alone: the ordering errors exactly, then a failed inference
      exactly, then inconsistent dimensions exactly; otherwise one spec per key, covering every external node. */
  method BuildExternalFeatureSpecs(config: seq<RmpNode>)
      returns (r: Result<seq<Spec>, BuildError>, ghost names: seq<string>, ghost nodes: seq<RmpNode>)
    ensures r.Err? && r.error.BadOrder? <==>
      !NoDuplicates(config) || !ParentsPresent(GraphOf(config)) || HasCycle(GraphOf(config))
    ensures (r.Err? && r.error.BadOrder?) || Ordered(config, names, nodes)
    ensures r == Err(BadDimension) ==> DimsOf(nodes).None?
    ensures !(r.Err? && r.error.BadOrder?) && r != Err(BadDimension) ==>
      && DimsOf(nodes).Some? && var dims := DimsOf(nodes).value;
      && Dimensioned(config, dims)
      && (r.Err? <==> Inconsistent(config, dims))
      && (r.Ok? ==> Covers(config, dims, r.value))
  {
    hide NoDuplicates, ParentsPresent, HasCycle, LeastReadyOrder, GraphBuild.NodesNamed, DimsOf, Dimensioned, Inconsistent, Covers, GraphOf;
    nodes := [];
    var order;
    order, names := BuildTopologicalOrder(config);
    if order.Err? {
      assert order.error.DuplicateName? || order.error.MissingParent? || order.error.CycleDetected?;
      return Err(BadOrder(order.error)), names, nodes;
    }
    var sorted := GraphBuild.At(config, order.value);
    nodes := sorted;
    NamedNodes(config, names, order.value);
    var dims := InferDims(sorted);
    if dims.None? { return Err(BadDimension), names, nodes; }
    AllDimensioned(config, names, nodes, dims.value);
    var specs := BuildSpecs(config, dims.value);
    match specs {
      case Ok(s) => r := Ok(s);
      case Err(e) => r := Err(BadSpec(e));
    }
  }

  lemma NamedNodes(config: seq<RmpNode>, names: seq<string>, order: seq<nat>)
    requires IndexesOf(config, names, order)
    ensures (forall k | 0 <= k < |order| :: order[k] < |config|) && GraphBuild.NodesNamed(config, names, GraphBuild.At(config, order))
  {
  }

  // ----- against the solver's inference

  lemma {:induction false} SumIsTotal(dims: Dims, names: seq<string>, ds: seq<nat>)
    requires GraphBuild.DimsAt(dims, names) == Some(ds)
    ensures SumAt(dims, names) == Some(TotalDim(ds)) && (names != [] ==> FrontAt(dims, names) == Some(ds[0])) && |ds| == |names|
  {
    if names != [] { SumIsTotal(dims, names[1..], ds[1..]); }
  }

  predicate CountsPoints(node: RmpNode) { node.taskMap == ControlPoints || node.taskMap == CollisionDistance }

  lemma NodeDimAgrees(node: RmpNode, dims: Dims, ds: seq<nat>)
    requires GraphBuild.ParentNats(dims, node) == Some(ds) && InferDim(node, ds, SENSOR_POINTS).Some?
    ensures NodeDim(node, dims) == InferDim(node, ds, SENSOR_POINTS) <==> !CountsPoints(node)
  {
    hide GraphBuild.DimsAt, TotalDim, SumAt, FrontAt;
    SumIsTotal(dims, node.parents, ds);
  }

  /** The nodes have different names. */
  ghost predicate Distinct(nodes: seq<RmpNode>) { forall i, j | 0 <= i < j < |nodes| :: nodes[i].name != nodes[j].name }

  /** Both programs give a dimension to the same names. */
  lemma {:induction false} SameNames(nodes: seq<RmpNode>)
    requires GraphBuild.InferAll(nodes).Ok? && DimsOf(nodes).Some?
    ensures DimsOf(nodes).value.Keys == GraphBuild.InferAll(nodes).value.Keys
    ensures "root" in DimsOf(nodes).value && DimsOf(nodes).value["root"] == 6
  {
    hide GraphBuild.ParentNats, NodeDim, InferDim;
    if nodes != [] { SameNames(nodes[..|nodes| - 1]); }
  }

  lemma {:induction false} DimsPrefix(nodes: seq<RmpNode>, k: nat)
    requires DimsOf(nodes).Some? && k <= |nodes|
    ensures DimsOf(nodes[..k]).Some?
    ensures forall n | n in DimsOf(nodes[..k]).value :: n in DimsOf(nodes).value && DimsOf(nodes).value[n] == DimsOf(nodes[..k]).value[n]
  {
    hide NodeDim;
    if k == |nodes| {
      assert nodes[..k] == nodes;
    } else {
      var m := |nodes| - 1;
      DimsPrefix(nodes[..m], k);
      assert nodes[..m][..k] == nodes[..k];
    }
  }

  /** A point-counting node other than one named "root" gets different dimensions. */
  lemma CountedApart(nodes: seq<RmpNode>, k: nat)
    requires GraphBuild.InferAll(nodes).Ok? && DimsOf(nodes).Some? && Distinct(nodes)
    requires k < |nodes| && CountsPoints(nodes[k]) && nodes[k].name != "root"
    ensures DimsOf(nodes) != Some(GraphBuild.InferAll(nodes).value)
  {
    hide GraphBuild.InferAll, DimsOf;
    var name := nodes[k].name;
    GraphBuild.InferredPrefix(nodes, k);
    GraphBuild.InferredPrefix(nodes, k + 1);
    DimsPrefix(nodes, k);
    DimsPrefix(nodes, k + 1);
    SameNames(nodes[..k]);
    GraphBuild.InferredNames(nodes[..k]);
    assert name !in GraphBuild.InferAll(nodes[..k]).value.Keys;
    var upTo := nodes[..k + 1];
    assert upTo[..k] == nodes[..k] && upTo[k] == nodes[k];
    BothNext(upTo);
    var solver, mine := GraphBuild.InferAll(upTo).value, DimsOf(upTo).value;
    assert name in solver && name in mine && solver[name] != mine[name];
  }

  /** The last node's entry in both programs. */
  lemma BothNext(nodes: seq<RmpNode>)
    requires nodes != [] && GraphBuild.InferAll(nodes).Ok? && DimsOf(nodes).Some?
    ensures var k := |nodes| - 1;
      && GraphBuild.InferAll(nodes[..k]).Ok? && DimsOf(nodes[..k]).Some?
      && var solver, mine := GraphBuild.InferAll(nodes[..k]).value, DimsOf(nodes[..k]).value;
      && NodeDim(nodes[k], mine).Some? && GraphBuild.ParentNats(solver, nodes[k]).Some?
      && var ds := GraphBuild.ParentNats(solver, nodes[k]).value;
      && InferDim(nodes[k], ds, SENSOR_POINTS).Some?
      && GraphBuild.InferAll(nodes).value == GraphBuild.Emplace(solver, nodes[k].name, InferDim(nodes[k], ds, SENSOR_POINTS).value)
      && DimsOf(nodes).value == GraphBuild.Emplace(mine, nodes[k].name, NodeDim(nodes[k], mine).value)
  {
    hide GraphBuild.ParentNats, NodeDim, InferDim, GraphBuild.Emplace;
  }

  /** On every graph of distinct names that the solver accepts, both programs infer the same dimensions if and only if no
      node counts points, one named "root" aside. */
  lemma SameDimensions(nodes: seq<RmpNode>)
    requires GraphBuild.InferAll(nodes).Ok? && Distinct(nodes)
    ensures DimsOf(nodes) == Some(GraphBuild.InferAll(nodes).value)
       <==> forall i | 0 <= i < |nodes| && nodes[i].name != "root" :: !CountsPoints(nodes[i])
  {
    hide CountsPoints, GraphBuild.InferAll, DimsOf, Distinct;
    if forall i | 0 <= i < |nodes| && nodes[i].name != "root" :: !CountsPoints(nodes[i]) {
      NothingCounted(nodes);
    } else if DimsOf(nodes).Some? {
      var k :| 0 <= k < |nodes| && nodes[k].name != "root" && CountsPoints(nodes[k]);
      CountedApart(nodes, k);
    }
  }

  lemma {:induction false} NothingCounted(nodes: seq<RmpNode>)
    requires GraphBuild.InferAll(nodes).Ok? && forall i | 0 <= i < |nodes| && nodes[i].name != "root" :: !CountsPoints(nodes[i])
    ensures DimsOf(nodes) == Some(GraphBuild.InferAll(nodes).value)
  {
    hide GraphBuild.ParentNats, NodeDim, InferDim, CountsPoints;
    if nodes != [] {
      var k := |nodes| - 1;
      NothingCounted(nodes[..k]);
      var dims := GraphBuild.InferAll(nodes[..k]).value;
      GraphBuild.InferredNames(nodes[..k]);
      NodeDimAgrees(nodes[k], dims, GraphBuild.ParentNats(dims, nodes[k]).value);
      CountsSome(nodes[k], dims);
    }
  }

  lemma CountsSome(node: RmpNode, dims: Dims)
    ensures CountsPoints(node) ==> NodeDim(node, dims).Some?
  {
  }

  // ----- off the point-counting branch

  /** The nodes that count points, and everything built on them. */
  function PointBranch(nodes: seq<RmpNode>): set<string> {
    if nodes == [] then {}
    else
      var k := |nodes| - 1;
      var branch, n := PointBranch(nodes[..k]), nodes[k];
      if n.name != "root" && (CountsPoints(n) || exists p | p in n.parents :: p in branch) then branch + {n.name} else branch
  }

  /** The dimension of a node depends on its parents' alone. */
  lemma {:induction false} SumLocal(a: Dims, b: Dims, names: seq<string>)
    requires forall p | p in names :: p in a && p in b && a[p] == b[p]
    ensures SumAt(a, names) == SumAt(b, names)
  {
    if names != [] { SumLocal(a, b, names[1..]); }
  }

  lemma NodeDimLocal(node: RmpNode, a: Dims, b: Dims)
    requires forall p | p in node.parents :: p in a && p in b && a[p] == b[p]
    ensures NodeDim(node, a) == NodeDim(node, b)
  {
    SumLocal(a, b, node.parents);
  }

  ghost predicate AgreeOff(a: Dims, b: Dims, branch: set<string>) {
    a.Keys == b.Keys && forall name | name in a && name !in branch :: a[name] == b[name]
  }

  /** On every graph the solver accepts, both programs agree on every name off the point-counting branch. */
  lemma {:induction false} OffBranch(nodes: seq<RmpNode>)
    requires GraphBuild.InferAll(nodes).Ok? && DimsOf(nodes).Some?
    ensures AgreeOff(GraphBuild.InferAll(nodes).value, DimsOf(nodes).value, PointBranch(nodes))
  {
    hide GraphBuild.InferAll, DimsOf, GraphBuild.ParentNats, NodeDim, InferDim, CountsPoints, AgreeOff;
    if nodes == [] {
      NothingYet();
    } else {
      var k := |nodes| - 1;
      BothNext(nodes);
      OffBranch(nodes[..k]);
      GraphBuild.InferredNames(nodes[..k]);
      OffNext(nodes[k], GraphBuild.InferAll(nodes[..k]).value, DimsOf(nodes[..k]).value, PointBranch(nodes[..k]), PointBranch(nodes));
    }
  }

  lemma NothingYet()
    ensures GraphBuild.InferAll([]) == Ok(map["root" := 6]) && DimsOf([]) == Some(map["root" := 6])
    ensures AgreeOff(map["root" := 6], map["root" := 6], {})
  {
  }

  lemma OffNext(n: RmpNode, solver: Dims, mine: Dims, before: set<string>, after: set<string>)
    requires AgreeOff(solver, mine, before) && "root" in solver
    requires GraphBuild.ParentNats(solver, n).Some? && InferDim(n, GraphBuild.ParentNats(solver, n).value, SENSOR_POINTS).Some? && NodeDim(n, mine).Some?
    requires after == if n.name != "root" && (CountsPoints(n) || exists p | p in n.parents :: p in before) then before + {n.name} else before
    ensures var ds := GraphBuild.ParentNats(solver, n).value;
      AgreeOff(GraphBuild.Emplace(solver, n.name, InferDim(n, ds, SENSOR_POINTS).value),
               GraphBuild.Emplace(mine, n.name, NodeDim(n, mine).value), after)
  {
    hide NodeDim, InferDim, CountsPoints, GraphBuild.ParentNats;
    var ds := GraphBuild.ParentNats(solver, n).value;
    assert n.name in solver.Keys <==> n.name in mine.Keys;
    if n.name !in solver && n.name !in after {
      ParentsKnown(solver, n);
      forall p | p in n.parents
        ensures p in solver && p in mine && solver[p] == mine[p]
      {
        assert p in solver.Keys;
      }
      NodeDimLocal(n, solver, mine);
      NodeDimAgrees(n, solver, ds);
    }
  }

  lemma {:induction false} LookedUp(dims: Dims, names: seq<string>)
    requires GraphBuild.DimsAt(dims, names).Some?
    ensures forall p | p in names :: p in dims
  {
    if names != [] { LookedUp(dims, names[1..]); }
  }

  lemma ParentsKnown(dims: Dims, n: RmpNode)
    requires GraphBuild.ParentNats(dims, n).Some?
    ensures forall p | p in n.parents :: p in dims
  {
    LookedUp(dims, n.parents);
  }

  /** Where the learning interface fails on a graph the solver accepts, an affine node reads the point-counting branch. */
  lemma {:induction false} InferenceFails(nodes: seq<RmpNode>)
    requires GraphBuild.InferAll(nodes).Ok? && DimsOf(nodes).None?
    ensures exists k, p :: 0 <= k < |nodes| && nodes[k].taskMap == Affine && p in nodes[k].parents && p in PointBranch(nodes[..k])
  {
    hide GraphBuild.ParentNats, NodeDim, InferDim, CountsPoints, PointBranch;
    var m := |nodes| - 1;
    if DimsOf(nodes[..m]).None? {
      InferenceFails(nodes[..m]);
      var k, p :| 0 <= k < m && nodes[..m][k].taskMap == Affine && p in nodes[..m][k].parents && p in PointBranch(nodes[..m][..k]);
      assert nodes[..m][..k] == nodes[..k] && nodes[..m][k] == nodes[k];
    } else {
      OffBranch(nodes[..m]);
      FailsOver(nodes[m], GraphBuild.InferAll(nodes[..m]).value, DimsOf(nodes[..m]).value, PointBranch(nodes[..m]));
    }
  }

  lemma FailsOver(n: RmpNode, solver: Dims, mine: Dims, branch: set<string>)
    requires AgreeOff(solver, mine, branch) && NodeDim(n, mine).None?
    requires GraphBuild.ParentNats(solver, n).Some? && InferDim(n, GraphBuild.ParentNats(solver, n).value, SENSOR_POINTS).Some?
    ensures n.taskMap == Affine && exists p :: p in n.parents && p in branch
  {
    var ds := GraphBuild.ParentNats(solver, n).value;
    ParentsKnown(solver, n);
    SumIsTotal(solver, n.parents, ds);
    forall p | p in n.parents
      ensures p in mine
    {
      assert p in solver.Keys;
    }
    SumKnown(mine, n.parents);
    if forall p | p in n.parents :: p !in branch {
      NodeDimLocal(n, solver, mine);
      NodeDimAgrees(n, solver, ds);
    }
  }

  lemma {:induction false} SumKnown(dims: Dims, names: seq<string>)
    requires forall p | p in names :: p in dims
    ensures SumAt(dims, names).Some?
  {
    if names != [] { SumKnown(dims, names[1..]); }
  }

  /** The spec of an external node off that branch has the solver's dimension. */
  lemma SpecDimension(config: seq<RmpNode>, names: seq<string>, nodes: seq<RmpNode>, specs: seq<Spec>, i: nat)
    requires Ordered(config, names, nodes) && GraphBuild.InferAll(nodes).Ok? && DimsOf(nodes).Some?
    requires Dimensioned(config, DimsOf(nodes).value) && Covers(config, DimsOf(nodes).value, specs)
    requires i < |config| && IsExternal(config[i]) && config[i].name !in PointBranch(nodes)
    ensures config[i].name in GraphBuild.InferAll(nodes).value
    ensures exists j :: 0 <= j < |specs| && specs[j].key == config[i].targetKey
                        && specs[j].dim == GraphBuild.InferAll(nodes).value[config[i].name]
  {
    hide GraphBuild.InferAll, DimsOf, PointBranch;
    OffBranch(nodes);
    var j :| 0 <= j < |specs| && specs[j].key == config[i].targetKey;
    assert config[i].name in DimsOf(nodes).value.Keys;
    assert Describes(config, DimsOf(nodes).value, specs[j].key, specs[j].dim, specs[j].nodeNames);
  }
}
