/** Building the solver from the configuration: evaluation order, inferred dimensions, compiled maps, and
    what that guarantees about the evaluation. */
module GraphBuild {
  import opened LinearAlgebra
  import opened RmpConfig
  import opened TopologicalOrder
  import opened TaskExpr
  import opened ChainRule
  import opened TaskMaps
  import opened TaskGraph

  type Dims = map<string, int>

  datatype BuildError = BadOrder(order: OrderError) | BadDimension | BadTaskMap

  /** The inferred dimensions of the named parents. */
  function DimsAt(dims: Dims, names: seq<string>): (r: Option<seq<int>>)
    ensures r.Some? ==> |r.value| == |names| && forall i | 0 <= i < |names| :: names[i] in dims && r.value[i] == dims[names[i]]
  {
    if names == [] then Some([])
    else if names[0] !in dims then None
    else match DimsAt(dims, names[1..])
      case None => None
      case Some(rest) => Some([dims[names[0]]] + rest)
  }

  function AsNats(dims: seq<int>): Option<seq<nat>> {
    if forall i | 0 <= i < |dims| :: 0 <= dims[i] then Some(dims) else None
  }

  /** `emplace`: the first dimension recorded for a name stays. */
  function Emplace(dims: Dims, name: string, d: int): Dims { if name in dims then dims else dims[name := d] }

  /** `node_dims` after the first nodes of the order. A parent of negative dimension, which only a slice can
      produce, makes the later compilation fail. */
  function InferAll(nodes: seq<RmpNode>): Result<Dims, BuildError> {
    if nodes == [] then Ok(map["root" := JOINTS])
    else
      var k := |nodes| - 1;
      match InferAll(nodes[..k])
      case Err(e) => Err(e)
      case Ok(dims) => InferNext(dims, nodes[k])
  }

  function ParentNats(dims: Dims, node: RmpNode): Option<seq<nat>> {
    match DimsAt(dims, node.parents)
    case None => None
    case Some(ds) => AsNats(ds)
  }

  function InferNext(dims: Dims, node: RmpNode): (r: Result<Dims, BuildError>)
    ensures r.Err? ==> r.error == BadDimension
  {
    match ParentNats(dims, node)
    case None => Err(BadDimension)
    case Some(ds) =>
      match InferDim(node, ds, SENSOR_POINTS)
      case None => Err(BadDimension)
      case Some(d) => Ok(Emplace(dims, node.name, d))
  }

  /** A node with the dimensions its map is compiled for; other nodes carry none. */
  function CompileNode(dims: Dims, node: RmpNode): (r: Result<Compiled, BuildError>)
    ensures r.Err? ==> !r.error.BadOrder?
  {
    if !UsesCasadi(node.taskMap) then Ok(Compiled(node, []))
    else match ParentNats(dims, node)
      case None => Err(BadDimension)
      case Some(ds) => if ApplyTaskMap(node, ds).None? then Err(BadTaskMap) else Ok(Compiled(node, ds))
  }

  function CompileAll(dims: Dims, nodes: seq<RmpNode>): (r: Result<seq<Compiled>, BuildError>)
    ensures r.Ok? ==> |r.value| == |nodes| && forall i | 0 <= i < |nodes| :: CompileNode(dims, nodes[i]) == Ok(r.value[i])
  {
    if nodes == [] then Ok([])
    else
      var k := |nodes| - 1;
      match CompileAll(dims, nodes[..k])
      case Err(e) => Err(e)
      case Ok(done) =>
        match CompileNode(dims, nodes[k])
        case Err(e) => Err(e)
        case Ok(c) => Ok(done + [c])
  }

  /** What the constructor makes of the nodes in evaluation order. */
  function Constructed(nodes: seq<RmpNode>): Result<seq<Compiled>, BuildError> {
    match InferAll(nodes)
    case Err(e) => Err(e)
    case Ok(dims) => CompileAll(dims, nodes)
  }

  /** `nodes` are the enabled nodes of these names. */
  ghost predicate NodesNamed(config: seq<RmpNode>, names: seq<string>, nodes: seq<RmpNode>) {
    |nodes| == |names| && forall k | 0 <= k < |names| :: nodes[k] in config && nodes[k].enabled && nodes[k].name == names[k]
  }

  lemma {:induction false} InferFails(nodes: seq<RmpNode>, k: nat)
    requires k <= |nodes| && InferAll(nodes[..k]).Err?
    ensures InferAll(nodes) == InferAll(nodes[..k])
    decreases |nodes| - k
  {
    if k == |nodes| {
      assert nodes[..k] == nodes;
    } else {
      assert nodes[..k + 1][..k] == nodes[..k];
      InferFails(nodes, k + 1);
    }
  }

  lemma {:induction false} CompileFails(dims: Dims, nodes: seq<RmpNode>, k: nat)
    requires k <= |nodes| && CompileAll(dims, nodes[..k]).Err?
    ensures CompileAll(dims, nodes) == CompileAll(dims, nodes[..k])
    decreases |nodes| - k
  {
    if k == |nodes| {
      assert nodes[..k] == nodes;
    } else {
      assert nodes[..k + 1][..k] == nodes[..k];
      CompileFails(dims, nodes, k + 1);
    }
  }

  /** The nodes at the given indices. */
  function At(config: seq<RmpNode>, order: seq<nat>): (r: seq<RmpNode>)
    requires forall i | 0 <= i < |order| :: order[i] < |config|
    ensures |r| == |order| && forall i | 0 <= i < |order| :: r[i] == config[order[i]]
  {
    seq(|order|, i requires 0 <= i < |order| => config[order[i]])
  }

  /** The solver's constructor: order, then dimensions in that order, then compilation. */
  method Build(config: seq<RmpNode>)
      returns (r: Result<seq<Compiled>, BuildError>, ghost names: seq<string>, ghost nodes: seq<RmpNode>, ghost dims: Dims)
    ensures r.Err? && r.error.BadOrder? <==>
      !NoDuplicates(config) || !ParentsPresent(GraphOf(config)) || HasCycle(GraphOf(config))
    ensures (r.Err? && r.error.BadOrder?) ||
      (NoDuplicates(config) && LeastReadyOrder(GraphOf(config), names) && NodesNamed(config, names, nodes) && r == Constructed(nodes))
    ensures r.Ok? ==> Listed(GraphOf(config), names, r.value)
    ensures r.Ok? ==> InferAll(NodesOf(r.value)) == Ok(dims) && CompileAll(dims, NodesOf(r.value)) == r
  {
    hide NoDuplicates, ParentsPresent, HasCycle, LeastReadyOrder, InferNext, CompileNode, InferAll, CompileAll, Listed, NodesOf;
    dims, nodes := map[], [];
    var order;
    order, names := BuildTopologicalOrder(config);
    if order.Err? {
      assert order.error.DuplicateName? || order.error.MissingParent? || order.error.CycleDetected?;
      return Err(BadOrder(order.error)), names, nodes, dims;
    }
    var sorted := At(config, order.value);
    nodes := sorted;
    var inferred := InferDims(sorted);
    if inferred.Err? { return Err(inferred.error), names, nodes, dims; }
    r := CompileMaps(inferred.value, sorted);
    dims := inferred.value;
    if r.Ok? {
      CompiledNodes(inferred.value, sorted, r.value);
      ListedNodes(config, names, order.value, sorted, r.value);
    }
  }

  method InferDims(nodes: seq<RmpNode>) returns (r: Result<Dims, BuildError>)
    ensures r == InferAll(nodes) && (r.Err? ==> !r.error.BadOrder?)
  {
    hide InferNext;
    var dims: Dims := map["root" := JOINTS];
    assert nodes[..0] == [];
    for k := 0 to |nodes|
      invariant InferAll(nodes[..k]) == Ok(dims)
    {
      var next := InferNext(dims, nodes[k]);
      assert nodes[..k + 1][..k] == nodes[..k];
      if next.Err? {
        InferFails(nodes, k + 1);
        return Err(next.error);
      }
      dims := next.value;
    }
    assert nodes[..|nodes|] == nodes;
    return Ok(dims);
  }

  method CompileMaps(dims: Dims, nodes: seq<RmpNode>) returns (r: Result<seq<Compiled>, BuildError>)
    ensures r == CompileAll(dims, nodes) && (r.Err? ==> !r.error.BadOrder?)
  {
    hide CompileNode;
    var compiled: seq<Compiled> := [];
    for k := 0 to |nodes|
      invariant CompileAll(dims, nodes[..k]) == Ok(compiled)
    {
      var c := CompileNode(dims, nodes[k]);
      assert nodes[..k + 1][..k] == nodes[..k] && nodes[..k + 1][k] == nodes[k];
      if c.Err? {
        CompileFails(dims, nodes, k + 1);
        return Err(c.error);
      }
      compiled := compiled + [c.value];
    }
    assert nodes[..|nodes|] == nodes;
    return Ok(compiled);
  }

  function NodesOf(compiled: seq<Compiled>): (r: seq<RmpNode>)
    ensures |r| == |compiled|
  {
    seq(|compiled|, i requires 0 <= i < |compiled| => compiled[i].node)
  }

  /** The compiled nodes are the named nodes of the graph, in that order. */
  ghost predicate Listed(g: Graph, names: seq<string>, compiled: seq<Compiled>) {
    |compiled| == |names|
    && forall k | 0 <= k < |names| ::
         names[k] in g && compiled[k].node.name == names[k] && compiled[k].node.parents == g[names[k]]
  }

  lemma CompiledNodes(dims: Dims, nodes: seq<RmpNode>, compiled: seq<Compiled>)
    requires CompileAll(dims, nodes) == Ok(compiled)
    ensures NodesOf(compiled) == nodes
  {
    forall i | 0 <= i < |nodes|
      ensures compiled[i].node == nodes[i]
    {
      assert CompileNode(dims, nodes[i]) == Ok(compiled[i]);
    }
  }

  lemma ListedNodes(config: seq<RmpNode>, names: seq<string>, order: seq<nat>, nodes: seq<RmpNode>, compiled: seq<Compiled>)
    requires NoDuplicates(config) && IndexesOf(config, names, order) && NodesOf(compiled) == nodes && |nodes| == |order|
    requires forall i | 0 <= i < |order| :: order[i] < |config| && nodes[i] == config[order[i]]
    ensures Listed(GraphOf(config), names, compiled)
  {
    forall k | 0 <= k < |names|
      ensures names[k] in GraphOf(config) && compiled[k].node.name == names[k]
      ensures compiled[k].node.parents == GraphOf(config)[names[k]]
    {
      assert config[order[k]].name in GraphOf(config);
      assert compiled[k].node == nodes[k];
    }
  }

  // ----- what the order guarantees

  lemma {:induction false} CacheNames(names: seq<string>, compiled: seq<Compiled>, w: World, q: Vec, qd: Vec)
    requires ValidWorld(w) && |q| == |qd| == JOINTS && |compiled| == |names|
    requires forall k | 0 <= k < |names| :: compiled[k].node.name == names[k]
    requires EvaluateAll(compiled, w, q, qd).Ok?
    ensures EvaluateAll(compiled, w, q, qd).value.Keys == {"root"} + Elements(names)
  {
    hide ValidWorld, EvaluateNode;
    if names == [] {
      assert compiled == [];
    } else {
      var k := |names| - 1;
      CacheNames(names[..k], compiled[..k], w, q, qd);
      assert names == names[..k] + [names[k]];
      assert Elements(names) == Elements(names[..k]) + {names[k]};
    }
  }

  /** In the solver's order every parent is in the cache when its child is evaluated. */
  lemma {:induction false} NoMissingParent(g: Graph, names: seq<string>, compiled: seq<Compiled>, w: World, q: Vec, qd: Vec)
    requires ValidWorld(w) && |q| == |qd| == JOINTS && GreedyPrefix(g, names) && Listed(g, names, compiled)
    ensures EvaluateAll(compiled, w, q, qd) != Err(MissingParentState)
  {
    hide ValidWorld, EvaluateCasadi, EvaluateNative;
    if names != [] {
      var k := |names| - 1;
      PrefixGreedy(g, names, k);
      NoMissingParent(g, names[..k], compiled[..k], w, q, qd);
      if EvaluateAll(compiled[..k], w, q, qd).Ok? {
        var cache := EvaluateAll(compiled[..k], w, q, qd).value;
        CacheNames(names[..k], compiled[..k], w, q, qd);
        forall p | p in compiled[k].node.parents
          ensures p in cache
        {
          if p != "root" { ParentsFirst(g, names, k, p); }
          assert p in cache.Keys;
        }
        NotMissing(compiled[k], w, cache);
      }
    }
  }

  lemma PrefixGreedy(g: Graph, names: seq<string>, k: nat)
    requires GreedyPrefix(g, names) && k <= |names|
    ensures GreedyPrefix(g, names[..k])
  {
    forall j | 0 <= j < k
      ensures names[..k][..j] == names[..j]
    {
    }
  }

  lemma NotMissing(c: Compiled, w: World, cache: Cache)
    requires ValidWorld(w) && ValidCache(cache) && forall p | p in c.node.parents :: p in cache
    ensures EvaluateNode(c, w, cache) != Err(MissingParentState)
  {
  }

  // ----- the dimensions a map is compiled for

  lemma {:induction false} DimsKept(before: Dims, after: Dims, names: seq<string>)
    requires DimsAt(before, names).Some? && forall n | n in before :: n in after && after[n] == before[n]
    ensures DimsAt(after, names) == DimsAt(before, names)
  {
    if names != [] { DimsKept(before, after, names[1..]); }
  }

  /** Dimensions recorded for a prefix of the order stay. */
  lemma {:induction false} InferredPrefix(nodes: seq<RmpNode>, k: nat)
    requires InferAll(nodes).Ok? && k <= |nodes|
    ensures InferAll(nodes[..k]).Ok?
    ensures forall n | n in InferAll(nodes[..k]).value ::
      n in InferAll(nodes).value && InferAll(nodes).value[n] == InferAll(nodes[..k]).value[n]
  {
    if k == |nodes| {
      assert nodes[..k] == nodes;
    } else {
      var m := |nodes| - 1;
      InferredPrefix(nodes[..m], k);
      assert nodes[..m][..k] == nodes[..k];
    }
  }

  /** Only the root and the listed nodes have a dimension, and the root keeps its six. */
  lemma {:induction false} InferredNames(nodes: seq<RmpNode>)
    requires InferAll(nodes).Ok?
    ensures forall name | name in InferAll(nodes).value :: name == "root" || exists i :: 0 <= i < |nodes| && nodes[i].name == name
    ensures "root" in InferAll(nodes).value && InferAll(nodes).value["root"] == JOINTS
    ensures forall i | 0 <= i < |nodes| :: nodes[i].name in InferAll(nodes).value
  {
    hide InferDim, ParentNats;
    if nodes != [] {
      var k := |nodes| - 1;
      InferredNames(nodes[..k]);
      forall name | name in InferAll(nodes).value && name != "root"
        ensures exists i :: 0 <= i < |nodes| && nodes[i].name == name
      {
        if name in InferAll(nodes[..k]).value {
          var i :| 0 <= i < k && nodes[..k][i].name == name;
          assert nodes[i].name == name;
        }
      }
      forall i | 0 <= i < |nodes|
        ensures nodes[i].name in InferAll(nodes).value
      {
        if i < k { assert nodes[..k][i].name in InferAll(nodes[..k]).value; }
      }
    }
  }

  lemma PrefixNodes(compiled: seq<Compiled>, k: nat)
    requires k <= |compiled|
    ensures NodesOf(compiled[..k]) == NodesOf(compiled)[..k]
  {
  }

  /** Each node's compiled dimensions are those inferred for its parents before it. */
  ghost predicate CompiledFor(compiled: seq<Compiled>) {
    forall k | 0 <= k < |compiled| && UsesCasadi(compiled[k].node.taskMap) ::
      var before := InferAll(NodesOf(compiled[..k]));
      before.Ok? ==> ParentNats(before.value, compiled[k].node) == Some(compiled[k].dims)
  }

  lemma CompiledInOrder(compiled: seq<Compiled>, dims: Dims)
    requires InferAll(NodesOf(compiled)) == Ok(dims) && CompileAll(dims, NodesOf(compiled)) == Ok(compiled)
    ensures CompiledFor(compiled)
  {
    hide UsesCasadi, ParentNats, InferAll, CompileAll, NodesOf;
    forall k | 0 <= k < |compiled| && UsesCasadi(compiled[k].node.taskMap) && InferAll(NodesOf(compiled[..k])).Ok?
      ensures ParentNats(InferAll(NodesOf(compiled[..k])).value, compiled[k].node) == Some(compiled[k].dims)
    {
      CompiledAt(compiled, dims, k);
    }
  }

  lemma CompiledAt(compiled: seq<Compiled>, dims: Dims, k: nat)
    requires InferAll(NodesOf(compiled)) == Ok(dims) && CompileAll(dims, NodesOf(compiled)) == Ok(compiled)
    requires k < |compiled| && UsesCasadi(compiled[k].node.taskMap)
    ensures InferAll(NodesOf(compiled[..k])).Ok?
    ensures ParentNats(InferAll(NodesOf(compiled[..k])).value, compiled[k].node) == Some(compiled[k].dims)
  {
    hide UsesCasadi, InferAll, CompileAll, NodesOf, ParentNats;
    var nodes := NodesOf(compiled);
    PrefixNodes(compiled, k);
    InferredPrefix(nodes, k);
    InferredPrefix(nodes, k + 1);
    var before := InferAll(nodes[..k]).value;
    InferredParents(nodes, k);
    ParentsKept(before, dims, nodes[k]);
    assert CompileNode(dims, nodes[k]) == Ok(compiled[k]);
    CompiledDims(dims, nodes[k], compiled[k]);
    NodeAt(compiled, k);
  }

  lemma NodeAt(compiled: seq<Compiled>, k: nat)
    requires k < |compiled|
    ensures NodesOf(compiled)[k] == compiled[k].node
  {
  }

  lemma InferredParents(nodes: seq<RmpNode>, k: nat)
    requires k < |nodes| && InferAll(nodes[..k + 1]).Ok? && InferAll(nodes[..k]).Ok?
    ensures ParentNats(InferAll(nodes[..k]).value, nodes[k]).Some?
  {
    hide InferDim, ParentNats;
    assert nodes[..k + 1][..k] == nodes[..k] && nodes[..k + 1][k] == nodes[k];
  }

  lemma ParentsKept(before: Dims, after: Dims, node: RmpNode)
    requires ParentNats(before, node).Some? && forall n | n in before :: n in after && after[n] == before[n]
    ensures ParentNats(after, node) == ParentNats(before, node)
  {
    DimsKept(before, after, node.parents);
  }

  lemma CompiledDims(dims: Dims, node: RmpNode, c: Compiled)
    requires CompileNode(dims, node) == Ok(c) && UsesCasadi(node.taskMap)
    ensures ParentNats(dims, node) == Some(c.dims)
  {
    hide ApplyTaskMap, UsesCasadi, ParentNats;
  }
}
