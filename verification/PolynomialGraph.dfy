/** A built graph of polynomial maps and copies, from the configuration to the derivatives. */
module PolynomialGraph {
  import opened LinearAlgebra
  import opened RmpConfig
  import opened TopologicalOrder
  import opened Elementary
  import opened TaskExpr
  import opened ChainRule
  import opened TaskMaps
  import opened TaskGraph
  import opened GraphBuild
  import opened GraphSizes
  import opened GraphExact

  predicate Copies(m: TaskMap) { m == IdentityMap || m == CspaceTargetMap }

  /** Only polynomial maps and copies. */
  ghost predicate PolynomialNodes(compiled: seq<Compiled>) {
    forall k | 0 <= k < |compiled| :: PolynomialMap(compiled[k].node.taskMap) || Copies(compiled[k].node.taskMap)
  }

  /** What compilation gives such a node. */
  ghost predicate Usable(c: Compiled) {
    if PolynomialMap(c.node.taskMap) then ApplyTaskMap(c.node, c.dims).Some? else Copies(c.node.taskMap) && c.node.parents != []
  }

  lemma UsableNode(compiled: seq<Compiled>, dims: Dims, k: nat)
    requires InferAll(NodesOf(compiled)) == Ok(dims) && CompileAll(dims, NodesOf(compiled)) == Ok(compiled)
    requires PolynomialNodes(compiled) && k < |compiled|
    ensures Usable(compiled[k])
  {
    hide InferAll, CompileAll, NodesOf, ApplyTaskMap;
    var node := NodesOf(compiled)[k];
    NodeAt(compiled, k);
    if UsesCasadi(node.taskMap) {
      CompiledSizes(compiled, dims, k);
    } else {
      InferredPrefix(NodesOf(compiled), k);
      InferredPrefix(NodesOf(compiled), k + 1);
      CopyHasParent(NodesOf(compiled), k);
    }
  }

  lemma CopyHasParent(nodes: seq<RmpNode>, k: nat)
    requires k < |nodes| && InferAll(nodes[..k + 1]).Ok? && Copies(nodes[k].taskMap)
    ensures nodes[k].parents != []
  {
    assert nodes[..k + 1][..k] == nodes[..k] && nodes[..k + 1][k] == nodes[k];
  }

  lemma NodeErrors(c: Compiled, w: World, cache: Cache)
    requires ValidWorld(w) && ValidCache(cache) && Usable(c)
    ensures EvaluateNode(c, w, cache).Err? ==> EvaluateNode(c, w, cache).error in {MissingParentState, DimensionMismatch}
  {
    hide ValidWorld, ApplyTaskMap, MapGeometry;
  }

  /** Such a graph can only fail on a missing parent or a wrong size. */
  lemma {:induction false} RunErrors(compiled: seq<Compiled>, w: World, q: Vec, qd: Vec)
    requires ValidWorld(w) && |q| == |qd| == JOINTS && forall k | 0 <= k < |compiled| :: Usable(compiled[k])
    ensures EvaluateAll(compiled, w, q, qd).Err? ==> EvaluateAll(compiled, w, q, qd).error in {MissingParentState, DimensionMismatch}
  {
    hide ValidWorld, EvaluateNode, Usable;
    if compiled != [] {
      var k := |compiled| - 1;
      RunErrors(compiled[..k], w, q, qd);
      if EvaluateAll(compiled[..k], w, q, qd).Ok? { NodeErrors(compiled[k], w, EvaluateAll(compiled[..k], w, q, qd).value); }
    }
  }

  /** One step keeps the cache exact without looking at the kinematics. */
  lemma PolynomialStep(c: Compiled, w: World, m: Maps, fns: Fns, cache: Cache, q: Vec, qd: Vec)
    requires ValidWorld(w) && Standard(w.lib) && |q| == |qd| == JOINTS && Usable(c)
    requires ValidCache(cache) && CacheExact(fns, cache, q, qd) && EvaluateNode(c, w, cache).Ok?
    ensures Exact(NodeFn(c, w, m, fns), EvaluateNode(c, w, cache).value, q, qd)
  {
    hide Exact, Standard, ValidWorld, NodeFn, EvaluateCasadi, ApplyTaskMap, RegularNode;
    var parents := ParentsOf(cache, c.node.parents).value;
    assert AllExact(FnsOf(fns, c.node.parents), parents, q, qd);
    if PolynomialMap(c.node.taskMap) {
      PolynomialNode(c, w, parents);
      CasadiExact(c, w, m, fns, parents, q, qd);
    } else {
      CopyFn(c, w, m, fns);
      assert FnsOf(fns, c.node.parents)[0] == FnOfName(fns, c.node.parents[0]);
    }
  }

  lemma CopyFn(c: Compiled, w: World, m: Maps, fns: Fns)
    requires ValidWorld(w) && Copies(c.node.taskMap) && c.node.parents != []
    ensures NodeFn(c, w, m, fns) == FnOfName(fns, c.node.parents[0])
  {
  }

  lemma PolynomialNode(c: Compiled, w: World, parents: seq<Geometry>)
    requires ValidWorld(w) && PolynomialMap(c.node.taskMap) && ApplyTaskMap(c.node, c.dims).Some?
    requires forall i | 0 <= i < |parents| :: Shaped(parents[i])
    ensures RegularNode(c, w, parents)
  {
    hide ValidWorld, ApplyTaskMap, Regular;
    var es := ApplyTaskMap(c.node, c.dims).value;
    forall i, u | 0 <= i < |es|
      ensures Regular(es[i], w.lib, u)
    {
      PolynomialRows(c.node, c.dims, i, w.lib, u);
    }
  }

  lemma {:induction false} PolynomialCache(compiled: seq<Compiled>, w: World, m: Maps, q: Vec, qd: Vec)
    requires ValidWorld(w) && Standard(w.lib) && |q| == |qd| == JOINTS && forall k | 0 <= k < |compiled| :: Usable(compiled[k])
    requires EvaluateAll(compiled, w, q, qd).Ok?
    ensures CacheExact(GraphFns(compiled, w, m), EvaluateAll(compiled, w, q, qd).value, q, qd)
  {
    hide Exact, Standard, ValidWorld, NodeFn, EvaluateNode, Usable;
    if compiled == [] {
      RootExact(q, qd);
    } else {
      var k := |compiled| - 1;
      PolynomialCache(compiled[..k], w, m, q, qd);
      PolynomialStep(compiled[k], w, m, GraphFns(compiled[..k], w, m), EvaluateAll(compiled[..k], w, q, qd).value, q, qd);
    }
  }

  lemma {:induction false} NoCarriers(compiled: seq<Compiled>)
    requires PolynomialNodes(compiled) && forall k | 0 <= k < |compiled| :: compiled[k].node.name != "root"
    ensures Carriers(compiled) == {}
  {
    if compiled != [] { NoCarriers(compiled[..|compiled| - 1]); }
  }

  lemma NotRoot(g: Graph, names: seq<string>, compiled: seq<Compiled>)
    requires Listed(g, names, compiled) && "root" !in g
    ensures forall k | 0 <= k < |compiled| :: compiled[k].node.name != "root"
  {
  }

  /** No compiled map reads a node that has replaced the root, or a copy of one. */
  ghost predicate RootUnread(compiled: seq<Compiled>) {
    forall k, p | 0 <= k < |compiled| && UsesCasadi(compiled[k].node.taskMap) && p in compiled[k].node.parents ::
      p !in Carriers(compiled[..k])
  }

  /** What the constructor built from polynomial maps and copies evaluates at every state, and every cached geometry is
      exact: velocity `J qd` and true second derivative `J qdd + curvature`, whatever the kinematics reports. */
  lemma PolynomialGraphExact(g: Graph, names: seq<string>, compiled: seq<Compiled>, dims: Dims, w: World, m: Maps, q: Vec, qd: Vec)
    requires LeastReadyOrder(g, names) && Listed(g, names, compiled)
    requires InferAll(NodesOf(compiled)) == Ok(dims) && CompileAll(dims, NodesOf(compiled)) == Ok(compiled)
    requires PolynomialNodes(compiled) && WellFormedMaps(compiled) && ("root" in g ==> RootUnread(compiled))
    requires ValidWorld(w) && Standard(w.lib) && |q| == |qd| == JOINTS
    ensures EvaluateAll(compiled, w, q, qd).Ok?
    ensures CacheExact(GraphFns(compiled, w, m), EvaluateAll(compiled, w, q, qd).value, q, qd)
    ensures var cache := EvaluateAll(compiled, w, q, qd).value;
      forall name | name in cache && name !in Carriers(compiled) :: name in dims && |cache[name].x| == dims[name]
  {
    hide ValidWorld, Standard, Listed, LeastReadyOrder, InferAll, CompileAll, NodesOf, EvaluateAll, Usable, WellFormedMaps, CacheExact,
      GraphFns, Carriers, PolynomialNodes;
    forall k | 0 <= k < |compiled|
      ensures Usable(compiled[k])
    {
      UsableNode(compiled, dims, k);
    }
    if "root" !in g {
      NotRoot(g, names, compiled);
      forall k | 0 <= k <= |compiled|
        ensures Carriers(compiled[..k]) == {}
      {
        FrontPolynomial(compiled, k);
        NoCarriers(compiled[..k]);
      }
    }
    UnreadCollisions(g, names, compiled, dims, w, q, qd);
    BuiltSolver(g, names, compiled, dims, w, q, qd);
    RunErrors(compiled, w, q, qd);
    PolynomialCache(compiled, w, m, q, qd);
  }

  lemma FrontPolynomial(compiled: seq<Compiled>, k: nat)
    requires PolynomialNodes(compiled) && k <= |compiled|
    ensures PolynomialNodes(compiled[..k])
  {
  }
}
