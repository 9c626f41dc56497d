/** How many rows every node really has, against the dimensions the constructor inferred and compiled for. */
module GraphSizes {
  import opened LinearAlgebra
  import opened RmpConfig
  import opened TopologicalOrder
  import opened TaskExpr
  import opened ChainRule
  import opened TaskMaps
  import opened TaskGraph
  import opened GraphBuild

  type Rows = map<string, nat>

  // ----- the rows of a run

  /** The rows a node has when it evaluates, from those of its parents and the number of obstacles. */
  function RowCount(c: Compiled, rows: Rows, obstacles: nat): nat {
    match c.node.taskMap
    case CspaceTargetMap | IdentityMap => if c.node.parents != [] && c.node.parents[0] in rows then rows[c.node.parents[0]] else 0
    case JointLimitMap => 12
    case TcpPosition | LinkPosition | LinkOrientationAxis => 3
    case ControlPoints => 3 * SENSOR_POINTS
    case CollisionDistance => SENSOR_POINTS * obstacles
    case _ => var es := ApplyTaskMap(c.node, c.dims); if es.None? then 0 else |es.value|
  }

  /** The rows of every name after the listed nodes; nothing here depends on the state. */
  function RowCounts(compiled: seq<Compiled>, obstacles: nat): Rows {
    if compiled == [] then map["root" := JOINTS]
    else
      var k := |compiled| - 1;
      var rows := RowCounts(compiled[..k], obstacles);
      rows[compiled[k].node.name := RowCount(compiled[k], rows, obstacles)]
  }

  ghost predicate Counted(rows: Rows, cache: Cache) {
    rows.Keys == cache.Keys && forall name | name in cache :: rows[name] == |cache[name].x|
  }

  lemma {:induction false} StackLength(ps: seq<Geometry>, n: nat)
    requires forall i | 0 <= i < |ps| :: Shaped(ps[i]) && |ps[i].x| == n
    ensures |Stack(ps).x| == n * |ps|
  {
    if ps != [] { StackLength(ps[1..], n); }
  }

  lemma PointsLength(w: World)
    requires ValidWorld(w)
    ensures |Stack(w.context.points).x| == 3 * SENSOR_POINTS
  {
    StackLength(w.context.points, 3);
  }

  lemma FrameLengths(node: RmpNode, w: World, parents: seq<Geometry>)
    requires ValidWorld(w) && forall i | 0 <= i < |parents| :: Shaped(parents[i])
    requires node.taskMap.LinkPosition? || node.taskMap.LinkOrientationAxis? || node.taskMap.TcpPosition?
    ensures var r := EvaluateNative(node, w, parents); r.Ok? ==> |r.value.x| == 3
  {
  }

  lemma NodeRows(c: Compiled, w: World, cache: Cache, rows: Rows)
    requires ValidWorld(w) && ValidCache(cache) && Counted(rows, cache) && EvaluateNode(c, w, cache).Ok?
    ensures |EvaluateNode(c, w, cache).value.x| == RowCount(c, rows, |w.obstacles|)
  {
    hide ValidContext, ApplyTaskMap;
    var parents := ParentsOf(cache, c.node.parents).value;
    if c.node.taskMap == ControlPoints {
      PointsLength(w);
    } else if c.node.taskMap.LinkPosition? || c.node.taskMap.LinkOrientationAxis? || c.node.taskMap.TcpPosition? {
      FrameLengths(c.node, w, parents);
    }
  }

  /** A run that goes through leaves every node with exactly those rows. */
  lemma {:induction false} RowsCounted(compiled: seq<Compiled>, w: World, q: Vec, qd: Vec)
    requires ValidWorld(w) && |q| == |qd| == JOINTS && EvaluateAll(compiled, w, q, qd).Ok?
    ensures Counted(RowCounts(compiled, |w.obstacles|), EvaluateAll(compiled, w, q, qd).value)
  {
    hide ValidWorld, EvaluateNode, RowCount;
    if compiled != [] {
      var k := |compiled| - 1;
      RowsCounted(compiled[..k], w, q, qd);
      NodeRows(compiled[k], w, EvaluateAll(compiled[..k], w, q, qd).value, RowCounts(compiled[..k], |w.obstacles|));
    }
  }

  // ----- when a compiled map is called with the wrong sizes

  function RowsOf(rows: Rows, names: seq<string>): (r: seq<nat>)
    requires forall p | p in names :: p in rows
    ensures |r| == |names|
  {
    seq(|names|, i requires 0 <= i < |names| => rows[names[i]])
  }

  /** A compiled map that would be called with sizes other than those it was compiled for. */
  ghost predicate Misreads(c: Compiled, rows: Rows) {
    UsesCasadi(c.node.taskMap) && (forall p | p in c.node.parents :: p in rows) && RowsOf(rows, c.node.parents) != c.dims
  }

  lemma NodeMismatchIff(c: Compiled, w: World, cache: Cache, rows: Rows)
    requires ValidWorld(w) && ValidCache(cache) && Counted(rows, cache)
    ensures EvaluateNode(c, w, cache) == Err(DimensionMismatch) <==> Misreads(c, rows)
  {
    hide ValidWorld, ApplyTaskMap, MapGeometry;
    assert forall p :: p in rows <==> p in cache.Keys;
    if ParentsOf(cache, c.node.parents).Some? {
      assert ShapesOf(ParentsOf(cache, c.node.parents).value) == RowsOf(rows, c.node.parents);
    }
  }

  /** Node `k` is reached and misreads its parents. */
  ghost predicate MisreadAt(compiled: seq<Compiled>, w: World, q: Vec, qd: Vec, k: nat)
    requires ValidWorld(w) && |q| == |qd| == JOINTS && k < |compiled|
  {
    EvaluateAll(compiled[..k], w, q, qd).Ok? && Misreads(compiled[k], RowCounts(compiled[..k], |w.obstacles|))
  }

  /** For every list of compiled nodes: a run ends in a dimension mismatch if and only if it reaches a compiled map whose
      parents have other row counts than it was compiled for. */
  lemma {:induction false} MismatchIff(compiled: seq<Compiled>, w: World, q: Vec, qd: Vec)
    requires ValidWorld(w) && |q| == |qd| == JOINTS
    ensures EvaluateAll(compiled, w, q, qd) == Err(DimensionMismatch)
       <==> exists k :: 0 <= k < |compiled| && MisreadAt(compiled, w, q, qd, k)
  {
    hide ValidWorld, EvaluateNode, Misreads, RowCounts;
    if compiled != [] {
      var n := |compiled| - 1;
      var front := compiled[..n];
      MismatchIff(front, w, q, qd);
      forall k | 0 <= k < n
        ensures MisreadAt(front, w, q, qd, k) <==> MisreadAt(compiled, w, q, qd, k)
      {
        assert front[..k] == compiled[..k] && front[k] == compiled[k];
      }
      if EvaluateAll(front, w, q, qd).Ok? {
        RowsCounted(front, w, q, qd);
        NodeMismatchIff(compiled[n], w, EvaluateAll(front, w, q, qd).value, RowCounts(front, |w.obstacles|));
        assert EvaluateAll(compiled, w, q, qd) == Err(DimensionMismatch) <==> MisreadAt(compiled, w, q, qd, n);
      } else {
        assert !MisreadAt(compiled, w, q, qd, n);
        assert EvaluateAll(compiled, w, q, qd) == Err(DimensionMismatch) <==> EvaluateAll(front, w, q, qd) == Err(DimensionMismatch);
        if k :| 0 <= k < n && MisreadAt(front, w, q, qd, k) { assert MisreadAt(compiled, w, q, qd, k); }
      }
    }
  }

  // ----- a built solver

  /** Node `k` is reached, compiled, and has a parent whose row count is not the inferred one. */
  ghost predicate ReadsOdd(compiled: seq<Compiled>, dims: Dims, w: World, q: Vec, qd: Vec, k: nat, p: string)
    requires ValidWorld(w) && |q| == |qd| == JOINTS && k < |compiled|
  {
    var rows := RowCounts(compiled[..k], |w.obstacles|);
    EvaluateAll(compiled[..k], w, q, qd).Ok? && UsesCasadi(compiled[k].node.taskMap) && p in compiled[k].node.parents
    && p in rows && p in dims && rows[p] != dims[p]
  }

  lemma {:induction false} DimsAtIs(dims: Dims, names: seq<string>, ds: seq<int>)
    requires DimsAt(dims, names) == Some(ds)
    ensures |ds| == |names| && forall i | 0 <= i < |names| :: names[i] in dims && ds[i] == dims[names[i]]
  {
  }

  /** The sizes a built map was compiled for are its parents' inferred dimensions. */
  lemma CompiledSizes(compiled: seq<Compiled>, dims: Dims, k: nat)
    requires InferAll(NodesOf(compiled)) == Ok(dims) && CompileAll(dims, NodesOf(compiled)) == Ok(compiled)
    requires k < |compiled| && UsesCasadi(compiled[k].node.taskMap)
    ensures var c := compiled[k];
      |c.dims| == |c.node.parents| && forall i | 0 <= i < |c.dims| :: c.node.parents[i] in dims && c.dims[i] == dims[c.node.parents[i]]
    ensures ApplyTaskMap(compiled[k].node, compiled[k].dims).Some?
  {
    hide UsesCasadi, InferAll, NodesOf, ApplyTaskMap;
    var node := NodesOf(compiled)[k];
    NodeAt(compiled, k);
    assert CompileNode(dims, node) == Ok(compiled[k]);
    CompiledDims(dims, node, compiled[k]);
    DimsAtIs(dims, node.parents, DimsAt(dims, node.parents).value);
  }

  lemma MisreadsOdd(compiled: seq<Compiled>, names: seq<string>, g: Graph, dims: Dims, w: World, q: Vec, qd: Vec, k: nat)
    requires LeastReadyOrder(g, names) && Listed(g, names, compiled) && k < |compiled|
    requires InferAll(NodesOf(compiled)) == Ok(dims) && CompileAll(dims, NodesOf(compiled)) == Ok(compiled)
    requires ValidWorld(w) && |q| == |qd| == JOINTS
    ensures MisreadAt(compiled, w, q, qd, k) <==> exists p :: ReadsOdd(compiled, dims, w, q, qd, k, p)
  {
    hide ValidWorld, EvaluateAll, InferAll, CompileAll, NodesOf, RowCounts, LeastReadyOrder, Listed, ApplyTaskMap, UsesCasadi;
    if EvaluateAll(compiled[..k], w, q, qd).Ok? && UsesCasadi(compiled[k].node.taskMap) {
      var c, rows := compiled[k], RowCounts(compiled[..k], |w.obstacles|);
      CompiledSizes(compiled, dims, k);
      ParentsCounted(compiled, names, g, w.obstacles, k);
      var read := RowsOf(rows, c.node.parents);
      if read != c.dims {
        var i :| 0 <= i < |read| && read[i] != c.dims[i];
        assert ReadsOdd(compiled, dims, w, q, qd, k, c.node.parents[i]);
      }
      forall p | ReadsOdd(compiled, dims, w, q, qd, k, p)
        ensures read != c.dims
      {
        var i :| 0 <= i < |c.node.parents| && c.node.parents[i] == p;
        assert read[i] != c.dims[i];
      }
    }
  }

  lemma {:induction false} CountedNames(compiled: seq<Compiled>, obstacles: nat)
    ensures "root" in RowCounts(compiled, obstacles)
    ensures forall i | 0 <= i < |compiled| :: compiled[i].node.name in RowCounts(compiled, obstacles)
  {
    hide RowCount;
    if compiled != [] {
      var n := |compiled| - 1;
      CountedNames(compiled[..n], obstacles);
      assert forall i | 0 <= i < n :: compiled[..n][i] == compiled[i];
    }
  }

  lemma ParentsCounted(compiled: seq<Compiled>, names: seq<string>, g: Graph, obstacles: seq<Obstacle>, k: nat)
    requires LeastReadyOrder(g, names) && Listed(g, names, compiled) && k < |compiled|
    ensures forall p | p in compiled[k].node.parents :: p in RowCounts(compiled[..k], |obstacles|)
  {
    hide RowCounts;
    CountedNames(compiled[..k], |obstacles|);
    forall p | p in compiled[k].node.parents
      ensures p in RowCounts(compiled[..k], |obstacles|)
    {
      if p != "root" {
        ParentsFirst(g, names, k, p);
        var i :| 0 <= i < k && names[i] == p;
        assert compiled[..k][i].node.name == p;
      }
    }
  }

  /** What `Build` delivers, for every configuration, every number of obstacles and a node named "root" included:
      evaluation never misses a parent; it ends in a dimension mismatch if and only if it reaches a compiled map one of
      whose parents has another row count than the inferred one; and when it goes through, the row counts are known
      beforehand. */
  lemma BuiltSolver(g: Graph, names: seq<string>, compiled: seq<Compiled>, dims: Dims, w: World, q: Vec, qd: Vec)
    requires LeastReadyOrder(g, names) && Listed(g, names, compiled)
    requires InferAll(NodesOf(compiled)) == Ok(dims) && CompileAll(dims, NodesOf(compiled)) == Ok(compiled)
    requires ValidWorld(w) && |q| == |qd| == JOINTS
    ensures EvaluateAll(compiled, w, q, qd) != Err(MissingParentState)
    ensures EvaluateAll(compiled, w, q, qd) == Err(DimensionMismatch)
       <==> exists k, p :: 0 <= k < |compiled| && ReadsOdd(compiled, dims, w, q, qd, k, p)
    ensures EvaluateAll(compiled, w, q, qd).Ok? ==>
      Counted(RowCounts(compiled, |w.obstacles|), EvaluateAll(compiled, w, q, qd).value)
  {
    hide ValidWorld, Listed, GreedyPrefix, EvaluateAll, InferAll, CompileAll, NodesOf, MisreadAt, ReadsOdd, RowCounts, Counted, Elements,
      LeastReadyOrder;
    GreedyOrder(g, names);
    NoMissingParent(g, names, compiled, w, q, qd);
    MismatchIff(compiled, w, q, qd);
    SomeReadsOdd(g, names, compiled, dims, w, q, qd);
    if EvaluateAll(compiled, w, q, qd).Ok? { RowsCounted(compiled, w, q, qd); }
  }

  lemma GreedyOrder(g: Graph, names: seq<string>)
    requires LeastReadyOrder(g, names)
    ensures GreedyPrefix(g, names)
  {
  }

  lemma SomeReadsOdd(g: Graph, names: seq<string>, compiled: seq<Compiled>, dims: Dims, w: World, q: Vec, qd: Vec)
    requires LeastReadyOrder(g, names) && Listed(g, names, compiled)
    requires InferAll(NodesOf(compiled)) == Ok(dims) && CompileAll(dims, NodesOf(compiled)) == Ok(compiled)
    requires ValidWorld(w) && |q| == |qd| == JOINTS
    ensures (exists k :: 0 <= k < |compiled| && MisreadAt(compiled, w, q, qd, k))
       <==> exists k, p :: 0 <= k < |compiled| && ReadsOdd(compiled, dims, w, q, qd, k, p)
  {
    hide ValidWorld, Listed, LeastReadyOrder, InferAll, CompileAll, NodesOf, MisreadAt, ReadsOdd;
    if k :| 0 <= k < |compiled| && MisreadAt(compiled, w, q, qd, k) {
      MisreadsOdd(compiled, names, g, dims, w, q, qd, k);
      var p :| ReadsOdd(compiled, dims, w, q, qd, k, p);
    }
    if k, p :| 0 <= k < |compiled| && ReadsOdd(compiled, dims, w, q, qd, k, p) {
      MisreadsOdd(compiled, names, g, dims, w, q, qd, k);
      assert MisreadAt(compiled, w, q, qd, k);
    }
  }

  // ----- which dimensions are inferred wrongly

  /** The row count of `collision_distance` is the inferred one exactly for a single obstacle. */
  lemma CollisionDimension(w: World, p: Geometry, node: RmpNode, dims: seq<nat>)
    requires ValidWorld(w) && Shaped(p) && 3 * SENSOR_POINTS <= |p.x| && node.taskMap == CollisionDistance
    ensures InferDim(node, dims, SENSOR_POINTS) == Some(|CollisionGeometry(w, p).x|) <==> |w.obstacles| == 1
  {
    hide ValidWorld, CollisionGeometry, Shaped;
  }

  /** A node whose row count is not its inferred dimension: collisions unless there is one obstacle, maps that are not well
      formed, and copies of such nodes. A node named "root" keeps the root's dimension of six whatever it has. */
  predicate OddNode(c: Compiled, odd: set<string>, rows: Rows, obstacles: nat) {
    if c.node.name == "root" then RowCount(c, rows, obstacles) != JOINTS
    else match c.node.taskMap
    case CspaceTargetMap | IdentityMap => c.node.parents != [] && c.node.parents[0] in odd
    case CollisionDistance => obstacles != 1
    case _ => UsesCasadi(c.node.taskMap) && c.dims != [] && !WellFormed(c.node, c.dims)
  }

  function Odd(compiled: seq<Compiled>, obstacles: nat): set<string> {
    if compiled == [] then {}
    else
      var k := |compiled| - 1;
      var odd, c := Odd(compiled[..k], obstacles), compiled[k];
      if OddNode(c, odd, RowCounts(compiled[..k], obstacles), obstacles) then odd + {c.node.name} else odd - {c.node.name}
  }

  ghost predicate DistinctNames(compiled: seq<Compiled>) {
    forall i, j | 0 <= i < j < |compiled| :: compiled[i].node.name != compiled[j].node.name
  }

  /** The names whose row count is the inferred dimension are those outside `odd`. */
  ghost predicate OddOnes(dims: Dims, rows: Rows, odd: set<string>) {
    forall name | name in rows :: name in dims && (rows[name] == dims[name] <==> name !in odd)
  }

  /** One node: its row count is its inferred dimension exactly when the rule above says so. */
  lemma OddNodeIff(c: Compiled, w: World, cache: Cache, dims: Dims, rows: Rows, odd: set<string>, ds: seq<nat>, d: int)
    requires ValidWorld(w) && ValidCache(cache) && Counted(rows, cache) && OddOnes(dims, rows, odd) && EvaluateNode(c, w, cache).Ok?
    requires ParentNats(dims, c.node) == Some(ds) && InferDim(c.node, ds, SENSOR_POINTS) == Some(d)
    requires UsesCasadi(c.node.taskMap) ==> ds == c.dims
    requires c.node.name != "root"
    ensures RowCount(c, rows, |w.obstacles|) == d <==> !OddNode(c, odd, rows, |w.obstacles|)
  {
    hide ValidContext, ApplyTaskMap, WellFormed;
    var parents := ParentsOf(cache, c.node.parents).value;
    DimsAtIs(dims, c.node.parents, DimsAt(dims, c.node.parents).value);
    if UsesCasadi(c.node.taskMap) {
      CompiledSome(c.node, ds);
      InferredDimension(c.node, ds, SENSOR_POINTS);
    } else if c.node.taskMap == CspaceTargetMap || c.node.taskMap == IdentityMap {
      assert c.node.parents != [] && c.node.parents[0] in rows;
    }
  }

  lemma CompiledSome(node: RmpNode, ds: seq<nat>)
    ensures ApplyTaskMap(node, ds).Some? ==> ds != []
  {
  }

  /** For a built graph and any number of obstacles: when evaluation goes through, a node's row count is its inferred
      dimension if and only if the node is not among the odd ones. */
  lemma DimensionsAgree(g: Graph, names: seq<string>, compiled: seq<Compiled>, dims: Dims, w: World, q: Vec, qd: Vec)
    requires LeastReadyOrder(g, names) && Listed(g, names, compiled)
    requires InferAll(NodesOf(compiled)) == Ok(dims) && CompileAll(dims, NodesOf(compiled)) == Ok(compiled)
    requires ValidWorld(w) && |q| == |qd| == JOINTS && EvaluateAll(compiled, w, q, qd).Ok?
    ensures var cache := EvaluateAll(compiled, w, q, qd).value;
      forall name | name in cache :: name in dims && (|cache[name].x| == dims[name] <==> name !in Odd(compiled, |w.obstacles|))
  {
    hide ValidWorld, EvaluateAll, InferAll, CompileAll, NodesOf, RowCounts, Odd, OddOnes, CompiledFor, DistinctNames, LeastReadyOrder, Listed;
    CompiledInOrder(compiled, dims);
    ListedDistinct(g, names, compiled);
    RowsCounted(compiled, w, q, qd);
    OddRun(compiled, w, q, qd);
    OddOnesParts(dims, RowCounts(compiled, |w.obstacles|), Odd(compiled, |w.obstacles|));
    var cache := EvaluateAll(compiled, w, q, qd).value;
    assert forall name :: name in cache <==> name in cache.Keys;
  }

  lemma OddOnesParts(dims: Dims, rows: Rows, odd: set<string>)
    requires OddOnes(dims, rows, odd)
    ensures forall name | name in rows :: name in dims && (rows[name] == dims[name] <==> name !in odd)
  {
  }

  lemma {:induction false} OddRun(compiled: seq<Compiled>, w: World, q: Vec, qd: Vec)
    requires ValidWorld(w) && |q| == |qd| == JOINTS
    requires InferAll(NodesOf(compiled)).Ok? && CompiledFor(compiled) && DistinctNames(compiled)
    requires EvaluateAll(compiled, w, q, qd).Ok?
    ensures OddOnes(InferAll(NodesOf(compiled)).value, RowCounts(compiled, |w.obstacles|), Odd(compiled, |w.obstacles|))
  {
    hide ValidWorld, EvaluateNode, CompiledFor, DistinctNames, InferNext, OddNode, RowCount, OddOnes;
    var m := |w.obstacles|;
    if compiled == [] {
      assert NodesOf(compiled) == [];
      OddStart();
    } else {
      var k := |compiled| - 1;
      var front := compiled[..k];
      assert NodesOf(compiled)[..k] == NodesOf(front) && NodesOf(compiled)[k] == compiled[k].node;
      FrontConditions(compiled);
      OddRun(front, w, q, qd);
      RowsCounted(front, w, q, qd);
      OddNext(compiled, w, EvaluateAll(front, w, q, qd).value, InferAll(NodesOf(front)).value, RowCounts(front, m), Odd(front, m));
    }
  }

  lemma OddStart()
    ensures OddOnes(map["root" := JOINTS], map["root" := JOINTS], {})
  {
  }

  lemma FrontConditions(compiled: seq<Compiled>)
    requires compiled != [] && CompiledFor(compiled) && DistinctNames(compiled)
    ensures var front := compiled[..|compiled| - 1]; CompiledFor(front) && DistinctNames(front)
  {
    hide InferAll, UsesCasadi;
    var k := |compiled| - 1;
    assert forall i | 0 <= i < k :: compiled[..k][..i] == compiled[..i];
  }

  lemma OddNext(compiled: seq<Compiled>, w: World, cache: Cache, dims: Dims, rows: Rows, odd: set<string>)
    requires compiled != [] && ValidWorld(w) && ValidCache(cache) && Counted(rows, cache) && OddOnes(dims, rows, odd)
    requires InferAll(NodesOf(compiled[..|compiled| - 1])) == Ok(dims)
    requires CompiledFor(compiled) && DistinctNames(compiled)
    requires var c := compiled[|compiled| - 1]; InferNext(dims, c.node).Ok? && EvaluateNode(c, w, cache).Ok?
    ensures var c, m := compiled[|compiled| - 1], |w.obstacles|;
      OddOnes(InferNext(dims, c.node).value, rows[c.node.name := RowCount(c, rows, m)],
              if OddNode(c, odd, rows, m) then odd + {c.node.name} else odd - {c.node.name})
  {
    hide ValidWorld, EvaluateNode, InferDim, UsesCasadi, InferAll, RowCount, OddNode;
    var k := |compiled| - 1;
    var c := compiled[k];
    NamesBefore(compiled, k);
    if c.node.name == "root" {
      RootIsOdd(c, odd, rows, |w.obstacles|);
    } else {
      var ds := ParentNats(dims, c.node).value;
      assert c.node.name !in dims;
      OddNodeIff(c, w, cache, dims, rows, odd, ds, InferDim(c.node, ds, SENSOR_POINTS).value);
    }
  }

  lemma NamesBefore(compiled: seq<Compiled>, k: nat)
    requires k < |compiled| && DistinctNames(compiled) && InferAll(NodesOf(compiled[..k])).Ok?
    ensures var dims := InferAll(NodesOf(compiled[..k])).value;
      "root" in dims && dims["root"] == JOINTS && (compiled[k].node.name != "root" ==> compiled[k].node.name !in dims)
  {
    hide InferAll;
    InferredNames(NodesOf(compiled[..k]));
    assert forall i | 0 <= i < k :: NodesOf(compiled[..k])[i] == compiled[i].node;
  }

  lemma RootIsOdd(c: Compiled, odd: set<string>, rows: Rows, obstacles: nat)
    requires c.node.name == "root"
    ensures OddNode(c, odd, rows, obstacles) <==> RowCount(c, rows, obstacles) != JOINTS
  {
  }

  // ----- collisions that no compiled map reads are harmless

  /** The names that hold collision rows, or stand in for the root. */
  function Carriers(compiled: seq<Compiled>): set<string> {
    if compiled == [] then {}
    else
      var k := |compiled| - 1;
      var front, c := Carriers(compiled[..k]), compiled[k];
      if Carries(c, front) then front + {c.node.name} else front - {c.node.name}
  }

  predicate Carries(c: Compiled, carriers: set<string>) {
    c.node.name == "root" || c.node.taskMap == CollisionDistance
    || ((c.node.taskMap == CspaceTargetMap || c.node.taskMap == IdentityMap) && c.node.parents != [] && c.node.parents[0] in carriers)
  }

  ghost predicate WellFormedMaps(compiled: seq<Compiled>) {
    forall k | 0 <= k < |compiled| && UsesCasadi(compiled[k].node.taskMap) ::
      compiled[k].dims != [] && WellFormed(compiled[k].node, compiled[k].dims)
  }

  lemma {:induction false} OddCarried(compiled: seq<Compiled>, obstacles: nat)
    requires WellFormedMaps(compiled)
    ensures Odd(compiled, obstacles) <= Carriers(compiled)
  {
    hide WellFormed, RowCounts, RowCount;
    if compiled != [] {
      var k := |compiled| - 1;
      assert forall i | 0 <= i < k :: compiled[..k][i] == compiled[i];
      OddCarried(compiled[..k], obstacles);
    }
  }

  /** With well-formed maps none of which reads a carrier of collision rows, there is no dimension mismatch whatever the
      number of obstacles, and every other name has its inferred dimension. */
  lemma UnreadCollisions(g: Graph, names: seq<string>, compiled: seq<Compiled>, dims: Dims, w: World, q: Vec, qd: Vec)
    requires LeastReadyOrder(g, names) && Listed(g, names, compiled)
    requires InferAll(NodesOf(compiled)) == Ok(dims) && CompileAll(dims, NodesOf(compiled)) == Ok(compiled)
    requires ValidWorld(w) && |q| == |qd| == JOINTS && WellFormedMaps(compiled)
    requires forall k, p | 0 <= k < |compiled| && UsesCasadi(compiled[k].node.taskMap) && p in compiled[k].node.parents ::
      p !in Carriers(compiled[..k])
    ensures EvaluateAll(compiled, w, q, qd) != Err(DimensionMismatch)
    ensures EvaluateAll(compiled, w, q, qd).Ok? ==>
      var cache := EvaluateAll(compiled, w, q, qd).value;
      forall name | name in cache && name !in Carriers(compiled) :: name in dims && |cache[name].x| == dims[name]
  {
    hide ValidWorld, Listed, EvaluateAll, InferAll, CompileAll, NodesOf, RowCounts, Odd, Carriers, WellFormedMaps, UsesCasadi, DistinctNames,
      CompiledFor, Counted, LeastReadyOrder;
    BuiltSolver(g, names, compiled, dims, w, q, qd);
    CompiledInOrder(compiled, dims);
    ListedDistinct(g, names, compiled);
    forall k, p | 0 <= k < |compiled| && UsesCasadi(compiled[k].node.taskMap) && p in compiled[k].node.parents
      ensures !ReadsOdd(compiled, dims, w, q, qd, k, p)
    {
      if EvaluateAll(compiled[..k], w, q, qd).Ok? { NothingOdd(compiled, dims, w, q, qd, k, p); }
    }
    if EvaluateAll(compiled, w, q, qd).Ok? {
      DimensionsAgree(g, names, compiled, dims, w, q, qd);
      OddCarried(compiled, |w.obstacles|);
    }
  }

  lemma NothingOdd(compiled: seq<Compiled>, dims: Dims, w: World, q: Vec, qd: Vec, k: nat, p: string)
    requires InferAll(NodesOf(compiled)) == Ok(dims) && CompiledFor(compiled) && DistinctNames(compiled) && WellFormedMaps(compiled)
    requires ValidWorld(w) && |q| == |qd| == JOINTS && k < |compiled| && EvaluateAll(compiled[..k], w, q, qd).Ok?
    requires p !in Carriers(compiled[..k])
    ensures !ReadsOdd(compiled, dims, w, q, qd, k, p)
  {
    hide ValidWorld, EvaluateAll, InferAll, NodesOf, RowCounts, Odd, Carriers, UsesCasadi, OddOnes;
    var front := compiled[..k];
    PrefixConditions(compiled, k);
    PrefixNodes(compiled, k);
    InferredPrefix(NodesOf(compiled), k);
    OddRun(front, w, q, qd);
    OddOnesParts(InferAll(NodesOf(front)).value, RowCounts(front, |w.obstacles|), Odd(front, |w.obstacles|));
    OddCarried(front, |w.obstacles|);
  }

  lemma PrefixConditions(compiled: seq<Compiled>, k: nat)
    requires CompiledFor(compiled) && DistinctNames(compiled) && WellFormedMaps(compiled) && k <= |compiled|
    ensures CompiledFor(compiled[..k]) && DistinctNames(compiled[..k]) && WellFormedMaps(compiled[..k])
  {
    hide InferAll, UsesCasadi, WellFormed, NodesOf;
    assert forall i | 0 <= i < k :: compiled[..k][..i] == compiled[..i];
  }

  lemma ListedDistinct(g: Graph, names: seq<string>, compiled: seq<Compiled>)
    requires LeastReadyOrder(g, names) && Listed(g, names, compiled)
    ensures DistinctNames(compiled)
  {
    GreedyDistinct(g, names);
  }
}
