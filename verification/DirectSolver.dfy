/** The graph solver: every leaf is pulled back to one root system, which is then resolved. */
module DirectSolver {
  import opened LinearAlgebra
  import opened RmpConfig
  import opened Elementary
  import opened Calculus
  import opened ChainRule
  import opened TaskGraph
  import opened NodeEvaluator
  import opened RmpLeaves
  import opened DefiniteSystem

  // ----- what one term adds

  function TermMetric(t: Term): (m: seq<Vec>)
    requires ValidTerm(t)
    ensures |m| == JOINTS && IsMatrix(m, JOINTS)
  {
    Pullback(t.jacobian, t.metric, JOINTS)
  }

  /** The canonical force `J^T M (a - c)`, or with natural RMPs `J^T (M a - M c)`. */
  function TermForce(natural: bool, t: Term): (f: Vec)
    requires ValidTerm(t)
    ensures |f| == JOINTS
  {
    Combine(t.jacobian,
            if natural then Minus(Dots(t.metric, t.acceleration), Dots(t.metric, t.curvature))
            else Dots(t.metric, Minus(t.acceleration, t.curvature)),
            JOINTS)
  }

  lemma NaturalForce(t: Term)
    requires ValidTerm(t)
    ensures TermForce(true, t) == TermForce(false, t)
  {
    DotsMinus(t.metric, t.acceleration, t.curvature);
  }

  ghost predicate ValidTerms(ts: seq<Term>) { forall i | 0 <= i < |ts| :: ValidTerm(ts[i]) }

  ghost predicate IsRoot(metric: seq<Vec>, force: Vec) { |metric| == JOINTS && IsMatrix(metric, JOINTS) && |force| == JOINTS }

  function AddMetrics(m: seq<Vec>, ts: seq<Term>): (r: seq<Vec>)
    requires |m| == JOINTS && IsMatrix(m, JOINTS) && ValidTerms(ts)
    ensures |r| == JOINTS && IsMatrix(r, JOINTS)
  {
    if ts == [] then m else var k := |ts| - 1; MatPlus(AddMetrics(m, ts[..k]), TermMetric(ts[k]))
  }

  function AddForces(natural: bool, f: Vec, ts: seq<Term>): (r: Vec)
    requires |f| == JOINTS && ValidTerms(ts)
    ensures |r| == JOINTS
  {
    if ts == [] then f else var k := |ts| - 1; Plus(AddForces(natural, f, ts[..k]), TermForce(natural, ts[k]))
  }

  function RootMetric(ts: seq<Term>): (r: seq<Vec>)
    requires ValidTerms(ts)
    ensures |r| == JOINTS && IsMatrix(r, JOINTS)
  {
    AddMetrics(ZeroMatrix(JOINTS, JOINTS), ts)
  }

  function RootForce(natural: bool, ts: seq<Term>): (r: Vec)
    requires ValidTerms(ts)
    ensures |r| == JOINTS
  {
    AddForces(natural, Zero(JOINTS), ts)
  }

  lemma {:induction false} AddConcat(natural: bool, m: seq<Vec>, f: Vec, a: seq<Term>, b: seq<Term>)
    requires IsRoot(m, f) && ValidTerms(a) && ValidTerms(b)
    ensures ValidTerms(a + b)
    ensures AddMetrics(m, a + b) == AddMetrics(AddMetrics(m, a), b)
    ensures AddForces(natural, f, a + b) == AddForces(natural, AddForces(natural, f, a), b)
  {
    hide TermMetric, TermForce, ValidTerm;
    if b == [] {
      assert a + b == a;
    } else {
      var k := |b| - 1;
      AddConcat(natural, m, f, a, b[..k]);
      assert (a + b)[..|a| + k] == a + b[..k] && (a + b)[|a| + k] == b[k];
    }
  }

  // ----- properties of the root system

  /** Natural and canonical accumulation agree for every list of leaves. */
  lemma {:induction false} NaturalRootForce(ts: seq<Term>)
    requires ValidTerms(ts)
    ensures RootForce(true, ts) == RootForce(false, ts)
  {
    hide TermForce, ValidTerm;
    if ts != [] {
      var k := |ts| - 1;
      NaturalRootForce(ts[..k]);
      NaturalForce(ts[k]);
    }
  }

  /** Pulling semidefinite leaf metrics back through any Jacobians keeps the root metric semidefinite. */
  lemma {:induction false} RootMetricPsd(ts: seq<Term>)
    requires ValidTerms(ts) && PsdTerms(ts)
    ensures SymmetricPsd(RootMetric(ts))
  {
    hide SymmetricPsd, ValidTerm, TermMetric;
    if ts == [] {
      ZeroMatrixPsd(JOINTS);
    } else {
      var k := |ts| - 1;
      RootMetricPsd(ts[..k]);
      TermMetricPsd(ts[k]);
      MatPlusPsd(RootMetric(ts[..k]), TermMetric(ts[k]));
    }
  }

  lemma TermMetricPsd(t: Term)
    requires ValidTerm(t) && SymmetricPsd(t.metric)
    ensures SymmetricPsd(TermMetric(t))
  {
    hide SymmetricPsd;
    PullbackPsd(t.jacobian, t.metric, JOINTS);
  }

  /** The kinetic reading of the root metric: `v . M v` is the sum of the leaf energies `(J v) . M (J v)`. */
  function Energy(ts: seq<Term>, v: Vec): real
    requires ValidTerms(ts) && |v| == JOINTS
  {
    if ts == [] then 0.0
    else var k := |ts| - 1; Energy(ts[..k], v) + Form(ts[k].metric, Dots(ts[k].jacobian, v), Dots(ts[k].jacobian, v))
  }

  lemma {:induction false} RootEnergy(ts: seq<Term>, v: Vec)
    requires ValidTerms(ts) && |v| == JOINTS
    ensures Form(RootMetric(ts), v, v) == Energy(ts, v)
  {
    hide Form, Pullback;
    if ts == [] {
      ZeroMatrixForm(v, v);
    } else {
      var k := |ts| - 1;
      RootEnergy(ts[..k], v);
      MatPlusForm(RootMetric(ts[..k]), TermMetric(ts[k]), v, v);
      PullbackForm(ts[k].jacobian, ts[k].metric, v, v);
    }
  }

  // ----- accumulation by reference

  /** The metric and the force that every `accumulate_*` call adds into. */
  class RootSystem {
    var metric: seq<Vec>
    var force: Vec

    ghost predicate Valid()
      reads this
    {
      IsRoot(metric, force)
    }

    constructor ()
      ensures Valid() && metric == ZeroMatrix(JOINTS, JOINTS) && force == Zero(JOINTS)
    {
      metric, force := ZeroMatrix(JOINTS, JOINTS), Zero(JOINTS);
    }

    method AccumulateScalarLeaf(natural: bool, jacobian: Vec, s: Scalars, curvature: real)
      requires Valid() && |jacobian| == JOINTS
      modifies this
      ensures Valid()
      ensures metric == AddMetrics(old(metric), [ScalarTerm(jacobian, s, curvature)])
      ensures force == AddForces(natural, old(force), [ScalarTerm(jacobian, s, curvature)])
    {
      ScalarMetric(jacobian, s, curvature);
      ScalarForce(natural, jacobian, s, curvature);
      OneTerm(natural, metric, force, ScalarTerm(jacobian, s, curvature));
      hide Valid, TermMetric, TermForce, ScalarTerm, AddMetrics, AddForces, Outer, Scale;
      metric := MatPlus(metric, Outer(jacobian, Scale(s.metric, jacobian)));
      if natural {
        var naturalForce := s.metric * s.acceleration;
        force := Plus(force, Scale(naturalForce - s.metric * curvature, jacobian));
      } else {
        force := Plus(force, Scale(s.metric * (s.acceleration - curvature), jacobian));
      }
    }

    method AccumulateVectorLeaf(natural: bool, t: Term)
      requires Valid() && ValidTerm(t)
      modifies this
      ensures Valid()
      ensures metric == AddMetrics(old(metric), [t]) && force == AddForces(natural, old(force), [t])
    {
      OneTerm(natural, metric, force, t);
      metric := MatPlus(metric, TransposeMul(t.jacobian, MatMul(t.metric, t.jacobian, JOINTS), JOINTS));
      if natural {
        var naturalForce := Dots(t.metric, t.acceleration);
        force := Plus(force, Combine(t.jacobian, Minus(naturalForce, Dots(t.metric, t.curvature)), JOINTS));
      } else {
        force := Plus(force, Combine(t.jacobian, Dots(t.metric, Minus(t.acceleration, t.curvature)), JOINTS));
      }
    }

    /** The row loop of the joint-limit, velocity-cap and collision leaves. */
    method AccumulateRows(natural: bool, g: Geometry, policy: (real, real) -> Option<Scalars>)
      requires Valid() && Shaped(g)
      modifies this
      ensures Valid()
      ensures metric == AddMetrics(old(metric), RowTerms(g, policy, |g.x|))
      ensures force == AddForces(natural, old(force), RowTerms(g, policy, |g.x|))
    {
      hide AddMetrics, AddForces, ScalarTerm;
      NoTerm(natural, metric, force);
      for row := 0 to |g.x|
        invariant Valid()
        invariant metric == AddMetrics(old(metric), RowTerms(g, policy, row))
        invariant force == AddForces(natural, old(force), RowTerms(g, policy, row))
      {
        var scalars := policy(g.x[row], g.velocity[row]);
        if scalars.Some? {
          AddConcat(natural, old(metric), old(force), RowTerms(g, policy, row),
                    [ScalarTerm(g.jacobian[row], scalars.value, g.curvature[row])]);
          AccumulateScalarLeaf(natural, g.jacobian[row], scalars.value, g.curvature[row]);
        } else {
          assert RowTerms(g, policy, row + 1) == RowTerms(g, policy, row);
        }
      }
    }

    /** Adds one leaf given by its metric and acceleration. */
    method AccumulateVector(natural: bool, g: Geometry, leafMetric: seq<Vec>, acceleration: Vec, curvature: Vec)
      requires Valid() && Shaped(g) && |leafMetric| == |acceleration| == |curvature| == |g.x| && IsMatrix(leafMetric, |g.x|)
      modifies this
      ensures Valid()
      ensures var t := VectorTerm(g, leafMetric, acceleration, curvature);
        metric == AddMetrics(old(metric), [t]) && force == AddForces(natural, old(force), [t])
    {
      hide AddMetrics, AddForces;
      AccumulateVectorLeaf(natural, Term(g.jacobian, leafMetric, acceleration, curvature));
    }

    method AccumulateCspaceTarget(natural: bool, p: CspaceParams, lib: Library, g: Geometry)
      requires Valid() && Shaped(g) && |g.x| == |p.defaultQ|
      modifies this
      ensures Valid()
      ensures metric == AddMetrics(old(metric), [CspaceTerm(p, lib, g)])
      ensures force == AddForces(natural, old(force), [CspaceTerm(p, lib, g)])
    {
      hide AddMetrics, AddForces, MatScale, Identity, Over, Norm, Times, Scale, Minus;
      var delta := Minus(g.x, p.defaultQ);
      var norm := Norm(lib, delta);
      var position := Scale(-p.positionGain, delta);
      if norm > p.robustThreshold && norm > 0.000000001 {
        position := Scale(Times(-p.robustThreshold, p.positionGain), Scale(Over(1.0, norm), delta));
      }
      var acceleration := Minus(position, Scale(p.dampingGain, g.velocity));
      AccumulateVector(natural, g, MatScale(p.metricScalar + p.inertia, Identity(|g.x|)), acceleration, g.curvature);
    }

    method AccumulateTarget(natural: bool, p: TargetParams, lib: Library, g: Geometry, goal: Vec)
      requires Valid() && Shaped(g) && |g.x| == |goal| == 3
      modifies this
      ensures Valid()
      ensures metric == AddMetrics(old(metric), [TargetTerm(p, lib, g, goal)])
      ensures force == AddForces(natural, old(force), [TargetTerm(p, lib, g, goal)])
    {
      hide AddMetrics, AddForces, MatScale, MatPlus, Identity, Over, Norm, Outer, Gaussian;
      var delta := Minus(goal, g.x);
      var norm := Norm(lib, delta);
      var hat := Scale(Over(1.0, Max(norm, p.normEps / 10.0)), delta);
      var acceleration := Minus(Scale(Over(1.0, norm + p.normEps), Scale(p.pGain, delta)), Scale(p.dGain, g.velocity));
      var shape := Outer(hat, hat);
      var alpha := Times(1.0 - p.minAlpha, Gaussian(lib, Over(norm, p.alphaLengthScale))) + p.minAlpha;
      var leafMetric := MatPlus(MatScale(Times(alpha, p.maxScalar), Identity(3)), MatScale(Times(1.0 - alpha, p.minScalar), shape));
      var boostAlpha := Gaussian(lib, Over(norm, p.boostLengthScale));
      leafMetric := MatScale(Times(boostAlpha, p.boostScalar) + (1.0 - boostAlpha), leafMetric);
      AccumulateVector(natural, g, leafMetric, acceleration, g.curvature);
    }

    /** The axis and the wrist-axis leaf; the boost multiplies the metric when the distance is known. */
    method AccumulateAxisTarget(natural: bool, p: AxisParams, lib: Library, g: Geometry, goal: Vec, distance: Option<real>,
                                velocity: Vec, curvature: Vec)
      requires Valid() && Shaped(g) && |g.x| == |goal| == |velocity| == |curvature| == 3
      modifies this
      ensures Valid()
      ensures metric == AddMetrics(old(metric), [AxisTerm(p, lib, g, goal, distance, velocity, curvature)])
      ensures force == AddForces(natural, old(force), [AxisTerm(p, lib, g, goal, distance, velocity, curvature)])
    {
      hide AddMetrics, AddForces, MatScale, Identity, Over, Normalized, Gaussian;
      var delta := Minus(Normalized(lib, goal), Normalized(lib, g.x));
      var acceleration := Minus(Scale(p.pGain, delta), Scale(p.dGain, velocity));
      var scalar := p.metricScalar;
      if distance.Some? {
        var boostAlpha := Gaussian(lib, Over(distance.value, Max(p.boostLengthScale, 0.000000001)));
        scalar := Times(scalar, Times(boostAlpha, p.boostScalar) + (1.0 - boostAlpha));
      }
      AccumulateVector(natural, g, MatScale(scalar, Identity(3)), acceleration, curvature);
    }

    method AccumulateDamping(natural: bool, p: DampingParams, lib: Library, g: Geometry)
      requires Valid() && Shaped(g)
      modifies this
      ensures Valid()
      ensures metric == AddMetrics(old(metric), [DampingTerm(p, lib, g)])
      ensures force == AddForces(natural, old(force), [DampingTerm(p, lib, g)])
    {
      hide AddMetrics, AddForces, MatScale, Identity, Norm;
      var speed := Norm(lib, g.velocity);
      var acceleration := Scale(-Times(p.dGain, speed), g.velocity);
      var scalar := Times(p.metricScalar, speed) + p.inertia;
      AccumulateVector(natural, g, MatScale(scalar, Identity(|g.x|)), acceleration, g.curvature);
    }

    method AccumulateExternal(natural: bool, f: Feature, multiplier: real, g: Geometry)
      requires Valid() && Shaped(g) && |f.acceleration| == |g.x| && IsSquare(f, |g.x|)
      modifies this
      ensures Valid()
      ensures metric == AddMetrics(old(metric), [VectorTerm(g, ExternalMetric(f, multiplier), f.acceleration, g.curvature)])
      ensures force == AddForces(natural, old(force), [VectorTerm(g, ExternalMetric(f, multiplier), f.acceleration, g.curvature)])
    {
      hide AddMetrics, AddForces, MatScale, MatPlus, Identity, Gram;
      var root := f.metricSqrt;
      if multiplier != 0.0 {
        root := MatPlus(root, MatScale(multiplier, Identity(|root|)));
      }
      AccumulateVector(natural, g, Gram(root, |root|), f.acceleration, g.curvature);
    }

    /** `accumulate_leaf_type`: one branch per leaf. It adds exactly the terms of the leaf, or fails and changes
        nothing. */
    method AccumulateLeaf(natural: bool, leaf: LeafType, node: RmpNode, g: Geometry, p: Params, lib: Library,
                          inputs: Inputs, distance: Option<real>)
      returns (error: Option<LeafError>)
      requires Valid() && Shaped(g) && ValidInputs(inputs)
      modifies this
      ensures Valid() && error == LeafFailure(leaf, node, g, p, lib, inputs, distance)
      ensures error.Some? ==> metric == old(metric) && force == old(force)
      ensures error.None? ==>
        var ts := LeafTerms(leaf, node, g, p, lib, inputs, distance).value;
        metric == AddMetrics(old(metric), ts) && force == AddForces(natural, old(force), ts)
    {
      hide AddMetrics, AddForces, RowTerms, CspaceTerm, TargetTerm, AxisTerm, DampingTerm, VectorTerm, ExternalMetric;
      NoTerm(natural, metric, force);
      error := None;
      match leaf {
        case NoLeaf =>
        case CspaceTarget =>
          if |g.x| != |p.cspace.defaultQ| { return Some(LeafDimension); }
          AccumulateCspaceTarget(natural, p.cspace, lib, g);
        case JointLimit => AccumulateRows(natural, g, LimitPolicy(p.limit, lib));
        case JointVelocityCap => AccumulateRows(natural, g, CapPolicy(p.cap));
        case Target =>
          if node.targetKey in inputs.targets {
            if |g.x| != 3 { return Some(LeafDimension); }
            AccumulateTarget(natural, p.target, lib, g, inputs.targets[node.targetKey]);
          }
        case AxisTarget =>
          if node.targetKey in inputs.targets {
            if |g.x| != 3 { return Some(LeafDimension); }
            AccumulateAxisTarget(natural, p.axis, lib, g, inputs.targets[node.targetKey], distance, g.velocity, g.curvature);
          }
        case WristAxisTarget =>
          if node.targetKey in inputs.targets {
            if |g.x| != 3 { return Some(LeafDimension); }
            AccumulateAxisTarget(natural, p.wrist, lib, g, inputs.targets[node.targetKey], distance, Dots(g.jacobian, inputs.qd), Zero(3));
          }
        case Collision => AccumulateRows(natural, g, CollisionPolicy(p.collision, lib));
        case Damping => AccumulateDamping(natural, p.damping, lib, g);
        case External =>
          if node.targetKey in inputs.externals {
            var f := inputs.externals[node.targetKey];
            if |f.acceleration| != |g.x| || !IsSquare(f, |g.x|) { return Some(LeafDimension); }
            AccumulateExternal(natural, f, node.identityMultiplier, g);
          }
        case UnknownLeaf => return Some(UnsupportedLeaf);
      }
    }
  }

  /** The error of a leaf, if it has one. */
  function LeafFailure(leaf: LeafType, node: RmpNode, g: Geometry, p: Params, lib: Library, inputs: Inputs,
                       distance: Option<real>): (r: Option<LeafError>)
    requires Shaped(g) && ValidInputs(inputs)
    ensures r.None? <==> LeafTerms(leaf, node, g, p, lib, inputs, distance).Ok?
  {
    var ts := LeafTerms(leaf, node, g, p, lib, inputs, distance);
    if ts.Ok? then None else Some(ts.error)
  }

  lemma NoTerm(natural: bool, m: seq<Vec>, f: Vec)
    requires IsRoot(m, f)
    ensures AddMetrics(m, []) == m && AddForces(natural, f, []) == f
  {
  }

  lemma OneTerm(natural: bool, m: seq<Vec>, f: Vec, t: Term)
    requires IsRoot(m, f) && ValidTerm(t)
    ensures AddMetrics(m, [t]) == MatPlus(m, TermMetric(t)) && AddForces(natural, f, [t]) == Plus(f, TermForce(natural, t))
  {
    hide TermMetric, TermForce;
    assert [t][..0] == [];
  }

  lemma DotSingleton(x: real, y: real, p: real)
    requires p == x * y
    ensures Dot([x], [y]) == p
  {
    DotHead([x], [y]);
    TimesOf(x, y);
    assert [x][1..] == [] && [y][1..] == [];
  }

  lemma CombineSingleton(j: Vec, w: real)
    ensures Combine([j], [w], |j|) == Scale(w, j)
  {
    hide Scale;
    assert [j][1..] == [] && [w][1..] == [];
    assert Combine([], [], |j|) == Zero(|j|);
    assert Plus(Scale(w, j), Zero(|j|)) == Scale(w, j);
  }

  lemma ScalarMetric(j: Vec, s: Scalars, curvature: real)
    requires |j| == JOINTS
    ensures TermMetric(ScalarTerm(j, s, curvature)) == Outer(j, Scale(s.metric, j))
  {
    hide Scale, Outer, Combine;
    CombineSingleton(j, s.metric);
    var b := MatMul([[s.metric]], [j], JOINTS);
    assert b == [Scale(s.metric, j)];
    assert [j][1..] == [] && b[1..] == [];
    assert TransposeMul([], [], JOINTS) == ZeroMatrix(JOINTS, JOINTS);
    assert MatPlus(Outer(j, b[0]), ZeroMatrix(JOINTS, JOINTS)) == Outer(j, b[0]) by {
      forall i | 0 <= i < JOINTS
        ensures Plus(Outer(j, b[0])[i], Zero(JOINTS)) == Outer(j, b[0])[i]
      {
      }
    }
  }

  lemma ScalarForce(natural: bool, j: Vec, s: Scalars, curvature: real)
    requires |j| == JOINTS
    ensures TermForce(natural, ScalarTerm(j, s, curvature))
         == Scale(if natural then s.metric * s.acceleration - s.metric * curvature
                  else s.metric * (s.acceleration - curvature), j)
  {
    hide Combine, Scale, Dot;
    var t := ScalarTerm(j, s, curvature);
    DotSingleton(s.metric, s.acceleration, s.metric * s.acceleration);
    DotSingleton(s.metric, curvature, s.metric * curvature);
    DotSingleton(s.metric, s.acceleration - curvature, s.metric * (s.acceleration - curvature));
    assert Dots(t.metric, t.acceleration) == [s.metric * s.acceleration];
    assert Dots(t.metric, t.curvature) == [s.metric * curvature];
    assert Minus(t.acceleration, t.curvature) == [s.acceleration - curvature];
    assert Dots(t.metric, Minus(t.acceleration, t.curvature)) == [s.metric * (s.acceleration - curvature)];
    var w := if natural then s.metric * s.acceleration - s.metric * curvature else s.metric * (s.acceleration - curvature);
    CombineSingleton(j, w);
    if natural {
      assert Minus(Dots(t.metric, t.acceleration), Dots(t.metric, t.curvature)) == [w];
    }
  }

  // ----- solving

  datatype SolveMethod = Direct | Rmp2 | UnknownMethod

  datatype RmpType = Canonical | Natural | UnknownType

  datatype SolveError = UnsupportedMethod | UnsupportedType | IllegalPair | InGraph(graph: GraphError) | InLeaf(leaf: LeafError)

  /** Whether leaves use the natural form; natural RMPs are legal only with the `rmp2` method. */
  function ModeOf(m: SolveMethod, t: RmpType): Result<bool, SolveError> {
    if m == UnknownMethod then Err(UnsupportedMethod)
    else if t == UnknownType then Err(UnsupportedType)
    else if m == Direct && t == Natural then Err(IllegalPair)
    else Ok(m == Rmp2 && t == Natural)
  }

  datatype Env = Env(world: World, config: seq<RmpNode>, params: Params, inputs: Inputs)

  ghost predicate ValidEnv(e: Env) { ValidWorld(e.world) && ValidInputs(e.inputs) }

  /** `node_enabled`: the flag of the first configured node of that name. */
  function NodeEnabled(config: seq<RmpNode>, name: string): bool {
    if config == [] then false else if config[0].name == name then config[0].enabled else NodeEnabled(config[1..], name)
  }

  /** The distance from the cached tool position to the position goal, when both are there. */
  function GoalDistance(e: Env, cache: Cache): Option<real>
    requires ValidEnv(e)
  {
    if NodeEnabled(e.config, "target") && "goal" in e.inputs.targets && "tcp_position" in cache
       && |cache["tcp_position"].x| == 3
    then Some(Norm(e.world.lib, Minus(e.inputs.targets["goal"], cache["tcp_position"].x)))
    else None
  }

  datatype Progress = Progress(cache: Cache, terms: seq<Term>)

  /** Evaluates one node and lists the terms of its two leaves. */
  function Visit(e: Env, c: Compiled, cache: Cache): (r: Result<Progress, SolveError>)
    requires ValidEnv(e) && ValidCache(cache)
    ensures r.Ok? ==> ValidCache(r.value.cache) && ValidTerms(r.value.terms)
  {
    match EvaluateNode(c, e.world, cache)
    case Err(x) => Err(InGraph(x))
    case Ok(g) =>
      var after := cache[c.node.name := g];
      var d := GoalDistance(e, after);
      match LeafTerms(c.node.leaf, c.node, g, e.params, e.world.lib, e.inputs, d)
      case Err(x) => Err(InLeaf(x))
      case Ok(first) =>
        match LeafTerms(c.node.handcraftedLeaf, c.node, g, e.params, e.world.lib, e.inputs, d)
        case Err(x) => Err(InLeaf(x))
        case Ok(second) => Ok(Progress(after, first + second))
  }

  /** The cache and the terms after the first nodes of the order. */
  function Run(e: Env, nodes: seq<Compiled>, q: Vec): (r: Result<Progress, SolveError>)
    requires ValidEnv(e) && |q| == JOINTS
    ensures r.Ok? ==> ValidCache(r.value.cache) && ValidTerms(r.value.terms)
  {
    if nodes == [] then Ok(Progress(map["root" := RootGeometry(q, e.inputs.qd)], []))
    else
      var k := |nodes| - 1;
      match Run(e, nodes[..k], q)
      case Err(x) => Err(x)
      case Ok(p) =>
        match Visit(e, nodes[k], p.cache)
        case Err(x) => Err(x)
        case Ok(n) => Ok(Progress(n.cache, p.terms + n.terms))
  }

  /** The system that `resolve_root_*` hands to the linear solver, and its solution by elimination. */
  function MaxAbs(m: seq<Vec>): (r: real)
    ensures r >= 0.0
  {
    if m == [] then 0.0 else Max(MaxAbsRow(m[0]), MaxAbs(m[1..]))
  }

  function MaxAbsRow(v: Vec): (r: real)
    ensures r >= 0.0
  {
    if v == [] then 0.0 else Max(Abs(v[0]), MaxAbsRow(v[1..]))
  }

  function RootScale(metric: seq<Vec>): (r: real)
    ensures r >= 1.0
  {
    Max(MaxAbs(metric) * 0.01, 1.0)
  }

  function ScaledMetric(metric: seq<Vec>, offset: real): (r: seq<Vec>)
    requires |metric| == JOINTS && IsMatrix(metric, JOINTS)
    ensures |r| == JOINTS && IsMatrix(r, JOINTS)
  {
    MatPlus(MatScale(1.0 / RootScale(metric), metric), MatScale(offset, Identity(JOINTS)))
  }

  function ScaledForce(metric: seq<Vec>, force: Vec): (r: Vec)
    ensures |r| == |force|
  {
    Scale(1.0 / RootScale(metric), force)
  }

  datatype RmpResult = RmpResult(qdd: Vec, metric: seq<Vec>, force: Vec)

  /** The resolved result for given root terms; the acceleration is by elimination in exact arithmetic. */
  function Resolved(natural: bool, ts: seq<Term>, offset: real): RmpResult
    requires ValidTerms(ts)
  {
    var metric, force := RootMetric(ts), RootForce(natural, ts);
    RmpResult(Eliminate(ScaledMetric(metric, offset), ScaledForce(metric, force)), metric, force)
  }

  /** `solve` as a function of its inputs. */
  function Solution(m: SolveMethod, t: RmpType, e: Env, nodes: seq<Compiled>, q: Vec, offset: real): Result<RmpResult, SolveError>
    requires ValidEnv(e) && |q| == JOINTS
  {
    match ModeOf(m, t)
    case Err(x) => Err(x)
    case Ok(natural) =>
      match Run(e, nodes, q)
      case Err(x) => Err(x)
      case Ok(p) => Ok(Resolved(natural, p.terms, offset))
  }

  /** `solve`: one pass in evaluation order that caches each geometry and accumulates its two leaves. */
  method Solve(m: SolveMethod, t: RmpType, e: Env, nodes: seq<Compiled>, q: Vec, offset: real)
    returns (r: Result<RmpResult, SolveError>)
    requires ValidEnv(e) && |q| == JOINTS
    ensures r == Solution(m, t, e, nodes, q, offset)
  {
    hide ValidEnv, EvaluateNode, LeafTerms, AddMetrics, AddForces, GoalDistance;
    EnvParts(e);
    var mode := ModeOf(m, t);
    if mode.Err? {
      return Err(mode.error);
    }
    var natural := mode.value;
    var root := new RootSystem();
    var cache: Cache := map["root" := RootGeometry(q, e.inputs.qd)];
    ghost var terms: seq<Term> := [];
    assert nodes[..0] == [];
    NoTerm(natural, root.metric, root.force);
    for k := 0 to |nodes|
      invariant fresh(root) && root.Valid() && ValidCache(cache) && ValidTerms(terms)
      invariant Run(e, nodes[..k], q) == Ok(Progress(cache, terms))
      invariant root.metric == RootMetric(terms) && root.force == RootForce(natural, terms)
    {
      var c := nodes[k];
      assert nodes[..k + 1][..k] == nodes[..k] && nodes[..k + 1][k] == c;
      RunFails(e, nodes, k, q);
      var g := EvaluateNodeState(c, e.world, cache);
      if g.Err? {
        return Err(InGraph(g.error));
      }
      cache := cache[c.node.name := g.value];
      var d := GoalDistance(e, cache);
      var first := root.AccumulateLeaf(natural, c.node.leaf, c.node, g.value, e.params, e.world.lib, e.inputs, d);
      ghost var firstTerms := LeafTerms(c.node.leaf, c.node, g.value, e.params, e.world.lib, e.inputs, d);
      if first.Some? {
        return Err(InLeaf(first.value));
      }
      var second := root.AccumulateLeaf(natural, c.node.handcraftedLeaf, c.node, g.value, e.params, e.world.lib, e.inputs, d);
      ghost var secondTerms := LeafTerms(c.node.handcraftedLeaf, c.node, g.value, e.params, e.world.lib, e.inputs, d);
      if second.Some? {
        return Err(InLeaf(second.value));
      }
      ZeroRoot();
      AddConcat(natural, ZeroMatrix(JOINTS, JOINTS), Zero(JOINTS), terms, firstTerms.value);
      AddConcat(natural, ZeroMatrix(JOINTS, JOINTS), Zero(JOINTS), terms + firstTerms.value, secondTerms.value);
      assert terms + firstTerms.value + secondTerms.value == terms + (firstTerms.value + secondTerms.value);
      terms := terms + (firstTerms.value + secondTerms.value);
    }
    assert nodes[..|nodes|] == nodes;
    var metric, force := root.metric, root.force;
    var qdd := Eliminate(ScaledMetric(metric, offset), ScaledForce(metric, force));
    return Ok(RmpResult(qdd, metric, force));
  }

  lemma EnvParts(e: Env)
    requires ValidEnv(e)
    ensures ValidWorld(e.world) && ValidInputs(e.inputs)
  {
  }

  lemma ZeroRoot()
    ensures IsRoot(ZeroMatrix(JOINTS, JOINTS), Zero(JOINTS))
  {
  }

  /** A failure at node `k` is the failure of the whole run. */
  lemma {:induction false} RunFails(e: Env, nodes: seq<Compiled>, k: nat, q: Vec)
    requires ValidEnv(e) && |q| == JOINTS && k < |nodes|
    ensures Run(e, nodes[..k + 1], q).Err? ==> Run(e, nodes, q) == Run(e, nodes[..k + 1], q)
    decreases |nodes|
  {
    hide ValidEnv, Visit;
    var n := |nodes| - 1;
    if k < n {
      RunFails(e, nodes[..n], k, q);
      assert nodes[..n][..k + 1] == nodes[..k + 1];
    } else {
      assert nodes[..k + 1] == nodes;
    }
  }

  // ----- main properties of a solve

  /** The leaves read exactly the geometries of the graph evaluation. */
  lemma {:induction false} RunEvaluates(e: Env, nodes: seq<Compiled>, q: Vec)
    requires ValidEnv(e) && |q| == JOINTS && Run(e, nodes, q).Ok?
    ensures EvaluateAll(nodes, e.world, q, e.inputs.qd) == Ok(Run(e, nodes, q).value.cache)
  {
    EnvParts(e);
    hide ValidEnv, EvaluateNode, LeafTerms, ValidWorld;
    if nodes != [] { RunEvaluates(e, nodes[..|nodes| - 1], q); }
  }

  lemma VisitPsd(e: Env, c: Compiled, cache: Cache)
    requires ValidEnv(e) && ValidCache(cache) && Standard(e.world.lib) && Tuned(e.params) && Visit(e, c, cache).Ok?
    ensures PsdTerms(Visit(e, c, cache).value.terms)
  {
    hide Standard, Tuned, LeafTerms, SymmetricPsd, ValidWorld, ValidInputs, EvaluateNode, GoalDistance;
    var g := EvaluateNode(c, e.world, cache).value;
    var d := GoalDistance(e, cache[c.node.name := g]);
    LeafTermsPsd(c.node.leaf, c.node, g, e.params, e.world.lib, e.inputs, d);
    LeafTermsPsd(c.node.handcraftedLeaf, c.node, g, e.params, e.world.lib, e.inputs, d);
  }

  lemma {:induction false} RunPsd(e: Env, nodes: seq<Compiled>, q: Vec)
    requires ValidEnv(e) && |q| == JOINTS && Standard(e.world.lib) && Tuned(e.params) && Run(e, nodes, q).Ok?
    ensures PsdTerms(Run(e, nodes, q).value.terms)
  {
    hide Standard, Tuned, ValidEnv, Visit, SymmetricPsd;
    if nodes != [] {
      var k := |nodes| - 1;
      RunPsd(e, nodes[..k], q);
      VisitPsd(e, nodes[k], Run(e, nodes[..k], q).value.cache);
    }
  }

  /** For any graph, any state and any inputs: with non-negative gains and positive scales the root metric is
      symmetric positive semidefinite. */
  lemma SolvedMetricPsd(m: SolveMethod, t: RmpType, e: Env, nodes: seq<Compiled>, q: Vec, offset: real)
    requires ValidEnv(e) && |q| == JOINTS && Standard(e.world.lib) && Tuned(e.params)
    requires Solution(m, t, e, nodes, q, offset).Ok?
    ensures SymmetricPsd(Solution(m, t, e, nodes, q, offset).value.metric)
  {
    hide Standard, Tuned, ValidEnv, Run, SymmetricPsd, RootMetric, RootForce, Eliminate;
    RunPsd(e, nodes, q);
    RootMetricPsd(Run(e, nodes, q).value.terms);
  }

  /** The legal pairs of method and type all give the same result; the fourth pair is refused. */
  lemma LegalModesAgree(m: SolveMethod, t: RmpType, e: Env, nodes: seq<Compiled>, q: Vec, offset: real)
    requires ValidEnv(e) && |q| == JOINTS && m != UnknownMethod && t != UnknownType
    ensures Solution(m, t, e, nodes, q, offset)
         == if m == Direct && t == Natural then Err(IllegalPair) else Solution(Direct, Canonical, e, nodes, q, offset)
  {
    hide ValidEnv, Run, RootMetric, RootForce, Eliminate;
    if Run(e, nodes, q).Ok? { NaturalRootForce(Run(e, nodes, q).value.terms); }
  }

  // ----- the resolved system

  lemma ScaledPsd(metric: seq<Vec>)
    requires SymmetricPsd(metric)
    ensures SymmetricPsd(MatScale(1.0 / RootScale(metric), metric))
  {
    hide SymmetricPsd, RootScale;
    PositiveQuotient(1.0, RootScale(metric));
    MatScalePsd(1.0 / RootScale(metric), metric);
  }

  /** A semidefinite root metric and a positive offset give a system with exactly one solution, and
      elimination finds it. */
  lemma ResolvedOnce(metric: seq<Vec>, force: Vec, offset: real, x: Vec)
    requires |metric| == |force| == |x| == JOINTS && SymmetricPsd(metric) && offset > 0.0
    ensures IsMatrix(metric, JOINTS)
    ensures Dots(ScaledMetric(metric, offset), x) == ScaledForce(metric, force)
       <==> x == Eliminate(ScaledMetric(metric, offset), ScaledForce(metric, force))
  {
    hide SymmetricPsd, Definite, ScaledMetric, ScaledForce, Eliminate, Dot;
    SystemDefinite(metric, offset);
    var b := ScaledForce(metric, force);
    EliminateSolves(ScaledMetric(metric, offset), b);
    if Dots(ScaledMetric(metric, offset), x) == b {
      UniqueSolution(ScaledMetric(metric, offset), x, Eliminate(ScaledMetric(metric, offset), b));
    }
  }

  lemma SystemDefinite(metric: seq<Vec>, offset: real)
    requires |metric| == JOINTS && SymmetricPsd(metric) && offset > 0.0
    ensures IsMatrix(metric, JOINTS) && Definite(ScaledMetric(metric, offset))
  {
    hide Definite, MatPlus, MatScale, RootScale, Identity, SymmetricPsd;
    ScaledPsd(metric);
    PsdAt(metric, Zero(JOINTS));
    OffsetDefinite(MatScale(1.0 / RootScale(metric), metric), offset);
  }

  /** The offset bounds the acceleration: `offset |qdd| <= |force|`. */
  lemma ResolvedBound(lib: Library, metric: seq<Vec>, force: Vec, offset: real, x: Vec)
    requires Standard(lib) && |metric| == |force| == |x| == JOINTS && SymmetricPsd(metric) && offset > 0.0
    requires IsMatrix(metric, JOINTS) && Dots(ScaledMetric(metric, offset), x) == ScaledForce(metric, force)
    ensures offset * Norm(lib, x) <= Norm(lib, force)
  {
    hide Standard, SymmetricPsd, RootScale, Dot, Scale, MatPlus, MatScale, Identity;
    ScaledBound(metric, force, offset, x);
    SquaredLength(x);
    SquaredLength(force);
    var s := SqrtFacts(lib, Dot(x, x));
    var f := SqrtFacts(lib, Dot(force, force));
    RootOrder(offset, s, Dot(x, x), f, Dot(force, force));
  }

  lemma ScaledBound(metric: seq<Vec>, force: Vec, offset: real, x: Vec)
    requires |metric| == |force| == |x| == JOINTS && SymmetricPsd(metric) && offset > 0.0
    requires IsMatrix(metric, JOINTS) && Dots(ScaledMetric(metric, offset), x) == ScaledForce(metric, force)
    ensures offset * offset * Dot(x, x) <= Dot(force, force)
  {
    hide SymmetricPsd, RootScale, Dot, Scale, MatPlus, MatScale, Identity, ScaledForce;
    var k := 1.0 / RootScale(metric);
    ScaledPsd(metric);
    SolutionBound(MatScale(k, metric), offset, x, ScaledForce(metric, force));
    ShorterForce(metric, force, k);
  }

  lemma ShorterForce(metric: seq<Vec>, force: Vec, k: real)
    requires k == 1.0 / RootScale(metric)
    ensures Dot(ScaledForce(metric, force), ScaledForce(metric, force)) <= Dot(force, force)
  {
    hide Dot, Scale;
    SquaredLength(force);
    ScaleDot(k, force, Scale(k, force));
    DotScale(k, force, force);
    InverseBelowOne(RootScale(metric), k);
    hide RootScale;
    var y := Dot(force, force);
    MulLe(y, k, 1.0, y * k, y * 1.0);
    ProductSign(y, k, y * k);
    MulLe(y * k, k, 1.0, y * k * k, y * k * 1.0);
    assert k * (k * y) == y * k * k;
  }

  lemma InverseBelowOne(s: real, k: real)
    requires s >= 1.0 && k == 1.0 / s
    ensures 0.0 < k <= 1.0
  {
    PositiveQuotient(1.0, s);
    assert k * s == 1.0;
    if k > 1.0 { ProductSign(k - 1.0, s, (k - 1.0) * s); }
  }

  lemma RootOrder(k: real, s: real, xx: real, f: real, ff: real)
    requires k > 0.0 && s >= 0.0 && f >= 0.0 && s * s == xx && f * f == ff && k * k * xx <= ff
    ensures k * s <= f
  {
    var y := k * s;
    ProductSign(k, s, y);
    assert y * y == k * k * xx;
    if y > f { LargerSquare(y, f); }
  }

  lemma LargerSquare(y: real, f: real)
    requires y > f >= 0.0
    ensures y * y > f * f
  {
    ProductSign(y - f, y + f, (y - f) * (y + f));
    assert (y - f) * (y + f) == y * y - f * f;
  }

  /** The acceleration that a solve returns is the one solution of its own root system, and bounded. */
  lemma SolvedAcceleration(m: SolveMethod, t: RmpType, e: Env, nodes: seq<Compiled>, q: Vec, offset: real)
    requires ValidEnv(e) && |q| == JOINTS && Standard(e.world.lib) && Tuned(e.params) && offset > 0.0
    requires Solution(m, t, e, nodes, q, offset).Ok?
    ensures var r := Solution(m, t, e, nodes, q, offset).value;
      && |r.metric| == |r.force| == |r.qdd| == JOINTS && IsMatrix(r.metric, JOINTS)
      && Dots(ScaledMetric(r.metric, offset), r.qdd) == ScaledForce(r.metric, r.force)
      && offset * Norm(e.world.lib, r.qdd) <= Norm(e.world.lib, r.force)
  {
    hide Standard, Tuned, ValidEnv, Run, SymmetricPsd, AddMetrics, AddForces, Eliminate, ScaledMetric, ScaledForce, Norm;
    SolvedMetricPsd(m, t, e, nodes, q, offset);
    var r := Solution(m, t, e, nodes, q, offset).value;
    ResolvedOnce(r.metric, r.force, offset, r.qdd);
    ResolvedBound(e.world.lib, r.metric, r.force, offset, r.qdd);
  }
}
