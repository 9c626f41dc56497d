/** The hand-written solver for the default leaves, and how the graph solver refines it. */
module EigenSolver {
  import opened LinearAlgebra
  import opened RmpConfig
  import opened Elementary
  import opened ChainRule
  import opened TaskMaps
  import opened TaskGraph
  import opened CollisionExact
  import opened RmpLeaves
  import DefiniteSystem
  import opened DirectSolver

  /** What the hand-written solver reads: tool and control points by position and Jacobian only. */
  datatype Scene = Scene(lib: Library, tcp: Geometry, points: seq<Geometry>, robot: Robot, obstacles: seq<Obstacle>,
                         params: Params, q: Vec, qd: Vec, goal: Vec)

  ghost predicate ValidScene(s: Scene) {
    && IsPoint(s.tcp) && (forall i | 0 <= i < |s.points| :: IsPoint(s.points[i]))
    && |s.robot.lower| == |s.robot.upper| == |s.robot.buffers| == JOINTS && |s.robot.pointRadii| == |s.points|
    && (forall i | 0 <= i < |s.obstacles| :: |s.obstacles[i].center| == 3)
    && |s.q| == |s.qd| == |s.params.cspace.defaultQ| == JOINTS && |s.goal| == 3
  }

  // ----- the terms it accumulates, in its order

  function CspaceTermOf(s: Scene): (t: Term)
    requires ValidScene(s)
    ensures ValidTerm(t)
  {
    var p := s.params.cspace;
    Term(Identity(JOINTS), MatScale(p.metricScalar + p.inertia, Identity(JOINTS)), CspaceAcceleration(p, s.lib, s.q, s.qd), Zero(JOINTS))
  }

  /** The two rows of one joint: distance to the upper and to the lower limit. */
  function LimitTermOf(s: Scene, joint: nat, sign: nat): (t: Term)
    requires ValidScene(s) && joint < JOINTS && sign < 2
    ensures ValidTerm(t)
  {
    var lower, upper := s.robot.lower[joint] + s.robot.buffers[joint], s.robot.upper[joint] - s.robot.buffers[joint];
    var x := if sign == 0 then upper - s.q[joint] else s.q[joint] - lower;
    var xd := if sign == 0 then -s.qd[joint] else s.qd[joint];
    ScalarTerm(Zero(JOINTS)[joint := if sign == 0 then -1.0 else 1.0], JointLimitScalars(s.params.limit, s.lib, x, xd), 0.0)
  }

  function LimitTermsOf(s: Scene, joint: nat, sign: nat): (ts: seq<Term>)
    requires ValidScene(s) && (joint < JOINTS || sign == 0) && joint <= JOINTS && sign <= 2
    ensures ValidTerms(ts)
    decreases joint, sign
  {
    if sign > 0 then LimitTermsOf(s, joint, sign - 1) + [LimitTermOf(s, joint, sign - 1)]
    else if joint > 0 then LimitTermsOf(s, joint - 1, 2)
    else []
  }

  function CapTermsOf(s: Scene, k: nat): (ts: seq<Term>)
    requires ValidScene(s) && k <= JOINTS
    ensures ValidTerms(ts)
  {
    if k == 0 then []
    else
      CapTermsOf(s, k - 1)
      + match VelocityCapScalars(s.params.cap, s.qd[k - 1])
        case None => []
        case Some(v) => [ScalarTerm(Zero(JOINTS)[k - 1 := 1.0], v, 0.0)]
  }

  function TargetTermOf(s: Scene): (t: Term)
    requires ValidScene(s)
    ensures ValidTerm(t)
  {
    var delta := Minus(s.goal, s.tcp.x);
    Term(s.tcp.jacobian, TargetMetric(s.params.target, s.lib, delta),
         TargetAcceleration(s.params.target, s.lib, delta, Dots(s.tcp.jacobian, s.qd)), Zero(3))
  }

  function CollisionTermOf(s: Scene, k: nat, o: nat): (t: Term)
    requires ValidScene(s) && k < |s.points| && o < |s.obstacles|
    ensures ValidTerm(t)
  {
    var p, ob := s.points[k], s.obstacles[o];
    var j := RowGradient(s.lib, p, ob);
    var x := Max(SignedDistance(s.lib, p.x, ob, s.robot.pointRadii[k], s.robot.margin), 0.0);
    ScalarTerm(j, CollisionScalars(s.params.collision, s.lib, x, Dot(j, s.qd)), 0.0)
  }

  function CollisionTermsOf(s: Scene, k: nat, o: nat): (ts: seq<Term>)
    requires ValidScene(s) && k <= |s.points| && o <= |s.obstacles| && (k < |s.points| || o == 0)
    ensures ValidTerms(ts)
    decreases k, o
  {
    if o > 0 then CollisionTermsOf(s, k, o - 1) + [CollisionTermOf(s, k, o - 1)]
    else if k > 0 then CollisionTermsOf(s, k - 1, |s.obstacles|)
    else []
  }

  function DampingTermOf(s: Scene): (t: Term)
    requires ValidScene(s)
    ensures ValidTerm(t)
  {
    var p, speed := s.params.damping, Norm(s.lib, s.qd);
    Term(Identity(JOINTS), MatScale(Times(p.metricScalar, speed) + p.inertia, Identity(JOINTS)),
         Scale(-Times(p.dGain, speed), s.qd), Zero(JOINTS))
  }

  function FirstTerms(s: Scene): (ts: seq<Term>)
    requires ValidScene(s)
    ensures ValidTerms(ts)
  {
    [CspaceTermOf(s)] + LimitTermsOf(s, JOINTS, 0) + CapTermsOf(s, JOINTS)
  }

  function SceneTerms(s: Scene): (ts: seq<Term>)
    requires ValidScene(s)
    ensures ValidTerms(ts)
  {
    FirstTerms(s) + [TargetTermOf(s)] + CollisionTermsOf(s, |s.points|, 0) + [DampingTermOf(s)]
  }

  // ----- the solver

  method AccumulateLimits(s: Scene, root: RootSystem)
    requires ValidScene(s) && root.Valid()
    modifies root
    ensures root.Valid()
    ensures root.metric == AddMetrics(old(root.metric), LimitTermsOf(s, JOINTS, 0))
    ensures root.force == AddForces(false, old(root.force), LimitTermsOf(s, JOINTS, 0))
  {
    hide AddMetrics, AddForces, ValidScene, JointLimitScalars, ScalarTerm, Zero;
    ghost var m, f := root.metric, root.force;
    NoTerm(false, m, f);
    for joint := 0 to JOINTS
      invariant root.Valid()
      invariant root.metric == AddMetrics(m, LimitTermsOf(s, joint, 0)) && root.force == AddForces(false, f, LimitTermsOf(s, joint, 0))
    {
      SceneParts(s);
      var lower := s.robot.lower[joint] + s.robot.buffers[joint];
      var upper := s.robot.upper[joint] - s.robot.buffers[joint];
      for sign := 0 to 2
        invariant root.Valid()
        invariant root.metric == AddMetrics(m, LimitTermsOf(s, joint, sign))
        invariant root.force == AddForces(false, f, LimitTermsOf(s, joint, sign))
      {
        var x := if sign == 0 then upper - s.q[joint] else s.q[joint] - lower;
        var xd := if sign == 0 then -s.qd[joint] else s.qd[joint];
        var jacobian := Zero(JOINTS)[joint := if sign == 0 then -1.0 else 1.0];
        AddConcat(false, m, f, LimitTermsOf(s, joint, sign), [LimitTermOf(s, joint, sign)]);
        root.AccumulateScalarLeaf(false, jacobian, JointLimitScalars(s.params.limit, s.lib, x, xd), 0.0);
      }
    }
  }

  lemma SceneParts(s: Scene)
    requires ValidScene(s)
    ensures IsPoint(s.tcp) && |s.q| == |s.qd| == |s.robot.lower| == |s.robot.upper| == |s.robot.buffers| == JOINTS
    ensures |s.goal| == 3 && |s.robot.pointRadii| == |s.points| && |s.params.cspace.defaultQ| == JOINTS
    ensures forall i | 0 <= i < |s.points| :: IsPoint(s.points[i])
    ensures forall i | 0 <= i < |s.obstacles| :: |s.obstacles[i].center| == 3
  {
  }

  method AccumulateCap(s: Scene, root: RootSystem)
    requires ValidScene(s) && root.Valid()
    modifies root
    ensures root.Valid()
    ensures root.metric == AddMetrics(old(root.metric), CapTermsOf(s, JOINTS))
    ensures root.force == AddForces(false, old(root.force), CapTermsOf(s, JOINTS))
  {
    hide AddMetrics, AddForces, ValidScene, VelocityCapScalars, ScalarTerm, Zero;
    ghost var m, f := root.metric, root.force;
    NoTerm(false, m, f);
    SceneParts(s);
    for joint := 0 to JOINTS
      invariant root.Valid()
      invariant root.metric == AddMetrics(m, CapTermsOf(s, joint)) && root.force == AddForces(false, f, CapTermsOf(s, joint))
    {
      var scalars := VelocityCapScalars(s.params.cap, s.qd[joint]);
      if scalars.None? {
        assert CapTermsOf(s, joint + 1) == CapTermsOf(s, joint);
        continue;
      }
      var jacobian := Zero(JOINTS)[joint := 1.0];
      AddConcat(false, m, f, CapTermsOf(s, joint), [ScalarTerm(jacobian, scalars.value, 0.0)]);
      root.AccumulateScalarLeaf(false, jacobian, scalars.value, 0.0);
    }
  }

  method AccumulateCollision(s: Scene, root: RootSystem)
    requires ValidScene(s) && root.Valid()
    modifies root
    ensures root.Valid()
    ensures root.metric == AddMetrics(old(root.metric), CollisionTermsOf(s, |s.points|, 0))
    ensures root.force == AddForces(false, old(root.force), CollisionTermsOf(s, |s.points|, 0))
  {
    hide AddMetrics, AddForces, ValidScene, CollisionScalars, ScalarTerm, RowGradient, SignedDistance, IsPoint, Dot;
    ghost var m, f := root.metric, root.force;
    NoTerm(false, m, f);
    SceneParts(s);
    for k := 0 to |s.points|
      invariant root.Valid()
      invariant root.metric == AddMetrics(m, CollisionTermsOf(s, k, 0)) && root.force == AddForces(false, f, CollisionTermsOf(s, k, 0))
    {
      for o := 0 to |s.obstacles|
        invariant root.Valid()
        invariant root.metric == AddMetrics(m, CollisionTermsOf(s, k, o))
        invariant root.force == AddForces(false, f, CollisionTermsOf(s, k, o))
      {
        PointRows(s.points[k]);
        var x := Max(SignedDistance(s.lib, s.points[k].x, s.obstacles[o], s.robot.pointRadii[k], s.robot.margin), 0.0);
        var jacobian := RowGradient(s.lib, s.points[k], s.obstacles[o]);
        var xd := Dot(jacobian, s.qd);
        AddConcat(false, m, f, CollisionTermsOf(s, k, o), [CollisionTermOf(s, k, o)]);
        root.AccumulateScalarLeaf(false, jacobian, CollisionScalars(s.params.collision, s.lib, x, xd), 0.0);
      }
    }
  }

  lemma PointRows(p: Geometry)
    requires IsPoint(p)
    ensures |p.x| == |p.jacobian| == 3 && IsMatrix(p.jacobian, JOINTS) && Shaped(p)
  {
  }

  /** `EigenRmpSolver::solve`. */
  method SolveScene(s: Scene, offset: real) returns (r: RmpResult)
    requires ValidScene(s)
    ensures r == Resolved(false, SceneTerms(s), offset)
  {
    hide AddMetrics, AddForces, ValidScene, CspaceTermOf, TargetTermOf, DampingTermOf, LimitTermsOf, CapTermsOf, CollisionTermsOf;
    var root := new RootSystem();
    ghost var m, f := root.metric, root.force;
    root.AccumulateVectorLeaf(false, CspaceTermOf(s));
    AccumulateLimits(s, root);
    AddConcat(false, m, f, [CspaceTermOf(s)], LimitTermsOf(s, JOINTS, 0));
    ghost var ts := [CspaceTermOf(s)] + LimitTermsOf(s, JOINTS, 0);
    AccumulateCap(s, root);
    AddConcat(false, m, f, ts, CapTermsOf(s, JOINTS));
    ts := ts + CapTermsOf(s, JOINTS);
    root.AccumulateVectorLeaf(false, TargetTermOf(s));
    AddConcat(false, m, f, ts, [TargetTermOf(s)]);
    ts := ts + [TargetTermOf(s)];
    AccumulateCollision(s, root);
    AddConcat(false, m, f, ts, CollisionTermsOf(s, |s.points|, 0));
    ts := ts + CollisionTermsOf(s, |s.points|, 0);
    root.AccumulateVectorLeaf(false, DampingTermOf(s));
    AddConcat(false, m, f, ts, [DampingTermOf(s)]);
    var metric, force := root.metric, root.force;
    r := RmpResult(DefiniteSystem.Eliminate(ScaledMetric(metric, offset), ScaledForce(metric, force)), metric, force);
  }
}
