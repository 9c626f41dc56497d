/** The leaf policies: the acceleration and the metric each one attaches to its task space. */
module RmpLeaves {
  import opened LinearAlgebra
  import opened RmpConfig
  import opened Elementary
  import opened ChainRule

  datatype CspaceParams = CspaceParams(metricScalar: real, positionGain: real, dampingGain: real,
                                       robustThreshold: real, inertia: real, defaultQ: Vec)

  datatype JointLimitParams = JointLimitParams(metricScalar: real, lengthScale: real, exploderEps: real,
                                               velocityGate: real, damperGain: real, potentialGain: real,
                                               potentialEps: real, potentialLengthScale: real)

  datatype VelocityCapParams = VelocityCapParams(maxVelocity: real, dampingRegion: real, dampingGain: real,
                                                 metricWeight: real, eps: real)

  datatype TargetParams = TargetParams(pGain: real, dGain: real, normEps: real, alphaLengthScale: real,
                                       minAlpha: real, maxScalar: real, minScalar: real,
                                       boostScalar: real, boostLengthScale: real)

  datatype AxisParams = AxisParams(pGain: real, dGain: real, metricScalar: real, boostScalar: real, boostLengthScale: real)

  datatype CollisionParams = CollisionParams(dampingGain: real, dampingStdDev: real, dampingEps: real, velocityGate: real,
                                             repulsionGain: real, repulsionStdDev: real, modulationRadius: real,
                                             metricScalar: real, exploderStdDev: real, exploderEps: real)

  datatype DampingParams = DampingParams(dGain: real, metricScalar: real, inertia: real)

  datatype Params = Params(cspace: CspaceParams, limit: JointLimitParams, cap: VelocityCapParams, target: TargetParams,
                           axis: AxisParams, wrist: AxisParams, collision: CollisionParams, damping: DampingParams)

  /** `x / y`; the guard only makes the division total. */
  function Over(x: real, y: real): real { if y == 0.0 then 0.0 else x / y }

  function Sqr(x: real): real { x * x }

  /** What a scalar policy returns: its metric and its acceleration. */
  datatype Scalars = Scalars(metric: real, acceleration: real)

  /** One row of the joint-limit policy at distance `x` and velocity `xd`. */
  function JointLimitScalars(p: JointLimitParams, lib: Library, x0: real, xd: real): Scalars {
    var x := Max(x0, 0.0);
    var before := Over(p.metricScalar, Over(x, p.lengthScale) + p.exploderEps);
    var scaled := Over(x, p.potentialLengthScale);
    Scalars(Times(1.0 - Sigmoid(lib, Over(xd, p.velocityGate)), before),
            Over(p.potentialGain, Sqr(scaled) + p.potentialEps) - Times(p.damperGain, xd))
  }

  /** One joint of the velocity cap; inactive below the damping region. */
  function VelocityCapScalars(p: VelocityCapParams, v: real): Option<Scalars> {
    var excess := Abs(v) - p.maxVelocity + p.dampingRegion;
    if Abs(v) < p.maxVelocity - p.dampingRegion then None
    else
      var ratio := Over(Min(excess, p.dampingRegion - p.eps), p.dampingRegion);
      Some(Scalars(Over(p.metricWeight, 1.0 - Sqr(ratio)),
                   -Abs(Times(p.dampingGain, excess)) * (if v >= 0.0 then 1.0 else -1.0)))
  }

  /** One row of the collision policy at clearance `x` and velocity `xd`. */
  function CollisionScalars(p: CollisionParams, lib: Library, x0: real, xd: real): Scalars {
    var x := Max(x0, 0.0);
    var r := p.modulationRadius;
    var before := Over(p.metricScalar, Over(x, p.exploderStdDev) + p.exploderEps);
    var gate := if x > r then 0.0 else Over(Sqr(x), Sqr(r)) - 2.0 * Over(x, r) + 1.0;
    var sigma := Sigmoid(lib, Over(xd, p.velocityGate));
    var repel := Times(p.repulsionGain, lib.exp(-Over(x, p.repulsionStdDev)));
    var damping := Over(-Times(Times(1.0 - sigma, p.dampingGain), xd), Over(x, p.dampingStdDev) + p.dampingEps);
    Scalars(if x > r then 0.0 else Times(Times(before, gate), 1.0 - sigma), repel + damping)
  }

  function Gaussian(lib: Library, x: real): real { lib.exp(-0.5 * Sqr(x)) }

  /** `boost * b + (1 - b)`. */
  function Blend(b: real, boost: real): real { Times(b, boost) + (1.0 - b) }

  /** The metric of a position target at offset `delta`. */
  function TargetMetric(p: TargetParams, lib: Library, delta: Vec): (m: seq<Vec>)
    ensures |m| == |delta| && IsMatrix(m, |delta|)
  {
    var norm := Norm(lib, delta);
    var hat := Scale(Over(1.0, Max(norm, p.normEps / 10.0)), delta);
    var alpha := Times(1.0 - p.minAlpha, Gaussian(lib, Over(norm, p.alphaLengthScale))) + p.minAlpha;
    var boost := Blend(Gaussian(lib, Over(norm, p.boostLengthScale)), p.boostScalar);
    MatScale(boost, MatPlus(MatScale(Times(alpha, p.maxScalar), Identity(|delta|)),
                            MatScale(Times(1.0 - alpha, p.minScalar), Outer(hat, hat))))
  }

  function TargetAcceleration(p: TargetParams, lib: Library, delta: Vec, xd: Vec): (a: Vec)
    requires |delta| == |xd|
    ensures |a| == |delta|
  {
    Minus(Scale(Over(1.0, Norm(lib, delta) + p.normEps), Scale(p.pGain, delta)), Scale(p.dGain, xd))
  }

  /** Eigen's `normalized()`: the zero vector stays. */
  function Normalized(lib: Library, v: Vec): (r: Vec)
    ensures |r| == |v|
  {
    if Dot(v, v) > 0.0 then Scale(Over(1.0, Norm(lib, v)), v) else v
  }

  /** The metric of an axis target; the boost applies when the distance to the position goal is known. */
  function AxisScalar(p: AxisParams, lib: Library, distance: Option<real>): real {
    match distance
    case None => p.metricScalar
    case Some(d) =>
      Times(p.metricScalar, Blend(Gaussian(lib, Over(d, Max(p.boostLengthScale, 0.000000001))), p.boostScalar))
  }

  function CspaceAcceleration(p: CspaceParams, lib: Library, x: Vec, v: Vec): (a: Vec)
    requires |x| == |v| == |p.defaultQ|
    ensures |a| == |x|
  {
    var delta := Minus(x, p.defaultQ);
    var norm := Norm(lib, delta);
    var term :=
      if norm > p.robustThreshold && norm > 0.000000001 then
        Scale(Times(-p.robustThreshold, p.positionGain), Scale(Over(1.0, norm), delta))
      else Scale(-p.positionGain, delta);
    Minus(term, Scale(p.dampingGain, v))
  }

  // ----- terms

  /** One accumulation into the root: a Jacobian with its metric, acceleration and curvature. */
  datatype Term = Term(jacobian: seq<Vec>, metric: seq<Vec>, acceleration: Vec, curvature: Vec)

  ghost predicate ValidTerm(t: Term) {
    && |t.metric| == |t.jacobian| == |t.acceleration| == |t.curvature|
    && IsMatrix(t.jacobian, JOINTS) && IsMatrix(t.metric, |t.jacobian|)
  }

  function ScalarTerm(j: Vec, s: Scalars, curvature: real): (t: Term)
    requires |j| == JOINTS
    ensures ValidTerm(t)
  {
    Term([j], [[s.metric]], [s.acceleration], [curvature])
  }

  datatype LeafError = LeafDimension | UnsupportedLeaf

  datatype Feature = Feature(metricSqrt: seq<Vec>, acceleration: Vec)

  /** What the leaves of one solve read besides geometry. */
  datatype Inputs = Inputs(qd: Vec, targets: map<string, Vec>, externals: map<string, Feature>)

  ghost predicate ValidInputs(i: Inputs) {
    |i.qd| == JOINTS && forall k | k in i.targets :: |i.targets[k]| == 3
  }

  /** `S S^T`. */
  function Gram(s: seq<Vec>, n: nat): (m: seq<Vec>)
    requires IsMatrix(s, n)
    ensures |m| == |s| && IsMatrix(m, |s|)
  {
    seq(|s|, i requires 0 <= i < |s| => seq(|s|, j requires 0 <= j < |s| => Dot(s[i], s[j])))
  }

  function ExternalMetric(f: Feature, multiplier: real): (m: seq<Vec>)
    requires IsMatrix(f.metricSqrt, |f.metricSqrt|)
    ensures |m| == |f.metricSqrt| && IsMatrix(m, |m|)
  {
    var s := if multiplier != 0.0 then MatPlus(f.metricSqrt, MatScale(multiplier, Identity(|f.metricSqrt|))) else f.metricSqrt;
    Gram(s, |s|)
  }

  predicate IsSquare(f: Feature, n: nat) {
    |f.metricSqrt| == n && forall i | 0 <= i < n :: |f.metricSqrt[i]| == n
  }

  /** The rows of a leaf that treats each coordinate on its own, up to coordinate `k`. */
  function RowTerms(g: Geometry, policy: (real, real) -> Option<Scalars>, k: nat): (r: seq<Term>)
    requires Shaped(g) && k <= |g.x|
    ensures forall i | 0 <= i < |r| :: ValidTerm(r[i])
  {
    if k == 0 then []
    else
      RowTerms(g, policy, k - 1)
      + match policy(g.x[k - 1], g.velocity[k - 1])
        case None => []
        case Some(s) => [ScalarTerm(g.jacobian[k - 1], s, g.curvature[k - 1])]
  }

  function LimitPolicy(p: JointLimitParams, lib: Library): (real, real) -> Option<Scalars> {
    (x, xd) => Some(JointLimitScalars(p, lib, x, xd))
  }

  function CapPolicy(p: VelocityCapParams): (real, real) -> Option<Scalars> { (x, xd) => VelocityCapScalars(p, xd) }

  function CollisionPolicy(p: CollisionParams, lib: Library): (real, real) -> Option<Scalars> {
    (x, xd) => Some(CollisionScalars(p, lib, x, xd))
  }

  function VectorTerm(g: Geometry, metric: seq<Vec>, acceleration: Vec, curvature: Vec): (t: Term)
    requires Shaped(g) && |metric| == |acceleration| == |curvature| == |g.x| && IsMatrix(metric, |g.x|)
    ensures ValidTerm(t)
  {
    Term(g.jacobian, metric, acceleration, curvature)
  }

  function TargetTerm(p: TargetParams, lib: Library, g: Geometry, goal: Vec): (t: Term)
    requires Shaped(g) && |g.x| == |goal|
    ensures ValidTerm(t)
  {
    var delta := Minus(goal, g.x);
    VectorTerm(g, TargetMetric(p, lib, delta), TargetAcceleration(p, lib, delta, g.velocity), g.curvature)
  }

  function AxisTerm(p: AxisParams, lib: Library, g: Geometry, goal: Vec, distance: Option<real>,
                    velocity: Vec, curvature: Vec): (t: Term)
    requires Shaped(g) && |g.x| == |goal| == |velocity| == |curvature|
    ensures ValidTerm(t)
  {
    var delta := Minus(Normalized(lib, goal), Normalized(lib, g.x));
    VectorTerm(g, MatScale(AxisScalar(p, lib, distance), Identity(|g.x|)),
               Minus(Scale(p.pGain, delta), Scale(p.dGain, velocity)), curvature)
  }

  function DampingTerm(p: DampingParams, lib: Library, g: Geometry): (t: Term)
    requires Shaped(g)
    ensures ValidTerm(t)
  {
    var speed := Norm(lib, g.velocity);
    VectorTerm(g, MatScale(Times(p.metricScalar, speed) + p.inertia, Identity(|g.x|)),
               Scale(-Times(p.dGain, speed), g.velocity), g.curvature)
  }

  function CspaceTerm(p: CspaceParams, lib: Library, g: Geometry): (t: Term)
    requires Shaped(g) && |g.x| == |p.defaultQ|
    ensures ValidTerm(t)
  {
    VectorTerm(g, MatScale(p.metricScalar + p.inertia, Identity(|g.x|)), CspaceAcceleration(p, lib, g.x, g.velocity), g.curvature)
  }

  /** `accumulate_leaf_type`: the terms one leaf adds to the root. A leaf whose target or feature is absent
      adds none. */
  function LeafTerms(leaf: LeafType, node: RmpNode, g: Geometry, p: Params, lib: Library, inputs: Inputs,
                     distance: Option<real>): (r: Result<seq<Term>, LeafError>)
    requires Shaped(g) && ValidInputs(inputs)
    ensures r.Ok? ==> forall i | 0 <= i < |r.value| :: ValidTerm(r.value[i])
  {
    match leaf
    case NoLeaf => Ok([])
    case CspaceTarget => if |g.x| != |p.cspace.defaultQ| then Err(LeafDimension) else Ok([CspaceTerm(p.cspace, lib, g)])
    case JointLimit => Ok(RowTerms(g, LimitPolicy(p.limit, lib), |g.x|))
    case JointVelocityCap => Ok(RowTerms(g, CapPolicy(p.cap), |g.x|))
    case Target =>
      if node.targetKey !in inputs.targets then Ok([])
      else if |g.x| != 3 then Err(LeafDimension)
      else Ok([TargetTerm(p.target, lib, g, inputs.targets[node.targetKey])])
    case AxisTarget =>
      if node.targetKey !in inputs.targets then Ok([])
      else if |g.x| != 3 then Err(LeafDimension)
      else Ok([AxisTerm(p.axis, lib, g, inputs.targets[node.targetKey], distance, g.velocity, g.curvature)])
    case WristAxisTarget =>
      if node.targetKey !in inputs.targets then Ok([])
      else if |g.x| != 3 then Err(LeafDimension)
      else Ok([AxisTerm(p.wrist, lib, g, inputs.targets[node.targetKey], distance, Dots(g.jacobian, inputs.qd), Zero(3))])
    case Collision => Ok(RowTerms(g, CollisionPolicy(p.collision, lib), |g.x|))
    case Damping => Ok([DampingTerm(p.damping, lib, g)])
    case External =>
      if node.targetKey !in inputs.externals then Ok([])
      else
        var f := inputs.externals[node.targetKey];
        if |f.acceleration| != |g.x| || !IsSquare(f, |g.x|) then Err(LeafDimension)
        else Ok([VectorTerm(g, ExternalMetric(f, node.identityMultiplier), f.acceleration, g.curvature)])
    case UnknownLeaf => Err(UnsupportedLeaf)
  }

  // ----- every leaf metric is positive semidefinite

  /** Non-negative gains and positive scales. */
  ghost predicate Tuned(p: Params) {
    && p.cspace.metricScalar >= 0.0 && p.cspace.inertia >= 0.0
    && p.limit.metricScalar >= 0.0 && p.limit.lengthScale > 0.0 && p.limit.exploderEps > 0.0
    && p.cap.metricWeight >= 0.0 && 0.0 < p.cap.eps <= p.cap.dampingRegion
    && 0.0 <= p.target.minAlpha <= 1.0 && p.target.maxScalar >= 0.0 && p.target.minScalar >= 0.0 && p.target.boostScalar >= 0.0
    && p.axis.metricScalar >= 0.0 && p.axis.boostScalar >= 0.0
    && p.wrist.metricScalar >= 0.0 && p.wrist.boostScalar >= 0.0
    && p.collision.metricScalar >= 0.0 && p.collision.exploderStdDev > 0.0 && p.collision.exploderEps > 0.0
    && p.collision.modulationRadius > 0.0
    && p.damping.metricScalar >= 0.0 && p.damping.inertia >= 0.0
  }

  lemma TimesNonNegative(x: real, y: real)
    requires x >= 0.0 && y >= 0.0
    ensures Times(x, y) >= 0.0
  {
    ProductSign(x, y, Times(x, y));
  }

  lemma OverNonNegative(x: real, y: real)
    requires x >= 0.0 && y >= 0.0
    ensures Over(x, y) >= 0.0
  {
    if y > 0.0 { assert Over(x, y) * y == x; NonNegativeQuotient(x, y); }
  }

  lemma NonNegativeQuotient(x: real, y: real)
    requires x >= 0.0 && y > 0.0
    ensures x / y >= 0.0
  {
  }

  lemma JointLimitNonNegative(p: JointLimitParams, lib: Library, x0: real, xd: real)
    requires Standard(lib) && p.metricScalar >= 0.0 && p.lengthScale > 0.0 && p.exploderEps > 0.0
    ensures JointLimitScalars(p, lib, x0, xd).metric >= 0.0
  {
    hide Times, Over, Sigmoid, Sqr, Standard;
    var x := Max(x0, 0.0);
    OverNonNegative(x, p.lengthScale);
    OverNonNegative(p.metricScalar, Over(x, p.lengthScale) + p.exploderEps);
    SigmoidRange(lib, Over(xd, p.velocityGate));
    TimesNonNegative(1.0 - Sigmoid(lib, Over(xd, p.velocityGate)), Over(p.metricScalar, Over(x, p.lengthScale) + p.exploderEps));
  }

  lemma RatioBelowOne(x: real, y: real)
    requires 0.0 <= x < y
    ensures 0.0 <= x / y < 1.0 && Sqr(x / y) < 1.0
  {
    var q := x / y;
    assert q * y == x;
    if q >= 1.0 { ProductSign(q - 1.0, y, (q - 1.0) * y); }
    NonNegativeQuotient(x, y);
    ProductSign(q, 1.0 - q, q * (1.0 - q));
    assert Sqr(q) == q - q * (1.0 - q);
  }

  lemma VelocityCapNonNegative(p: VelocityCapParams, v: real)
    requires p.metricWeight >= 0.0 && 0.0 < p.eps <= p.dampingRegion && VelocityCapScalars(p, v).Some?
    ensures VelocityCapScalars(p, v).value.metric >= 0.0
  {
    hide Times, Sqr;
    var excess := Abs(v) - p.maxVelocity + p.dampingRegion;
    var clipped := Min(excess, p.dampingRegion - p.eps);
    RatioBelowOne(clipped, p.dampingRegion);
    OverNonNegative(p.metricWeight, 1.0 - Sqr(Over(clipped, p.dampingRegion)));
  }

  /** The modulation gate is `(x / r - 1)^2`. */
  lemma GateNonNegative(x: real, r: real)
    requires r > 0.0
    ensures Over(Sqr(x), Sqr(r)) - 2.0 * Over(x, r) + 1.0 >= 0.0
  {
    var q := x / r;
    ProductSign(r, r, Sqr(r));
    assert q * r == x;
    assert Sqr(x) == (q * q) * Sqr(r);
    Cancel(q * q, Sqr(r), Sqr(x));
    var s := LinearAlgebra.Square(q - 1.0);
    assert s == q * q - 2.0 * q + 1.0;
  }

  lemma Cancel(q: real, y: real, x: real)
    requires y > 0.0 && x == q * y
    ensures x / y == q
  {
  }

  lemma CollisionNonNegative(p: CollisionParams, lib: Library, x0: real, xd: real)
    requires Standard(lib) && p.metricScalar >= 0.0 && p.exploderStdDev > 0.0 && p.exploderEps > 0.0 && p.modulationRadius > 0.0
    ensures CollisionScalars(p, lib, x0, xd).metric >= 0.0
  {
    hide Times, Over, Sigmoid, Sqr, Standard;
    var x := Max(x0, 0.0);
    var before := Over(p.metricScalar, Over(x, p.exploderStdDev) + p.exploderEps);
    var gate := Over(Sqr(x), Sqr(p.modulationRadius)) - 2.0 * Over(x, p.modulationRadius) + 1.0;
    OverNonNegative(x, p.exploderStdDev);
    OverNonNegative(p.metricScalar, Over(x, p.exploderStdDev) + p.exploderEps);
    GateNonNegative(x, p.modulationRadius);
    TimesNonNegative(before, gate);
    SigmoidRange(lib, Over(xd, p.velocityGate));
    TimesNonNegative(Times(before, gate), 1.0 - Sigmoid(lib, Over(xd, p.velocityGate)));
  }

  lemma GaussianRange(lib: Library, x: real)
    requires Standard(lib)
    ensures 0.0 < Gaussian(lib, x) <= 1.0
  {
    var s := LinearAlgebra.Square(x);
    assert Sqr(x) == s;
    ExpFacts(lib, -0.5 * Sqr(x));
  }

  lemma BlendNonNegative(b: real, boost: real)
    requires 0.0 <= b <= 1.0 && boost >= 0.0
    ensures Blend(b, boost) >= 0.0
  {
    TimesNonNegative(b, boost);
  }

  lemma TargetMetricPsd(p: TargetParams, lib: Library, delta: Vec)
    requires Standard(lib) && 0.0 <= p.minAlpha <= 1.0 && p.maxScalar >= 0.0 && p.minScalar >= 0.0 && p.boostScalar >= 0.0
    ensures SymmetricPsd(TargetMetric(p, lib, delta))
  {
    hide Times, Over, Norm, Standard, SymmetricPsd, Gaussian, Blend, Outer, MatPlus, MatScale, Identity, Scale;
    var norm := Norm(lib, delta);
    var hat := Scale(Over(1.0, Max(norm, p.normEps / 10.0)), delta);
    var e, b := Gaussian(lib, Over(norm, p.alphaLengthScale)), Gaussian(lib, Over(norm, p.boostLengthScale));
    var alpha := Times(1.0 - p.minAlpha, e) + p.minAlpha;
    GaussianRange(lib, Over(norm, p.alphaLengthScale));
    GaussianRange(lib, Over(norm, p.boostLengthScale));
    AlphaRange(p.minAlpha, e);
    BlendNonNegative(b, p.boostScalar);
    TimesNonNegative(alpha, p.maxScalar);
    TimesNonNegative(1.0 - alpha, p.minScalar);
    ShapePsd(Times(alpha, p.maxScalar), Times(1.0 - alpha, p.minScalar), Blend(b, p.boostScalar), hat);
  }

  lemma ShapePsd(a: real, b: real, k: real, hat: Vec)
    requires a >= 0.0 && b >= 0.0 && k >= 0.0
    ensures SymmetricPsd(MatScale(k, MatPlus(MatScale(a, Identity(|hat|)), MatScale(b, Outer(hat, hat)))))
  {
    hide SymmetricPsd, Outer, MatPlus, MatScale, Identity;
    IdentityPsd(|hat|);
    OuterPsd(hat);
    MatScalePsd(a, Identity(|hat|));
    MatScalePsd(b, Outer(hat, hat));
    MatPlusPsd(MatScale(a, Identity(|hat|)), MatScale(b, Outer(hat, hat)));
    MatScalePsd(k, MatPlus(MatScale(a, Identity(|hat|)), MatScale(b, Outer(hat, hat))));
  }

  lemma AlphaRange(m: real, e: real)
    requires 0.0 <= m <= 1.0 && 0.0 <= e <= 1.0
    ensures 0.0 <= Times(1.0 - m, e) + m <= 1.0
  {
    TimesNonNegative(1.0 - m, e);
    ProductSign(1.0 - m, 1.0 - e, (1.0 - m) * (1.0 - e));
    assert Times(1.0 - m, e) == (1.0 - m) - (1.0 - m) * (1.0 - e);
  }

  lemma AxisScalarNonNegative(p: AxisParams, lib: Library, distance: Option<real>)
    requires Standard(lib) && p.metricScalar >= 0.0 && p.boostScalar >= 0.0
    ensures AxisScalar(p, lib, distance) >= 0.0
  {
    hide Times, Over, Standard, Gaussian, Blend;
    if distance.Some? {
      var x := Over(distance.value, Max(p.boostLengthScale, 0.000000001));
      GaussianRange(lib, x);
      BlendNonNegative(Gaussian(lib, x), p.boostScalar);
      TimesNonNegative(p.metricScalar, Blend(Gaussian(lib, x), p.boostScalar));
    }
  }

  lemma ScaledIdentityPsd(k: real, n: nat)
    requires k >= 0.0
    ensures SymmetricPsd(MatScale(k, Identity(n)))
  {
    IdentityPsd(n);
    MatScalePsd(k, Identity(n));
  }

  lemma ScalarPsd(s: real)
    requires s >= 0.0
    ensures SymmetricPsd([[s]])
  {
    hide SymmetricPsd;
    ScaledIdentityPsd(s, 1);
    OneEntry(s);
    hide Scale;
    assert Identity(1) == [Unit(1, 0)];
    assert MatScale(s, Identity(1)) == [Scale(s, Unit(1, 0))];
  }

  lemma OneEntry(s: real)
    ensures Scale(s, Unit(1, 0)) == [s]
  {
    assert Scale(s, Unit(1, 0))[0] == s * 1.0;
  }

  lemma GramRow(s: seq<Vec>, v: Vec, n: nat, i: nat)
    requires IsMatrix(s, n) && |v| == |s| && i < |s|
    ensures Dot(Gram(s, n)[i], v) == Dot(s[i], Combine(s, v, n))
  {
    assert Gram(s, n)[i] == Dots(s, s[i]) by {
      forall j | 0 <= j < |s|
        ensures Gram(s, n)[i][j] == Dots(s, s[i])[j]
      {
        DotSymmetric(s[i], s[j]);
      }
    }
    Adjoint(s, v, s[i]);
    DotSymmetric(v, Dots(s, s[i]));
    DotSymmetric(Combine(s, v, n), s[i]);
  }

  /** `u . S S^T v` is the inner product of `S^T u` and `S^T v`. */
  lemma GramForm(s: seq<Vec>, n: nat, u: Vec, v: Vec)
    requires IsMatrix(s, n) && |u| == |v| == |s|
    ensures Form(Gram(s, n), u, v) == Dot(Combine(s, u, n), Combine(s, v, n))
  {
    hide Gram, Combine, Dot;
    var w := Combine(s, v, n);
    forall i | 0 <= i < |s|
      ensures Dots(Gram(s, n), v)[i] == Dots(s, w)[i]
    {
      GramRow(s, v, n, i);
    }
    assert Dots(Gram(s, n), v) == Dots(s, w);
    Adjoint(s, u, w);
  }

  lemma GramPsd(s: seq<Vec>, n: nat)
    requires IsMatrix(s, n)
    ensures SymmetricPsd(Gram(s, n))
  {
    hide Gram, Combine, Dot, Form;
    var m := Gram(s, n);
    forall u: Vec, v: Vec | |u| == |v| == |m|
      ensures Form(m, u, v) == Form(m, v, u)
    {
      GramForm(s, n, u, v);
      GramForm(s, n, v, u);
      DotSymmetric(Combine(s, u, n), Combine(s, v, n));
    }
    forall v: Vec | |v| == |m|
      ensures Form(m, v, v) >= 0.0
    {
      GramForm(s, n, v, v);
      SquaredLength(Combine(s, v, n));
    }
  }

  ghost predicate PsdTerms(ts: seq<Term>) { forall i | 0 <= i < |ts| :: SymmetricPsd(ts[i].metric) }

  lemma {:induction false} RowTermsPsd(g: Geometry, policy: (real, real) -> Option<Scalars>, k: nat)
    requires Shaped(g) && k <= |g.x|
    requires forall x, v :: policy(x, v).Some? ==> policy(x, v).value.metric >= 0.0
    ensures PsdTerms(RowTerms(g, policy, k))
  {
    hide SymmetricPsd;
    if k > 0 {
      RowTermsPsd(g, policy, k - 1);
      var r := policy(g.x[k - 1], g.velocity[k - 1]);
      if r.Some? { ScalarPsd(r.value.metric); }
    }
  }

  lemma PoliciesNonNegative(p: Params, lib: Library)
    requires Standard(lib) && Tuned(p)
    ensures forall x, v :: var r := LimitPolicy(p.limit, lib)(x, v); r.Some? ==> r.value.metric >= 0.0
    ensures forall x, v :: var r := CapPolicy(p.cap)(x, v); r.Some? ==> r.value.metric >= 0.0
    ensures forall x, v :: var r := CollisionPolicy(p.collision, lib)(x, v); r.Some? ==> r.value.metric >= 0.0
  {
    hide Standard, JointLimitScalars, VelocityCapScalars, CollisionScalars;
    forall x, v
      ensures var r := LimitPolicy(p.limit, lib)(x, v); r.Some? ==> r.value.metric >= 0.0
      ensures var r := CapPolicy(p.cap)(x, v); r.Some? ==> r.value.metric >= 0.0
      ensures var r := CollisionPolicy(p.collision, lib)(x, v); r.Some? ==> r.value.metric >= 0.0
    {
      JointLimitNonNegative(p.limit, lib, x, v);
      if VelocityCapScalars(p.cap, v).Some? { VelocityCapNonNegative(p.cap, v); }
      CollisionNonNegative(p.collision, lib, x, v);
    }
  }

  lemma NormNonNegative(lib: Library, v: Vec)
    requires Standard(lib)
    ensures Norm(lib, v) >= 0.0
  {
    SquaredLength(v);
    var s := SqrtFacts(lib, Dot(v, v));
  }

  lemma ExternalPsd(f: Feature, multiplier: real, n: nat)
    requires IsSquare(f, n)
    ensures SymmetricPsd(ExternalMetric(f, multiplier))
  {
    hide SymmetricPsd, Gram;
    var s := if multiplier != 0.0 then MatPlus(f.metricSqrt, MatScale(multiplier, Identity(n))) else f.metricSqrt;
    GramPsd(s, n);
  }

  lemma CspaceTermPsd(p: CspaceParams, lib: Library, g: Geometry)
    requires Shaped(g) && |g.x| == |p.defaultQ| && p.metricScalar >= 0.0 && p.inertia >= 0.0
    ensures SymmetricPsd(CspaceTerm(p, lib, g).metric)
  {
    hide SymmetricPsd, MatScale, Identity;
    ScaledIdentityPsd(p.metricScalar + p.inertia, |g.x|);
  }

  lemma AxisTermPsd(p: AxisParams, lib: Library, g: Geometry, goal: Vec, distance: Option<real>, velocity: Vec, curvature: Vec)
    requires Shaped(g) && |g.x| == |goal| == |velocity| == |curvature|
    requires Standard(lib) && p.metricScalar >= 0.0 && p.boostScalar >= 0.0
    ensures SymmetricPsd(AxisTerm(p, lib, g, goal, distance, velocity, curvature).metric)
  {
    hide SymmetricPsd, MatScale, Identity, Standard, AxisScalar;
    AxisScalarNonNegative(p, lib, distance);
    ScaledIdentityPsd(AxisScalar(p, lib, distance), |g.x|);
  }

  lemma DampingTermPsd(p: DampingParams, lib: Library, g: Geometry)
    requires Shaped(g) && Standard(lib) && p.metricScalar >= 0.0 && p.inertia >= 0.0
    ensures SymmetricPsd(DampingTerm(p, lib, g).metric)
  {
    hide SymmetricPsd, MatScale, Identity, Standard, Norm, Times;
    NormNonNegative(lib, g.velocity);
    TimesNonNegative(p.metricScalar, Norm(lib, g.velocity));
    ScaledIdentityPsd(Times(p.metricScalar, Norm(lib, g.velocity)) + p.inertia, |g.x|);
  }

  lemma RowLeafPsd(leaf: LeafType, node: RmpNode, g: Geometry, p: Params, lib: Library, inputs: Inputs, distance: Option<real>)
    requires leaf == JointLimit || leaf == JointVelocityCap || leaf == Collision
    requires Standard(lib) && Tuned(p) && Shaped(g) && ValidInputs(inputs)
    requires LeafTerms(leaf, node, g, p, lib, inputs, distance).Ok?
    ensures PsdTerms(LeafTerms(leaf, node, g, p, lib, inputs, distance).value)
  {
    hide Standard, SymmetricPsd, Times, RowTerms, CapPolicy, LimitPolicy, CollisionPolicy, MatScale, Identity, Shaped, PsdTerms;
    PoliciesNonNegative(p, lib);
    match leaf {
      case JointLimit => RowTermsPsd(g, LimitPolicy(p.limit, lib), |g.x|);
      case JointVelocityCap => RowTermsPsd(g, CapPolicy(p.cap), |g.x|);
      case Collision => RowTermsPsd(g, CollisionPolicy(p.collision, lib), |g.x|);
    }
  }

  /** With non-negative gains and positive scales every metric a leaf adds is symmetric positive
      semidefinite, external features included whatever their square root is. */
  lemma LeafTermsPsd(leaf: LeafType, node: RmpNode, g: Geometry, p: Params, lib: Library, inputs: Inputs, distance: Option<real>)
    requires Standard(lib) && Tuned(p) && Shaped(g) && ValidInputs(inputs)
    requires LeafTerms(leaf, node, g, p, lib, inputs, distance).Ok?
    ensures PsdTerms(LeafTerms(leaf, node, g, p, lib, inputs, distance).value)
  {
    hide Standard, SymmetricPsd, TargetMetric, ExternalMetric, RowTerms, CapPolicy, LimitPolicy, CollisionPolicy, CspaceTerm, AxisTerm, DampingTerm;
    match leaf {
      case JointLimit => RowLeafPsd(leaf, node, g, p, lib, inputs, distance);
      case JointVelocityCap => RowLeafPsd(leaf, node, g, p, lib, inputs, distance);
      case Collision => RowLeafPsd(leaf, node, g, p, lib, inputs, distance);
      case CspaceTarget => CspaceTermPsd(p.cspace, lib, g);
      case Target =>
        if node.targetKey in inputs.targets { TargetMetricPsd(p.target, lib, Minus(inputs.targets[node.targetKey], g.x)); }
      case AxisTarget =>
        if node.targetKey in inputs.targets { AxisTermPsd(p.axis, lib, g, inputs.targets[node.targetKey], distance, g.velocity, g.curvature); }
      case WristAxisTarget =>
        if node.targetKey in inputs.targets {
          AxisTermPsd(p.wrist, lib, g, inputs.targets[node.targetKey], distance, Dots(g.jacobian, inputs.qd), Zero(3));
        }
      case Damping => DampingTermPsd(p.damping, lib, g);
      case External =>
        if node.targetKey in inputs.externals && |inputs.externals[node.targetKey].metricSqrt| == |g.x| {
          ExternalPsd(inputs.externals[node.targetKey], node.identityMultiplier, |g.x|);
        }
      case NoLeaf =>
      case UnknownLeaf =>
    }
  }
}
