/** The rows of `collision_distance`: the hand-written distance, gradient and curvature formulas against the
    derivatives of the clamped signed distance. */
module CollisionExact {
  import opened LinearAlgebra
  import opened Calculus
  import opened Elementary
  import opened TaskExpr
  import opened ChainRule
  import opened TaskMaps
  import opened TaskGraph

  const TINY: real := 0.000000001

  // ----- the clamped signed distance as an expression of the point

  function Shifted(k: nat, c: real): Expr { Add(Input(k), Const(-c)) }

  function SquareOf(k: nat, c: real): Expr { Mul(Shifted(k, c), Shifted(k, c)) }

  function DistanceSquared(c: Vec): Expr
    requires |c| == 3
  {
    Add(Add(SquareOf(0, c[0]), SquareOf(1, c[1])), SquareOf(2, c[2]))
  }

  function DistanceExpr(c: Vec): Expr
    requires |c| == 3
  {
    Apply(SqrtFn, DistanceSquared(c))
  }

  /** `max(e, lo)` as `lo + max(e - lo, 0)`. */
  function AtLeast(e: Expr, lo: real): Expr { Add(Const(lo), Apply(RampFn, Add(e, Const(-lo)))) }

  function CollisionExpr(o: Obstacle, pointRadius: real, margin: real): Expr
    requires |o.center| == 3
  {
    Apply(RampFn, Add(AtLeast(DistanceExpr(o.center), TINY), Const(-(pointRadius + o.radius) - margin)))
  }

  lemma EvalSquareOf(k: nat, c: real, lib: Library, u: Vec)
    ensures Eval(SquareOf(k, c), lib, u) == Times(Get(u, k) - c, Get(u, k) - c)
  {
    assert Eval(Shifted(k, c), lib, u) == Get(u, k) - c;
  }

  lemma DotThree(a: Vec, b: Vec)
    requires |a| == |b| == 3
    ensures Dot(a, b) == Times(a[0], b[0]) + Times(a[1], b[1]) + Times(a[2], b[2])
  {
    hide Dot, Times;
    DotHead(a, b);
    DotHead(a[1..], b[1..]);
    DotHead(a[2..], b[2..]);
    DotZero([]);
    assert a[1..][1..] == a[2..] && b[1..][1..] == b[2..] && a[2..][1..] == [] && b[2..][1..] == [] && Zero(0) == [];
  }

  lemma EvalDistance(c: Vec, lib: Library, u: Vec)
    requires |u| == |c| == 3
    ensures Eval(DistanceSquared(c), lib, u) == Dot(Minus(u, c), Minus(u, c))
    ensures Eval(DistanceExpr(c), lib, u) == Norm(lib, Minus(u, c))
  {
    hide Dot, Times, SquareOf;
    EvalSquareOf(0, c[0], lib, u);
    EvalSquareOf(1, c[1], lib, u);
    EvalSquareOf(2, c[2], lib, u);
    DotThree(Minus(u, c), Minus(u, c));
    assert Eval(Add(SquareOf(0, c[0]), SquareOf(1, c[1])), lib, u)
        == Eval(SquareOf(0, c[0]), lib, u) + Eval(SquareOf(1, c[1]), lib, u);
  }

  lemma EvalAtLeast(e: Expr, lo: real, lib: Library, u: Vec)
    ensures Eval(AtLeast(e, lo), lib, u) == Max(Eval(e, lib, u), lo)
  {
    var y := Eval(e, lib, u) - lo;
    assert Eval(Add(e, Const(-lo)), lib, u) == y;
    assert FnOf(RampFn, lib)(y) == Ramp(y);
  }

  /** The expression is the program's position formula at every point, penetrating or not. */
  lemma EvalCollision(o: Obstacle, pointRadius: real, margin: real, lib: Library, u: Vec)
    requires |o.center| == |u| == 3
    ensures Eval(CollisionExpr(o, pointRadius, margin), lib, u) == Max(SignedDistance(lib, u, o, pointRadius, margin), 0.0)
  {
    hide DistanceExpr, AtLeast;
    EvalDistance(o.center, lib, u);
    EvalAtLeast(DistanceExpr(o.center), TINY, lib, u);
    var s := SignedDistance(lib, u, o, pointRadius, margin);
    assert Eval(Add(AtLeast(DistanceExpr(o.center), TINY), Const(-(pointRadius + o.radius) - margin)), lib, u) == s;
    assert FnOf(RampFn, lib)(s) == Ramp(s);
  }

  // ----- gradient and curvature

  lemma ShiftedDerivatives(k: nat, c: real, lib: Library, u: Vec, v: Vec)
    requires |u| == |v| && k < |u|
    ensures Gradient(Shifted(k, c), lib, u) == Unit(|u|, k)
    ensures Curvature(Shifted(k, c), lib, u, v) == 0.0
    ensures Eval(Shifted(k, c), lib, u) == u[k] - c
  {
    assert Plus(Unit(|u|, k), Zero(|u|)) == Unit(|u|, k);
  }

  lemma SquareDerivatives(k: nat, c: real, lib: Library, u: Vec, v: Vec, d: real, w: real)
    requires |u| == |v| && k < |u| && d == u[k] - c && w == v[k]
    ensures Gradient(SquareOf(k, c), lib, u) == Scale(2.0 * d, Unit(|u|, k))
    ensures Curvature(SquareOf(k, c), lib, u, v) == 2.0 * Times(w, w)
  {
    hide Dot;
    ShiftedDerivatives(k, c, lib, u, v);
    DotSymmetric(Unit(|u|, k), v);
    DotUnit(v, k);
    ProductBendOf(d, w, 0.0, d, w, 0.0);
    TimesOf(w, w);
    hide ProductBend, Times;
    assert Curvature(SquareOf(k, c), lib, u, v) == ProductBend(d, w, 0.0, d, w, 0.0);
    Doubled(d, Unit(|u|, k));
  }

  lemma Doubled(d: real, a: Vec)
    ensures Plus(Scale(d, a), Scale(d, a)) == Scale(2.0 * d, a)
  {
    forall i | 0 <= i < |a|
      ensures Plus(Scale(d, a), Scale(d, a))[i] == Scale(2.0 * d, a)[i]
    {
      assert Scale(2.0 * d, a)[i] == (2.0 * d) * a[i] == d * a[i] + d * a[i];
    }
  }

  lemma SumOfUnits(d: Vec, z: Vec)
    requires |d| == 3
    requires z == Plus(Plus(Scale(2.0 * d[0], Unit(3, 0)), Scale(2.0 * d[1], Unit(3, 1))), Scale(2.0 * d[2], Unit(3, 2)))
    ensures z == Scale(2.0, d)
  {
    assert z[0] == 2.0 * d[0] * 1.0 + 2.0 * d[1] * 0.0 + 2.0 * d[2] * 0.0;
    assert z[1] == 2.0 * d[0] * 0.0 + 2.0 * d[1] * 1.0 + 2.0 * d[2] * 0.0;
    assert z[2] == 2.0 * d[0] * 0.0 + 2.0 * d[1] * 0.0 + 2.0 * d[2] * 1.0;
  }

  lemma DistanceSquaredDerivatives(c: Vec, lib: Library, u: Vec, v: Vec)
    requires |u| == |v| == |c| == 3
    ensures Gradient(DistanceSquared(c), lib, u) == Scale(2.0, Minus(u, c))
    ensures Curvature(DistanceSquared(c), lib, u, v) == 2.0 * Dot(v, v)
  {
    hide SquareOf, Dot, Times, Gradient, Curvature, Scale, Unit, Plus;
    var d := Minus(u, c);
    SquareDerivatives(0, c[0], lib, u, v, d[0], v[0]);
    SquareDerivatives(1, c[1], lib, u, v, d[1], v[1]);
    SquareDerivatives(2, c[2], lib, u, v, d[2], v[2]);
    SumOfUnits(d, Plus(Plus(Scale(2.0 * d[0], Unit(3, 0)), Scale(2.0 * d[1], Unit(3, 1))), Scale(2.0 * d[2], Unit(3, 2))));
    DotThree(v, v);
    AddDerivatives(SquareOf(0, c[0]), SquareOf(1, c[1]), lib, u, v);
    AddDerivatives(Add(SquareOf(0, c[0]), SquareOf(1, c[1])), SquareOf(2, c[2]), lib, u, v);
  }

  lemma AddDerivatives(a: Expr, b: Expr, lib: Library, u: Vec, v: Vec)
    requires |u| == |v|
    ensures Gradient(Add(a, b), lib, u) == Plus(Gradient(a, lib, u), Gradient(b, lib, u))
    ensures Curvature(Add(a, b), lib, u, v) == Curvature(a, lib, u, v) + Curvature(b, lib, u, v)
  {
  }

  lemma ApplyDerivatives(fn: Fn, e: Expr, lib: Library, u: Vec, v: Vec, y: real, g: Vec)
    requires |u| == |v| == |g| && y == Eval(e, lib, u) && g == Gradient(e, lib, u)
    ensures Gradient(Apply(fn, e), lib, u) == Scale(Slope(fn, lib, y), g)
    ensures Curvature(Apply(fn, e), lib, u, v)
         == ChainBend(Slope(fn, lib, y), Bend(fn, lib, y), Dot(g, v), Curvature(e, lib, u, v))
  {
  }

  /** The unit vector from the obstacle to the point. */
  function Direction(d: real, delta: Vec): (r: Vec)
    requires d > 0.0
    ensures |r| == |delta|
  {
    Scale(1.0 / d, delta)
  }

  lemma DistanceDerivatives(c: Vec, lib: Library, u: Vec, v: Vec, d: real)
    requires Standard(lib) && |u| == |v| == |c| == 3 && d == Norm(lib, Minus(u, c)) && d > 0.0
    ensures Gradient(DistanceExpr(c), lib, u) == Direction(d, Minus(u, c))
    ensures Curvature(DistanceExpr(c), lib, u, v) == Form(Projector(Direction(d, Minus(u, c)), d), v, v)
  {
    hide Gradient, Curvature, Eval, Scale, Standard, Dot, Minus, Projector, Form, ChainBend, RootDerivatives, Slope, Bend, DistanceSquared,
      Direction, ProjectedSpeed;
    var delta := Minus(u, c);
    var p, y, g := 1.0 / d, Dot(delta, delta), Scale(2.0, delta);
    var y1, y2 := Dot(g, v), 2.0 * Dot(v, v);
    EvalDistance(c, lib, u);
    DistanceSquaredDerivatives(c, lib, u, v);
    RootSlopes(lib, y, d, p);
    ApplyDerivatives(SqrtFn, DistanceSquared(c), lib, u, v, y, g);
    ScaleDot(2.0, delta, v);
    ProjectorForm(delta, v, d, p, Dot(delta, v));
    RootCurvature(p, Dot(v, v), Dot(delta, v), y1, y2, Slope(SqrtFn, lib, y), Bend(SqrtFn, lib, y));
    HalfOfDouble(p, delta);
    DirectionIs(d, delta);
  }

  lemma DirectionIs(d: real, delta: Vec)
    requires d > 0.0
    ensures Direction(d, delta) == Scale(1.0 / d, delta)
  {
  }

  ghost predicate RootDerivatives(p: real, slope: real, bend: real) { slope == p / 2.0 && bend == -(p * p * p) / 4.0 }

  lemma RootSlopes(lib: Library, y: real, d: real, p: real)
    requires d == lib.sqrt(y) && d > 0.0 && p == 1.0 / d
    ensures RootDerivatives(p, Slope(SqrtFn, lib, y), Bend(SqrtFn, lib, y))
    ensures Slope(SqrtFn, lib, y) == p / 2.0
  {
  }

  /** `(|v|^2 - (n . v)^2) / d` with `p == 1 / d`. */
  function ProjectedSpeed(p: real, vv: real, dv: real): real { p * (vv - (p * dv) * (p * dv)) }

  lemma HalfOfDouble(p: real, a: Vec)
    ensures Scale(p / 2.0, Scale(2.0, a)) == Scale(p, a)
  {
    forall i | 0 <= i < |a|
      ensures Scale(p / 2.0, Scale(2.0, a))[i] == Scale(p, a)[i]
    {
      assert Scale(p / 2.0, Scale(2.0, a))[i] == p / 2.0 * (2.0 * a[i]);
    }
  }

  lemma RootCurvature(p: real, vv: real, dv: real, y1: real, y2: real, slope: real, bend: real)
    requires y1 == 2.0 * dv && y2 == 2.0 * vv && RootDerivatives(p, slope, bend)
    ensures ChainBend(slope, bend, y1, y2) == ProjectedSpeed(p, vv, dv)
  {
    assert y1 * y1 == 4.0 * (dv * dv);
    assert (p * dv) * (p * dv) == p * p * (dv * dv);
    assert slope * y2 == p * vv;
    assert bend * (y1 * y1) == -(p * (p * p * (dv * dv)));
  }

  /** `v . P v` for the projector off the direction of `delta`. */
  lemma ProjectorForm(delta: Vec, v: Vec, d: real, p: real, dv: real)
    requires |delta| == |v| && d > 0.0 && p == 1.0 / d && dv == Dot(delta, v)
    ensures Form(Projector(Direction(d, delta), d), v, v) == ProjectedSpeed(p, Dot(v, v), dv)
  {
    hide Form, Dot;
    var n := Direction(d, delta);
    var m := MatPlus(Identity(|n|), MatScale(-1.0, Outer(n, n)));
    MatScaleForm(p, m, v, v);
    MatPlusForm(Identity(|n|), MatScale(-1.0, Outer(n, n)), v, v);
    MatScaleForm(-1.0, Outer(n, n), v, v);
    IdentityForm(v, v);
    OuterForm(n, n, v, v);
    ScaleDot(p, delta, v);
    NamedProduct(Dot(n, v), Dot(n, v), Dot(n, v) * Dot(n, v), p * dv, p * dv);
    NamedProduct(p, Form(m, v, v), p * Form(m, v, v), p, Dot(v, v) - (p * dv) * (p * dv));
  }

  /** Where the ramp is active, adding constants and ramps changes neither gradient nor curvature. */
  lemma ActiveRamp(e: Expr, b: real, lib: Library, u: Vec, v: Vec)
    requires |u| == |v| && Eval(e, lib, u) + b > 0.0
    ensures Gradient(Apply(RampFn, Add(e, Const(b))), lib, u) == Gradient(e, lib, u)
    ensures Curvature(Apply(RampFn, Add(e, Const(b))), lib, u, v) == Curvature(e, lib, u, v)
  {
    hide Dot;
    var inner := Add(e, Const(b));
    var y := Eval(e, lib, u) + b;
    assert Eval(inner, lib, u) == y;
    assert Slope(RampFn, lib, y) == 1.0 && Bend(RampFn, lib, y) == 0.0;
    PlusZero(Gradient(e, lib, u));
    assert Gradient(inner, lib, u) == Gradient(e, lib, u);
    ScaleOne(Gradient(e, lib, u));
    assert Curvature(inner, lib, u, v) == Curvature(e, lib, u, v) + 0.0;
    ChainBendOf(1.0, 0.0, Dot(Gradient(inner, lib, u), v), Curvature(e, lib, u, v));
  }

  lemma PlusZero(a: Vec)
    ensures Plus(a, Zero(|a|)) == a && Plus(Zero(|a|), a) == a
  {
  }

  lemma ScaleOne(a: Vec)
    ensures Scale(1.0, a) == a
  {
  }

  lemma AtLeastDerivatives(e: Expr, lo: real, lib: Library, u: Vec, v: Vec)
    requires |u| == |v| && Eval(e, lib, u) > lo
    ensures Gradient(AtLeast(e, lo), lib, u) == Gradient(e, lib, u)
    ensures Curvature(AtLeast(e, lo), lib, u, v) == Curvature(e, lib, u, v)
  {
    ActiveRamp(e, -lo, lib, u, v);
    PlusZero(Gradient(e, lib, u));
  }

  /** The point is clear of the obstacle, and not at its centre. */
  predicate Separated(lib: Library, u: Vec, o: Obstacle, pointRadius: real, margin: real)
    requires |u| == |o.center|
  {
    Norm(lib, Minus(u, o.center)) > TINY && SignedDistance(lib, u, o, pointRadius, margin) > 0.0
  }

  lemma CollisionDerivatives(o: Obstacle, pointRadius: real, margin: real, lib: Library, u: Vec, v: Vec, d: real)
    requires Standard(lib) && |u| == |v| == |o.center| == 3 && Separated(lib, u, o, pointRadius, margin)
    requires d == CenterDistance(lib, u, o)
    ensures d > 0.0
    ensures Gradient(CollisionExpr(o, pointRadius, margin), lib, u) == Direction(d, Minus(u, o.center))
    ensures Curvature(CollisionExpr(o, pointRadius, margin), lib, u, v)
         == Form(Projector(Direction(d, Minus(u, o.center)), d), v, v)
  {
    hide DistanceExpr, AtLeast, Standard, Projector, Form, Direction, Norm;
    var e := DistanceExpr(o.center);
    EvalDistance(o.center, lib, u);
    DistanceDerivatives(o.center, lib, u, v, d);
    EvalAtLeast(e, TINY, lib, u);
    AtLeastDerivatives(e, TINY, lib, u, v);
    ActiveRamp(AtLeast(e, TINY), -(pointRadius + o.radius) - margin, lib, u, v);
  }

  lemma RampRegular(e: Expr, b: real, lib: Library, u: Vec)
    requires Regular(e, lib, u) && Eval(e, lib, u) + b != 0.0
    ensures Regular(Apply(RampFn, Add(e, Const(b))), lib, u)
  {
    EvalAdd(e, b, lib, u);
    hide Eval;
    assert Regular(Add(e, Const(b)), lib, u);
  }

  lemma EvalAdd(e: Expr, b: real, lib: Library, u: Vec)
    ensures Eval(Add(e, Const(b)), lib, u) == Eval(e, lib, u) + b
  {
  }

  lemma SquareRegular(k: nat, c: real, lib: Library, u: Vec)
    ensures Regular(SquareOf(k, c), lib, u)
  {
    var shifted := Shifted(k, c);
    assert Regular(Input(k), lib, u) && Regular(Const(-c), lib, u);
    assert Regular(shifted, lib, u);
    assert Regular(Mul(shifted, shifted), lib, u);
  }

  lemma DistanceRegular(c: Vec, lib: Library, u: Vec)
    requires |c| == 3
    ensures Regular(DistanceSquared(c), lib, u)
  {
    hide Eval;
    SquareRegular(0, c[0], lib, u);
    SquareRegular(1, c[1], lib, u);
    SquareRegular(2, c[2], lib, u);
    hide SquareOf;
    assert Regular(Add(SquareOf(0, c[0]), SquareOf(1, c[1])), lib, u);
  }

  lemma NormPositive(lib: Library, a: Vec)
    requires Standard(lib) && Norm(lib, a) > 0.0
    ensures Dot(a, a) > 0.0
  {
    SquaredLength(a);
    var root := SqrtFacts(lib, Dot(a, a));
    hide Standard, Dot;
    NonZeroRoot(root, Dot(a, a));
  }

  lemma NonZeroRoot(root: real, y: real)
    requires root > 0.0 && root * root == y
    ensures y > 0.0
  {
    ProductSign(root, root, y);
  }

  /** A separated row of the node is the chain-rule row of the signed distance. */
  lemma SeparatedRow(lib: Library, p: Geometry, o: Obstacle, pointRadius: real, margin: real)
    requires Standard(lib) && IsPoint(p) && |o.center| == 3 && Separated(lib, p.x, o, pointRadius, margin)
    ensures CollisionRow(lib, p, o, pointRadius, margin) == MapGeometry([CollisionExpr(o, pointRadius, margin)], lib, p)
  {
    var e, d := CollisionExpr(o, pointRadius, margin), CenterDistance(lib, p.x, o);
    hide Standard, CollisionExpr, Form, Projector, Dot, Combine, SignedDistance, CenterDistance, MapGeometry, Norm, Minus, Scale;
    CollisionDerivatives(o, pointRadius, margin, lib, p.x, p.velocity, d);
    EvalCollision(o, pointRadius, margin, lib, p.x);
    OneRow(e, lib, p);
  }

  lemma OneRow(e: Expr, lib: Library, p: Geometry)
    requires Shaped(p)
    ensures MapGeometry([e], lib, p)
         == Geometry([Eval(e, lib, p.x)], [RowJacobian(e, lib, p)], [RowVelocity(e, lib, p)], [RowCurvature(e, lib, p)])
  {
    hide Eval, RowJacobian, RowVelocity, RowCurvature, Shaped;
  }

  // ----- penetrating rows

  /** The Jacobian row the node writes, separated or not. */
  function RowGradient(lib: Library, p: Geometry, o: Obstacle): (r: Vec)
    requires IsPoint(p) && |o.center| == 3
    ensures |r| == JOINTS
  {
    Combine(p.jacobian, Direction(CenterDistance(lib, p.x, o), Minus(p.x, o.center)), JOINTS)
  }

  lemma RowInside(lib: Library, p: Geometry, o: Obstacle, pointRadius: real, margin: real)
    requires IsPoint(p) && |o.center| == 3 && SignedDistance(lib, p.x, o, pointRadius, margin) <= 0.0
    ensures CollisionRow(lib, p, o, pointRadius, margin) == Geometry([0.0], [RowGradient(lib, p, o)], [0.0], [0.0])
  {
    hide Dot, Combine, Form, Projector, CenterDistance, Minus;
  }

  lemma RowGradientSpeed(lib: Library, p: Geometry, o: Obstacle, qd: Vec)
    requires IsPoint(p) && |o.center| == 3 && |qd| == JOINTS && p.velocity == Dots(p.jacobian, qd)
    ensures Dot(RowGradient(lib, p, o), qd) == Dot(Minus(p.x, o.center), p.velocity) / CenterDistance(lib, p.x, o)
  {
    hide Dot, Combine, CenterDistance, Minus, Dots, Scale;
    var d, delta := CenterDistance(lib, p.x, o), Minus(p.x, o.center);
    DirectionIs(d, delta);
    Adjoint(p.jacobian, Scale(1.0 / d, delta), qd);
    ScaleDot(1.0 / d, delta, p.velocity);
  }

  /** A penetrating row satisfies `velocity = J qd` exactly when the point moves neither towards nor away
      from the obstacle's centre. */
  lemma PenetratingVelocity(lib: Library, p: Geometry, o: Obstacle, pointRadius: real, margin: real, qd: Vec)
    requires IsPoint(p) && |o.center| == 3 && |qd| == JOINTS && p.velocity == Dots(p.jacobian, qd)
    requires SignedDistance(lib, p.x, o, pointRadius, margin) <= 0.0
    ensures var row := CollisionRow(lib, p, o, pointRadius, margin);
            row.velocity == Dots(row.jacobian, qd) <==> Dot(Minus(p.x, o.center), p.velocity) == 0.0
  {
    hide Dot, CenterDistance, RowGradient, Minus, CollisionRow, SignedDistance;
    var row := CollisionRow(lib, p, o, pointRadius, margin);
    RowInside(lib, p, o, pointRadius, margin);
    RowGradientSpeed(lib, p, o, qd);
    ZeroQuotient(Dot(Minus(p.x, o.center), p.velocity), CenterDistance(lib, p.x, o));
    assert Dots(row.jacobian, qd) == [Dot(RowGradient(lib, p, o), qd)];
  }

  /** Five centimetres from the centre of an obstacle of ten, moving away from it along the first joint. */
  function Leaving(): (r: Geometry)
    ensures IsPoint(r)
  {
    Geometry([0.05, 0.0, 0.0], [Unit(JOINTS, 0), Zero(JOINTS), Zero(JOINTS)], [1.0, 0.0, 0.0], Zero(3))
  }

  /** There the row's velocity is not its Jacobian times the joint velocity. */
  lemma PenetratingFails(lib: Library)
    requires Standard(lib)
    ensures var qd := Unit(JOINTS, 0);
      var row := CollisionRow(lib, Leaving(), Obstacle([0.0, 0.0, 0.0], 0.1), 0.1, 0.0);
      && Leaving().velocity == Dots(Leaving().jacobian, qd)
      && row.velocity != Dots(row.jacobian, qd)
  {
    hide Standard, CollisionRow;
    var p, o, qd := Leaving(), Obstacle([0.0, 0.0, 0.0], 0.1), Unit(JOINTS, 0);
    var delta := Minus(p.x, o.center);
    assert delta == [0.05, 0.0, 0.0];
    DotThree(delta, delta);
    DotThree(delta, p.velocity);
    var d := SqrtFacts(lib, Dot(delta, delta));
    if d > 0.1 { ProductSign(d - 0.1, d + 0.1, (d - 0.1) * (d + 0.1)); }
    DotUnit(qd, 0);
    DotZero(qd);
    DotSymmetric(Zero(JOINTS), qd);
    assert Dots(p.jacobian, qd) == [1.0, 0.0, 0.0];
    PenetratingVelocity(lib, p, o, 0.1, 0.0, qd);
  }

  lemma ZeroQuotient(v: real, d: real)
    requires d > 0.0
    ensures v / d == 0.0 <==> v == 0.0
  {
  }

  /** Inside the obstacle the clamped distance is constant. */
  lemma PenetratingDerivatives(lib: Library, p: Geometry, o: Obstacle, pointRadius: real, margin: real)
    requires Standard(lib) && IsPoint(p) && |o.center| == 3
    requires Norm(lib, Minus(p.x, o.center)) > TINY && SignedDistance(lib, p.x, o, pointRadius, margin) < 0.0
    ensures Regular(CollisionExpr(o, pointRadius, margin), lib, p.x)
    ensures MapGeometry([CollisionExpr(o, pointRadius, margin)], lib, p)
         == Geometry([0.0], [Zero(JOINTS)], [0.0], [0.0])
  {
    var e, b := CollisionExpr(o, pointRadius, margin), -(pointRadius + o.radius) - margin;
    var inner := AtLeast(DistanceExpr(o.center), TINY);
    CollisionRegularInside(o, pointRadius, margin, lib, p.x);
    EvalCollision(o, pointRadius, margin, lib, p.x);
    EvalDistance(o.center, lib, p.x);
    EvalAtLeast(DistanceExpr(o.center), TINY, lib, p.x);
    EvalAdd(inner, b, lib, p.x);
    FlatRamp(inner, b, lib, p.x, p.velocity);
    hide CollisionExpr, Dot, Combine, Gradient, Curvature, Eval, SignedDistance, Regular, Standard;
    DotZeros(p.x, p.velocity, p.curvature);
    CombineZero(p.jacobian, JOINTS);
    assert |MapGeometry([e], lib, p).x| == 1;
  }

  lemma CollisionRegularInside(o: Obstacle, pointRadius: real, margin: real, lib: Library, u: Vec)
    requires Standard(lib) && |u| == |o.center| == 3
    requires Norm(lib, Minus(u, o.center)) > TINY && SignedDistance(lib, u, o, pointRadius, margin) != 0.0
    ensures Regular(CollisionExpr(o, pointRadius, margin), lib, u)
  {
    hide Eval, Standard, Dot, Minus, SquareOf, DistanceSquared, Ramp, Norm;
    var delta, b, c := Minus(u, o.center), -(pointRadius + o.radius) - margin, o.center;
    var e := AtLeast(DistanceExpr(c), TINY);
    EvalDistance(c, lib, u);
    EvalAtLeast(DistanceExpr(c), TINY, lib, u);
    NormPositive(lib, delta);
    DistanceRegular(c, lib, u);
    assert Regular(DistanceExpr(c), lib, u);
    RampRegular(DistanceExpr(c), -TINY, lib, u);
    assert Regular(e, lib, u);
    RampRegular(e, b, lib, u);
  }

  lemma FlatRamp(e: Expr, b: real, lib: Library, u: Vec, v: Vec)
    requires |u| == |v| && Eval(e, lib, u) + b < 0.0
    ensures Gradient(Apply(RampFn, Add(e, Const(b))), lib, u) == Zero(|u|)
    ensures Curvature(Apply(RampFn, Add(e, Const(b))), lib, u, v) == 0.0
  {
    var inner := Add(e, Const(b));
    EvalAdd(e, b, lib, u);
    ApplyDerivatives(RampFn, inner, lib, u, v, Eval(inner, lib, u), Gradient(inner, lib, u));
    ChainBendOf(0.0, 0.0, Dot(Gradient(inner, lib, u), v), Curvature(inner, lib, u, v));
  }

  /** Away from the two kinks, the row is exact when the point is clear of the obstacle, and inside only if
      the Jacobian row it keeps is zero. */
  lemma CollisionRowExact(f: Vec -> Vec, lib: Library, p: Geometry, o: Obstacle, pointRadius: real, margin: real,
                          q: Vec, qd: Vec)
    requires Standard(lib) && IsPoint(p) && |o.center| == 3 && Exact(f, p, q, qd)
    requires Norm(lib, Minus(p.x, o.center)) > TINY && SignedDistance(lib, p.x, o, pointRadius, margin) != 0.0
    ensures Exact(MapFn([CollisionExpr(o, pointRadius, margin)], lib, f), CollisionRow(lib, p, o, pointRadius, margin), q, qd)
         <==> Separated(lib, p.x, o, pointRadius, margin) || RowGradient(lib, p, o) == Zero(JOINTS)
  {
    hide Exact, CollisionExpr, MapFn, MapGeometry, Standard, Regular, Minus, SignedDistance, CollisionRow, RowGradient,
      Separated, Norm, Direction;
    var e, row := CollisionExpr(o, pointRadius, margin), CollisionRow(lib, p, o, pointRadius, margin);
    CollisionRegularInside(o, pointRadius, margin, lib, p.x);
    SeparatedIs(lib, p.x, o, pointRadius, margin);
    MapExact([e], lib, f, p, q, qd);
    if SignedDistance(lib, p.x, o, pointRadius, margin) > 0.0 {
      SeparatedRow(lib, p, o, pointRadius, margin);
    } else {
      PenetratingDerivatives(lib, p, o, pointRadius, margin);
      RowInside(lib, p, o, pointRadius, margin);
      if Exact(MapFn([e], lib, f), row, q, qd) {
        ExactUnique(MapFn([e], lib, f), row, MapGeometry([e], lib, p), q, qd);
      }
    }
  }

  lemma SeparatedIs(lib: Library, u: Vec, o: Obstacle, pointRadius: real, margin: real)
    requires |u| == |o.center| && Norm(lib, Minus(u, o.center)) > TINY
    ensures Separated(lib, u, o, pointRadius, margin) <==> SignedDistance(lib, u, o, pointRadius, margin) > 0.0
  {
  }

  // ----- the whole node

  function CollisionValues(w: World, x: Vec, k: nat, o: nat): Vec
    requires ValidWorld(w) && o <= |w.obstacles| && (k < SENSOR_POINTS || (k == SENSOR_POINTS && o == 0))
    decreases k, o
  {
    if o > 0 then
      CollisionValues(w, x, k, o - 1)
      + MapValue([CollisionExpr(w.obstacles[o - 1], w.robot.pointRadii[k], w.robot.margin)], w.lib,
                 if 3 * k + 3 <= |x| then x[3 * k..3 * k + 3] else [])
    else if k > 0 then CollisionValues(w, x, k - 1, |w.obstacles|)
    else []
  }

  /** The clamped signed distances of the first points and obstacles as a function of the joints. */
  function CollisionFn(w: World, f: Vec -> Vec, k: nat, o: nat): Vec -> Vec
    requires ValidWorld(w) && o <= |w.obstacles| && (k < SENSOR_POINTS || (k == SENSOR_POINTS && o == 0))
  {
    q => CollisionValues(w, f(q), k, o)
  }

  /** No control point touches an obstacle. */
  ghost predicate AllSeparated(w: World, x: Vec)
    requires ValidWorld(w) && 3 * SENSOR_POINTS <= |x|
  {
    forall k, o | 0 <= k < SENSOR_POINTS && 0 <= o < |w.obstacles| ::
      Separated(w.lib, x[3 * k..3 * k + 3], w.obstacles[o], w.robot.pointRadii[k], w.robot.margin)
  }

  lemma {:induction false} CollisionRowsExact(w: World, f: Vec -> Vec, p: Geometry, k: nat, o: nat, q: Vec, qd: Vec)
    requires ValidWorld(w) && Standard(w.lib) && o <= |w.obstacles| && (k < SENSOR_POINTS || (k == SENSOR_POINTS && o == 0))
    requires Exact(f, p, q, qd) && 3 * SENSOR_POINTS <= |p.x| && AllSeparated(w, p.x)
    ensures Shaped(p) && Exact(CollisionFn(w, f, k, o), CollisionRows(w, p, k, o), q, qd)
    decreases k, o
  {
    hide Exact, Standard, CollisionRow, CollisionExpr, Separated, Shaped, MapFn, PartFn, CollisionFn, Norm,
      SignedDistance;
    ExactParts(f, p, q, qd);
    if o > 0 {
      CollisionRowsExact(w, f, p, k, o - 1, q, qd);
      OneMoreRow(w, f, p, k, o, q, qd);
    } else if k > 0 {
      CollisionRowsExact(w, f, p, k - 1, |w.obstacles|, q, qd);
      NextPoint(w, f, k);
      SameFn(CollisionFn(w, f, k - 1, |w.obstacles|), CollisionFn(w, f, k, 0), CollisionRows(w, p, k, 0), q, qd);
    } else {
      StackExact([], [], q, qd);
      NoPoint(w, f);
      SameFn(StackFn([]), CollisionFn(w, f, 0, 0), Empty, q, qd);
    }
  }

  lemma NextPoint(w: World, f: Vec -> Vec, k: nat)
    requires ValidWorld(w) && 0 < k <= SENSOR_POINTS
    ensures forall u :: CollisionFn(w, f, k, 0)(u) == CollisionFn(w, f, k - 1, |w.obstacles|)(u)
  {
    hide ValidWorld, CollisionValues;
    forall u
      ensures CollisionFn(w, f, k, 0)(u) == CollisionFn(w, f, k - 1, |w.obstacles|)(u)
    {
      NextPointValues(w, f(u), k);
    }
  }

  lemma NextPointValues(w: World, x: Vec, k: nat)
    requires ValidWorld(w) && 0 < k <= SENSOR_POINTS
    ensures CollisionValues(w, x, k, 0) == CollisionValues(w, x, k - 1, |w.obstacles|)
  {
    hide ValidWorld, CollisionExpr, MapValue;
  }

  lemma NoPoint(w: World, f: Vec -> Vec)
    requires ValidWorld(w)
    ensures forall u :: CollisionFn(w, f, 0, 0)(u) == StackFn([])(u)
  {
    hide ValidWorld, CollisionFn;
    forall u
      ensures CollisionFn(w, f, 0, 0)(u) == StackFn([])(u)
    {
      CollisionFnAt(w, f, 0, 0, u);
      assert StackFn([])(u) == StackAt([], u) == [];
    }
  }

  lemma OneMoreRow(w: World, f: Vec -> Vec, p: Geometry, k: nat, o: nat, q: Vec, qd: Vec)
    requires ValidWorld(w) && Standard(w.lib) && 0 < o <= |w.obstacles| && k < SENSOR_POINTS
    requires Exact(f, p, q, qd) && Shaped(p) && 3 * SENSOR_POINTS <= |p.x| && AllSeparated(w, p.x)
    requires Exact(CollisionFn(w, f, k, o - 1), CollisionRows(w, p, k, o - 1), q, qd)
    ensures Exact(CollisionFn(w, f, k, o), CollisionRows(w, p, k, o), q, qd)
  {
    hide Exact, Standard, CollisionRow, CollisionExpr, Separated, MapFn, PartFn, CollisionFn, SignedDistance, Norm;
    var part, ob, r, m := Part(p, 3 * k, 3), w.obstacles[o - 1], w.robot.pointRadii[k], w.robot.margin;
    var h := MapFn([CollisionExpr(ob, r, m)], w.lib, PartFn(f, 3 * k, 3));
    PartExact(f, p, 3 * k, 3, q, qd);
    assert Separated(w.lib, part.x, ob, r, m);
    SeparatedFacts(w.lib, part.x, ob, r, m);
    CollisionRowExact(PartFn(f, 3 * k, 3), w.lib, part, ob, r, m, q, qd);
    CollisionFnStep(w, f, k, o, CollisionExpr(ob, r, m), h);
    AppendExact(CollisionFn(w, f, k, o - 1), h, CollisionFn(w, f, k, o),
                CollisionRows(w, p, k, o - 1), CollisionRow(w.lib, part, ob, r, m), q, qd);
  }

  lemma SeparatedFacts(lib: Library, u: Vec, o: Obstacle, pointRadius: real, margin: real)
    requires |u| == |o.center| && Separated(lib, u, o, pointRadius, margin)
    ensures Norm(lib, Minus(u, o.center)) > TINY && SignedDistance(lib, u, o, pointRadius, margin) > 0.0
  {
  }

  lemma CollisionFnStep(w: World, f: Vec -> Vec, k: nat, o: nat, e: Expr, h: Vec -> Vec)
    requires ValidWorld(w) && 0 < o <= |w.obstacles| && k < SENSOR_POINTS
    requires e == CollisionExpr(w.obstacles[o - 1], w.robot.pointRadii[k], w.robot.margin)
    requires h == MapFn([e], w.lib, PartFn(f, 3 * k, 3))
    ensures forall u :: CollisionFn(w, f, k, o)(u) == CollisionFn(w, f, k, o - 1)(u) + h(u)
  {
    hide *;
    forall u
      ensures CollisionFn(w, f, k, o)(u) == CollisionFn(w, f, k, o - 1)(u) + h(u)
    {
      CollisionValuesStep(w, f(u), k, o, e);
      CollisionFnAt(w, f, k, o, u);
      CollisionFnAt(w, f, k, o - 1, u);
      PartMapAt(e, w.lib, f, 3 * k, u);
    }
  }

  lemma CollisionFnAt(w: World, f: Vec -> Vec, k: nat, o: nat, u: Vec)
    requires ValidWorld(w) && o <= |w.obstacles| && (k < SENSOR_POINTS || (k == SENSOR_POINTS && o == 0))
    ensures CollisionFn(w, f, k, o)(u) == CollisionValues(w, f(u), k, o)
  {
    hide ValidWorld, CollisionValues;
  }

  lemma PartMapAt(e: Expr, lib: Library, f: Vec -> Vec, start: nat, u: Vec)
    ensures MapFn([e], lib, PartFn(f, start, 3))(u)
         == MapValue([e], lib, if start + 3 <= |f(u)| then f(u)[start..start + 3] else [])
  {
    hide MapValue, Eval;
    MapFnAt([e], lib, PartFn(f, start, 3), u);
    PartFnAt(f, start, 3, u);
  }

  lemma MapFnAt(es: seq<Expr>, lib: Library, f: Vec -> Vec, u: Vec)
    ensures MapFn(es, lib, f)(u) == MapValue(es, lib, f(u))
  {
    hide MapValue, Eval;
  }

  lemma PartFnAt(f: Vec -> Vec, start: nat, length: nat, u: Vec)
    ensures PartFn(f, start, length)(u) == if start + length <= |f(u)| then f(u)[start..start + length] else []
  {
  }

  lemma CollisionValuesStep(w: World, x: Vec, k: nat, o: nat, e: Expr)
    requires ValidWorld(w) && 0 < o <= |w.obstacles| && k < SENSOR_POINTS
    requires e == CollisionExpr(w.obstacles[o - 1], w.robot.pointRadii[k], w.robot.margin)
    ensures CollisionValues(w, x, k, o)
         == CollisionValues(w, x, k, o - 1)
            + MapValue([e], w.lib, if 3 * k + 3 <= |x| then x[3 * k..3 * k + 3] else [])
  {
    hide CollisionExpr, MapValue, ValidWorld;
  }

  lemma SameFn(f: Vec -> Vec, h: Vec -> Vec, g: Geometry, q: Vec, qd: Vec)
    requires Exact(f, g, q, qd) && forall u :: h(u) == f(u)
    ensures Exact(h, g, q, qd)
  {
    forall qdd: Vec | |qdd| == JOINTS
      ensures SmoothCurve(AlongPath(h, q, qd, qdd), 0.0, g.x, g.velocity, Acceleration(g, qdd))
    {
      ExactCurve(f, g, q, qd, qdd);
      var a := Acceleration(g, qdd);
      hide Exact, Smooth, Acceleration;
      assert forall t :: AlongPath(h, q, qd, qdd)(t) == h(Path(q, qd, qdd, t));
      SameCurve(AlongPath(f, q, qd, qdd), AlongPath(h, q, qd, qdd), g.x, g.velocity, a);
    }
  }

  lemma SameCurve(u: real -> Vec, w: real -> Vec, x: Vec, v: Vec, a: Vec)
    requires SmoothCurve(u, 0.0, x, v, a) && forall t :: w(t) == u(t)
    ensures SmoothCurve(w, 0.0, x, v, a)
  {
    hide Smooth;
    forall j | 0 <= j < |x|
      ensures Smooth(Component(w, j), 0.0, x[j], v[j], a[j])
    {
      SmoothSame(Component(u, j), Component(w, j), 0.0, x[j], v[j], a[j]);
    }
  }
}
