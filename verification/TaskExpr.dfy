/** Scalar symbolic expressions over stacked inputs, with the forward derivatives CasADi produces for
    them: the gradient row of `jacobian` and the second directional derivative of `jtimes`. */
module TaskExpr {
  import opened LinearAlgebra
  import opened Calculus
  import opened Elementary

  datatype Fn = SqrtFn | ReciprocalFn | SinFn | CosFn | TanhFn | AbsFn | RampFn

  datatype Expr = Const(c: real) | Input(j: nat) | Add(a: Expr, b: Expr) | Mul(a: Expr, b: Expr) | Apply(fn: Fn, arg: Expr)

  function FnOf(fn: Fn, lib: Library): real -> real {
    match fn
    case SqrtFn => lib.sqrt
    case ReciprocalFn => Reciprocal
    case SinFn => lib.sin
    case CosFn => lib.cos
    case TanhFn => lib.tanh
    case AbsFn => Magnitude
    case RampFn => Ramp
  }

  function Slope(fn: Fn, lib: Library, x: real): real {
    match fn
    case SqrtFn => Reciprocal(lib.sqrt(x)) / 2.0
    case ReciprocalFn => -(Reciprocal(x) * Reciprocal(x))
    case SinFn => lib.cos(x)
    case CosFn => -lib.sin(x)
    case TanhFn => TanhSlope(lib.tanh(x))
    case AbsFn => if x >= 0.0 then 1.0 else -1.0
    case RampFn => if x > 0.0 then 1.0 else 0.0
  }

  function Bend(fn: Fn, lib: Library, x: real): real {
    match fn
    case SqrtFn => var p := Reciprocal(lib.sqrt(x)); -(p * p * p) / 4.0
    case ReciprocalFn => var r := Reciprocal(x); 2.0 * (r * r * r)
    case SinFn => -lib.sin(x)
    case CosFn => -lib.cos(x)
    case TanhFn => TanhBend(lib.tanh(x))
    case AbsFn | RampFn => 0.0
  }

  /** Where the function is differentiable. */
  predicate RegularFn(fn: Fn, x: real) {
    match fn
    case SqrtFn => x > 0.0
    case ReciprocalFn | AbsFn | RampFn => x != 0.0
    case _ => true
  }

  function Get(u: Vec, j: nat): real { if j < |u| then u[j] else 0.0 }

  /** `(x y)''`. */
  function ProductBend(x: real, x1: real, x2: real, y: real, y1: real, y2: real): real {
    x * y2 + 2.0 * (x1 * y1) + x2 * y
  }

  /** `f(y)''` from the slope and bend of `f`. */
  function ChainBend(slope: real, bend: real, y1: real, y2: real): real { slope * y2 + bend * (y1 * y1) }

  function Eval(e: Expr, lib: Library, u: Vec): real {
    match e
    case Const(c) => c
    case Input(j) => Get(u, j)
    case Add(a, b) => Eval(a, lib, u) + Eval(b, lib, u)
    case Mul(a, b) => Times(Eval(a, lib, u), Eval(b, lib, u))
    case Apply(fn, a) => FnOf(fn, lib)(Eval(a, lib, u))
  }

  function Gradient(e: Expr, lib: Library, u: Vec): (r: Vec)
    ensures |r| == |u|
  {
    match e
    case Const(_) => Zero(|u|)
    case Input(j) => if j < |u| then Unit(|u|, j) else Zero(|u|)
    case Add(a, b) => Plus(Gradient(a, lib, u), Gradient(b, lib, u))
    case Mul(a, b) => Plus(Scale(Eval(a, lib, u), Gradient(b, lib, u)), Scale(Eval(b, lib, u), Gradient(a, lib, u)))
    case Apply(fn, a) => Scale(Slope(fn, lib, Eval(a, lib, u)), Gradient(a, lib, u))
  }

  /** The second derivative of the expression along the direction `v`. */
  function Curvature(e: Expr, lib: Library, u: Vec, v: Vec): real
    requires |u| == |v|
  {
    match e
    case Const(_) | Input(_) => 0.0
    case Add(a, b) => Curvature(a, lib, u, v) + Curvature(b, lib, u, v)
    case Mul(a, b) =>
      ProductBend(Eval(a, lib, u), Dot(Gradient(a, lib, u), v), Curvature(a, lib, u, v),
                  Eval(b, lib, u), Dot(Gradient(b, lib, u), v), Curvature(b, lib, u, v))
    case Apply(fn, a) =>
      ChainBend(Slope(fn, lib, Eval(a, lib, u)), Bend(fn, lib, Eval(a, lib, u)),
                Dot(Gradient(a, lib, u), v), Curvature(a, lib, u, v))
  }

  predicate Regular(e: Expr, lib: Library, u: Vec) {
    match e
    case Const(_) | Input(_) => true
    case Add(a, b) => Regular(a, lib, u) && Regular(b, lib, u)
    case Mul(a, b) => Regular(a, lib, u) && Regular(b, lib, u)
    case Apply(fn, a) => Regular(a, lib, u) && RegularFn(fn, Eval(a, lib, u))
  }

  lemma FnSmooth(fn: Fn, lib: Library, x: real)
    requires Standard(lib) && RegularFn(fn, x)
    ensures Smooth(FnOf(fn, lib), x, FnOf(fn, lib)(x), Slope(fn, lib, x), Bend(fn, lib, x))
  {
    hide Smooth, Reciprocal, TanhSlope, TanhBend;
    match fn
    case SqrtFn =>
      var s := SqrtFacts(lib, x);
      ReciprocalOf(s);
      var p := Reciprocal(s);
      SmoothSqrt(lib, x, s, p, Slope(fn, lib, x), Bend(fn, lib, x));
    case ReciprocalFn =>
      var r := Reciprocal(x);
      SmoothReciprocal(x, r, Slope(fn, lib, x), Bend(fn, lib, x));
    case AbsFn => SmoothMagnitude(x, Slope(fn, lib, x));
    case RampFn => SmoothRamp(x, Slope(fn, lib, x));
    case SinFn =>
    case CosFn =>
    case TanhFn =>
  }

  // ----- expressions along a curve

  /** Coordinate `j` of a curve of vectors. */
  function Component(w: real -> Vec, j: nat): real -> real { t => Get(w(t), j) }

  function Along(e: Expr, lib: Library, w: real -> Vec): real -> real { t => Eval(e, lib, w(t)) }

  /** At `c` the curve `w` has position `x`, velocity `v` and acceleration `a`. */
  ghost predicate SmoothCurve(w: real -> Vec, c: real, x: Vec, v: Vec, a: Vec) {
    && |x| == |v| == |a|
    && (forall t :: |w(t)| == |x|)
    && (forall j | 0 <= j < |x| :: Smooth(Component(w, j), c, x[j], v[j], a[j]))
  }

  function SlopeAlong(e: Expr, lib: Library, x: Vec, v: Vec): real
    requires |x| == |v|
  {
    Dot(Gradient(e, lib, x), v)
  }

  function BendAlong(e: Expr, lib: Library, x: Vec, v: Vec, a: Vec): real
    requires |x| == |v| == |a|
  {
    Dot(Gradient(e, lib, x), a) + Curvature(e, lib, x, v)
  }

  /** The claim of `ExprSmooth`, with the three derivatives named. */
  ghost predicate Tracks(e: Expr, lib: Library, w: real -> Vec, c: real, x: Vec, v: Vec, a: Vec,
                         e0: real, e1: real, e2: real)
  {
    && |x| == |v| == |a|
    && e0 == Eval(e, lib, x) && e1 == SlopeAlong(e, lib, x, v) && e2 == BendAlong(e, lib, x, v, a)
    && Smooth(Along(e, lib, w), c, e0, e1, e2)
  }

  /** Along any smooth curve the expression has exactly the velocity and acceleration that its gradient
      and its second directional derivative predict. */
  lemma {:induction false} ExprSmooth(e: Expr, lib: Library, w: real -> Vec, c: real, x: Vec, v: Vec, a: Vec)
    returns (e0: real, e1: real, e2: real)
    requires Standard(lib) && SmoothCurve(w, c, x, v, a) && Regular(e, lib, x)
    ensures Tracks(e, lib, w, c, x, v, a, e0, e1, e2)
  {
    hide Smooth, Standard, Tracks;
    match e
    case Const(r) =>
      e0, e1, e2 := r, 0.0, 0.0;
      ConstTracks(r, lib, w, c, x, v, a);
    case Input(j) =>
      e0, e1, e2 := Get(x, j), Get(v, j), Get(a, j);
      InputTracks(j, lib, w, c, x, v, a);
    case Add(p, q) =>
      var p0, p1, p2 := ExprSmooth(p, lib, w, c, x, v, a);
      var q0, q1, q2 := ExprSmooth(q, lib, w, c, x, v, a);
      e0, e1, e2 := p0 + q0, p1 + q1, p2 + q2;
      AddTracks(p, q, lib, w, c, x, v, a, p0, p1, p2, q0, q1, q2);
    case Mul(p, q) =>
      var p0, p1, p2 := ExprSmooth(p, lib, w, c, x, v, a);
      var q0, q1, q2 := ExprSmooth(q, lib, w, c, x, v, a);
      e0, e1, e2 := p0 * q0, p0 * q1 + p1 * q0, p0 * q2 + 2.0 * (p1 * q1) + p2 * q0;
      MulTracks(p, q, lib, w, c, x, v, a, p0, p1, p2, q0, q1, q2, e0, e1, e2);
    case Apply(fn, p) =>
      var p0, p1, p2 := ExprSmooth(p, lib, w, c, x, v, a);
      TracksValue(p, lib, w, c, x, v, a, p0, p1, p2);
      var s, b := Slope(fn, lib, p0), Bend(fn, lib, p0);
      e0, e1, e2 := FnOf(fn, lib)(p0), s * p1, s * p2 + b * (p1 * p1);
      ApplyTracks(fn, p, lib, w, c, x, v, a, p0, p1, p2, s, b, e0, e1, e2);
  }

  lemma TracksValue(e: Expr, lib: Library, w: real -> Vec, c: real, x: Vec, v: Vec, a: Vec, e0: real, e1: real, e2: real)
    requires Tracks(e, lib, w, c, x, v, a, e0, e1, e2)
    ensures e0 == Eval(e, lib, x)
  {
  }

  lemma ConstTracks(r: real, lib: Library, w: real -> Vec, c: real, x: Vec, v: Vec, a: Vec)
    requires |x| == |v| == |a|
    ensures Tracks(Const(r), lib, w, c, x, v, a, r, 0.0, 0.0)
  {
    hide Smooth;
    DotZeros(x, v, a);
    assert forall t :: Along(Const(r), lib, w)(t) == Eval(Const(r), lib, w(t));
    SmoothConstant(Along(Const(r), lib, w), c, r);
  }

  lemma DotZeros(x: Vec, v: Vec, a: Vec)
    requires |x| == |v| == |a|
    ensures Dot(Zero(|x|), v) == 0.0 && Dot(Zero(|x|), a) == 0.0
  {
    DotSymmetric(Zero(|x|), v);
    DotSymmetric(Zero(|x|), a);
    DotZero(v);
    DotZero(a);
  }

  lemma InputTracks(j: nat, lib: Library, w: real -> Vec, c: real, x: Vec, v: Vec, a: Vec)
    requires SmoothCurve(w, c, x, v, a)
    ensures Tracks(Input(j), lib, w, c, x, v, a, Get(x, j), Get(v, j), Get(a, j))
  {
    hide Smooth;
    var f := Along(Input(j), lib, w);
    if j < |x| {
      DotSymmetric(Unit(|x|, j), v);
      DotUnit(v, j);
      DotSymmetric(Unit(|x|, j), a);
      DotUnit(a, j);
      SmoothAffine(Component(w, j), f, 1.0, 0.0, c, x[j], v[j], a[j], x[j], v[j], a[j]);
    } else {
      DotZeros(x, v, a);
      SmoothConstant(f, c, 0.0);
    }
  }

  lemma PlusDot(b: Vec, c: Vec, a: Vec)
    requires |a| == |b| == |c|
    ensures Dot(Plus(b, c), a) == Dot(b, a) + Dot(c, a)
  {
    DotSymmetric(Plus(b, c), a);
    DotSymmetric(b, a);
    DotSymmetric(c, a);
    DotPlus(a, b, c);
  }

  lemma AddTracks(p: Expr, q: Expr, lib: Library, w: real -> Vec, c: real, x: Vec, v: Vec, a: Vec,
                  p0: real, p1: real, p2: real, q0: real, q1: real, q2: real)
    requires Tracks(p, lib, w, c, x, v, a, p0, p1, p2) && Tracks(q, lib, w, c, x, v, a, q0, q1, q2)
    ensures Tracks(Add(p, q), lib, w, c, x, v, a, p0 + q0, p1 + q1, p2 + q2)
  {
    hide Smooth, Dot;
    PlusDot(Gradient(p, lib, x), Gradient(q, lib, x), v);
    PlusDot(Gradient(p, lib, x), Gradient(q, lib, x), a);
    forall t
      ensures Along(Add(p, q), lib, w)(t) == Along(p, lib, w)(t) + Along(q, lib, w)(t)
    {
      assert Along(Add(p, q), lib, w)(t) == Eval(Add(p, q), lib, w(t));
    }
    SmoothSum(Along(p, lib, w), Along(q, lib, w), Along(Add(p, q), lib, w), c,
              p0, p1, p2, q0, q1, q2, p0 + q0, p1 + q1, p2 + q2);
  }

  lemma MulTracks(p: Expr, q: Expr, lib: Library, w: real -> Vec, c: real, x: Vec, v: Vec, a: Vec,
                  p0: real, p1: real, p2: real, q0: real, q1: real, q2: real, e0: real, e1: real, e2: real)
    requires Tracks(p, lib, w, c, x, v, a, p0, p1, p2) && Tracks(q, lib, w, c, x, v, a, q0, q1, q2)
    requires e0 == p0 * q0 && e1 == p0 * q1 + p1 * q0 && e2 == p0 * q2 + 2.0 * (p1 * q1) + p2 * q0
    ensures Tracks(Mul(p, q), lib, w, c, x, v, a, e0, e1, e2)
  {
    MulValues(p, q, lib, x, v, a, p0, p1, p2, q0, q1, q2, e0, e1, e2);
    hide Smooth, Eval, SlopeAlong, BendAlong, Along;
    MulAlongAll(p, q, lib, w);
    SmoothProduct(Along(p, lib, w), Along(q, lib, w), Along(Mul(p, q), lib, w), c,
                  p0, p1, p2, q0, q1, q2, e0, e1, e2);
  }

  lemma MulAlongAll(p: Expr, q: Expr, lib: Library, w: real -> Vec)
    ensures forall t :: Along(Mul(p, q), lib, w)(t) == Along(p, lib, w)(t) * Along(q, lib, w)(t)
  {
    hide Along;
    forall t
      ensures Along(Mul(p, q), lib, w)(t) == Along(p, lib, w)(t) * Along(q, lib, w)(t)
    {
      MulAlong(p, q, lib, w, t, Along(p, lib, w)(t), Along(q, lib, w)(t));
    }
  }

  lemma MulValues(p: Expr, q: Expr, lib: Library, x: Vec, v: Vec, a: Vec,
                  p0: real, p1: real, p2: real, q0: real, q1: real, q2: real, e0: real, e1: real, e2: real)
    requires |x| == |v| == |a|
    requires p0 == Eval(p, lib, x) && p1 == SlopeAlong(p, lib, x, v) && p2 == BendAlong(p, lib, x, v, a)
    requires q0 == Eval(q, lib, x) && q1 == SlopeAlong(q, lib, x, v) && q2 == BendAlong(q, lib, x, v, a)
    requires e0 == p0 * q0 && e1 == p0 * q1 + p1 * q0 && e2 == p0 * q2 + 2.0 * (p1 * q1) + p2 * q0
    ensures e0 == Eval(Mul(p, q), lib, x) && e1 == SlopeAlong(Mul(p, q), lib, x, v)
    ensures e2 == BendAlong(Mul(p, q), lib, x, v, a)
  {
    hide Dot, Scale, Plus;
    var gp, gq, pc, qc := Gradient(p, lib, x), Gradient(q, lib, x), Curvature(p, lib, x, v), Curvature(q, lib, x, v);
    var pa, qa := Dot(gp, a), Dot(gq, a);
    MulUnfold(p, q, lib, x, v, p0, p1, q0, q1, pc, qc);
    MulGradient(gp, gq, p0, q0, v, p1, q1);
    MulGradient(gp, gq, p0, q0, a, pa, qa);
    MulCurvature(p0, p1, p2, q0, q1, q2, pa, qa, pc, qc, e2);
    assert Gradient(Mul(p, q), lib, x) == Plus(Scale(p0, gq), Scale(q0, gp));
  }

  lemma MulGradient(gp: Vec, gq: Vec, p0: real, q0: real, v: Vec, p1: real, q1: real)
    requires |gp| == |gq| == |v| && p1 == Dot(gp, v) && q1 == Dot(gq, v)
    ensures Dot(Plus(Scale(p0, gq), Scale(q0, gp)), v) == p0 * q1 + p1 * q0
  {
    hide Dot, Scale, Plus;
    PlusDot(Scale(p0, gq), Scale(q0, gp), v);
    ScaleDot(p0, gq, v);
    ScaleDot(q0, gp, v);
    NamedProduct(p0, Dot(gq, v), p0 * Dot(gq, v), p0, q1);
    NamedProduct(q0, Dot(gp, v), q0 * Dot(gp, v), q0, p1);
  }

  lemma MulCurvature(p0: real, p1: real, p2: real, q0: real, q1: real, q2: real,
                     pa: real, qa: real, pc: real, qc: real, e2: real)
    requires p2 == pa + pc && q2 == qa + qc && e2 == p0 * q2 + 2.0 * (p1 * q1) + p2 * q0
    ensures e2 == p0 * qa + pa * q0 + (p0 * qc + 2.0 * (p1 * q1) + pc * q0)
  {
  }

  lemma MulUnfold(p: Expr, q: Expr, lib: Library, x: Vec, v: Vec,
                  p0: real, p1: real, q0: real, q1: real, pc: real, qc: real)
    requires |x| == |v| && p0 == Eval(p, lib, x) && q0 == Eval(q, lib, x)
    requires p1 == Dot(Gradient(p, lib, x), v) && q1 == Dot(Gradient(q, lib, x), v)
    requires pc == Curvature(p, lib, x, v) && qc == Curvature(q, lib, x, v)
    ensures Eval(Mul(p, q), lib, x) == p0 * q0
    ensures Curvature(Mul(p, q), lib, x, v) == p0 * qc + 2.0 * (p1 * q1) + pc * q0
  {
    TimesOf(p0, q0);
    ProductBendOf(p0, p1, pc, q0, q1, qc);
    hide Dot, Times, ProductBend;
    assert Eval(Mul(p, q), lib, x) == Times(p0, q0);
    assert Curvature(Mul(p, q), lib, x, v) == ProductBend(p0, p1, pc, q0, q1, qc);
  }

  lemma ProductBendOf(x: real, x1: real, x2: real, y: real, y1: real, y2: real)
    ensures ProductBend(x, x1, x2, y, y1, y2) == x * y2 + 2.0 * (x1 * y1) + x2 * y
  {
  }

  lemma MulAlong(p: Expr, q: Expr, lib: Library, w: real -> Vec, t: real, x: real, y: real)
    requires x == Along(p, lib, w)(t) && y == Along(q, lib, w)(t)
    ensures Along(Mul(p, q), lib, w)(t) == x * y
  {
    TimesOf(x, y);
    hide Times;
    assert Along(Mul(p, q), lib, w)(t) == Eval(Mul(p, q), lib, w(t)) == Times(x, y);
  }

  lemma ApplyTracks(fn: Fn, p: Expr, lib: Library, w: real -> Vec, c: real, x: Vec, v: Vec, a: Vec,
                    p0: real, p1: real, p2: real, s: real, b: real, e0: real, e1: real, e2: real)
    requires Standard(lib) && Tracks(p, lib, w, c, x, v, a, p0, p1, p2) && RegularFn(fn, p0)
    requires s == Slope(fn, lib, p0) && b == Bend(fn, lib, p0)
    requires e0 == FnOf(fn, lib)(p0) && e1 == s * p1 && e2 == s * p2 + b * (p1 * p1)
    ensures Tracks(Apply(fn, p), lib, w, c, x, v, a, e0, e1, e2)
  {
    FnSmooth(fn, lib, p0);
    ApplyValues(fn, p, lib, x, v, a, p0, p1, p2, s, b, e1, e2);
    hide Smooth, SlopeAlong, BendAlong, Slope, Bend, Standard;
    forall t
      ensures Along(Apply(fn, p), lib, w)(t) == FnOf(fn, lib)(Along(p, lib, w)(t))
    {
      assert Along(Apply(fn, p), lib, w)(t) == Eval(Apply(fn, p), lib, w(t));
    }
    SmoothCompose(Along(p, lib, w), FnOf(fn, lib), Along(Apply(fn, p), lib, w), c, p0, p1, p2, e0, s, b, e1, e2);
  }

  lemma ApplyValues(fn: Fn, p: Expr, lib: Library, x: Vec, v: Vec, a: Vec,
                    p0: real, p1: real, p2: real, s: real, b: real, e1: real, e2: real)
    requires |x| == |v| == |a|
    requires p0 == Eval(p, lib, x) && p1 == SlopeAlong(p, lib, x, v) && p2 == BendAlong(p, lib, x, v, a)
    requires s == Slope(fn, lib, p0) && b == Bend(fn, lib, p0)
    requires e1 == s * p1 && e2 == s * p2 + b * (p1 * p1)
    ensures e1 == SlopeAlong(Apply(fn, p), lib, x, v) && e2 == BendAlong(Apply(fn, p), lib, x, v, a)
  {
    hide Dot, Scale, Slope, Bend;
    var g, pc := Gradient(p, lib, x), Curvature(p, lib, x, v);
    var pa := Dot(g, a);
    ApplyGradient(g, s, v, p1, e1);
    ApplyGradient(g, s, a, pa, s * pa);
    ApplyUnfold(fn, p, lib, x, v, p0, p1, pc, s, b);
    ApplyCurvature(s, b, p1, p2, pa, pc, e2);
    assert Gradient(Apply(fn, p), lib, x) == Scale(s, g);
  }

  lemma ApplyGradient(g: Vec, s: real, v: Vec, p1: real, e1: real)
    requires |g| == |v| && p1 == Dot(g, v) && e1 == s * p1
    ensures Dot(Scale(s, g), v) == e1
  {
    hide Dot, Scale;
    ScaleDot(s, g, v);
    NamedProduct(s, p1, e1, s, Dot(g, v));
  }

  lemma ApplyUnfold(fn: Fn, p: Expr, lib: Library, x: Vec, v: Vec, p0: real, p1: real, pc: real, s: real, b: real)
    requires |x| == |v| && p0 == Eval(p, lib, x) && p1 == Dot(Gradient(p, lib, x), v) && pc == Curvature(p, lib, x, v)
    requires s == Slope(fn, lib, p0) && b == Bend(fn, lib, p0)
    ensures Curvature(Apply(fn, p), lib, x, v) == s * pc + b * (p1 * p1)
  {
    ChainBendOf(s, b, p1, pc);
    hide Dot, Slope, Bend, ChainBend;
    assert Curvature(Apply(fn, p), lib, x, v) == ChainBend(s, b, p1, pc);
  }

  lemma ChainBendOf(slope: real, bend: real, y1: real, y2: real)
    ensures ChainBend(slope, bend, y1, y2) == slope * y2 + bend * (y1 * y1)
  {
  }

  lemma ApplyCurvature(s: real, b: real, p1: real, p2: real, pa: real, pc: real, e2: real)
    requires p2 == pa + pc && e2 == s * p2 + b * (p1 * p1)
    ensures e2 == s * pa + (s * pc + b * (p1 * p1))
  {
  }
}
