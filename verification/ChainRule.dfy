/** What one step of the graph interpreter does to position, Jacobian, velocity and curvature, and why
    that is the second-order chain rule. */
module ChainRule {
  import opened LinearAlgebra
  import opened Calculus
  import opened Elementary
  import opened TaskExpr

  const JOINTS: nat := 6

  /** `NodeGeometry`: position, Jacobian rows, velocity and curvature of one task space. */
  datatype Geometry = Geometry(x: Vec, jacobian: seq<Vec>, velocity: Vec, curvature: Vec)

  ghost predicate Shaped(g: Geometry) {
    |g.jacobian| == |g.x| && |g.velocity| == |g.x| && |g.curvature| == |g.x| && IsMatrix(g.jacobian, JOINTS)
  }

  /** The joint path with velocity `qd` and acceleration `qdd` through `q`. */
  function Path(q: Vec, qd: Vec, qdd: Vec, t: real): (r: Vec)
    requires |q| == |qd| == |qdd|
    ensures |r| == |q|
  {
    seq(|q|, i requires 0 <= i < |q| => q[i] + qd[i] * t + qdd[i] * (t * t) / 2.0)
  }

  function AlongPath(f: Vec -> Vec, q: Vec, qd: Vec, qdd: Vec): real -> Vec
    requires |q| == |qd| == |qdd|
  {
    t => f(Path(q, qd, qdd, t))
  }

  function Acceleration(g: Geometry, qdd: Vec): Vec
    requires Shaped(g) && |qdd| == JOINTS
  {
    Plus(Dots(g.jacobian, qdd), g.curvature)
  }

  /** The geometry is the true second-order picture of the map `f` at `(q, qd)`: its velocity is the
      Jacobian times `qd`, and along every joint path through `q` with velocity `qd` the map has that
      velocity and the second derivative `J qdd + curvature`. */
  ghost predicate Exact(f: Vec -> Vec, g: Geometry, q: Vec, qd: Vec) {
    && |q| == |qd| == JOINTS && Shaped(g)
    && g.velocity == Dots(g.jacobian, qd)
    && forall qdd: Vec | |qdd| == JOINTS ::
         SmoothCurve(AlongPath(f, q, qd, qdd), 0.0, g.x, g.velocity, Acceleration(g, qdd))
  }

  lemma ExactIntro(f: Vec -> Vec, g: Geometry, q: Vec, qd: Vec)
    requires |q| == |qd| == JOINTS && Shaped(g) && g.velocity == Dots(g.jacobian, qd)
    requires forall qdd: Vec | |qdd| == JOINTS ::
      SmoothCurve(AlongPath(f, q, qd, qdd), 0.0, g.x, g.velocity, Acceleration(g, qdd))
    ensures Exact(f, g, q, qd)
  {
    hide SmoothCurve, AlongPath, Acceleration, Dots;
  }

  // ----- one expression per output row

  function RowJacobian(e: Expr, lib: Library, p: Geometry): (r: Vec)
    requires Shaped(p)
    ensures |r| == JOINTS
  {
    Combine(p.jacobian, Gradient(e, lib, p.x), JOINTS)
  }

  function RowVelocity(e: Expr, lib: Library, p: Geometry): real
    requires Shaped(p)
  {
    SlopeAlong(e, lib, p.x, p.velocity)
  }

  function RowCurvature(e: Expr, lib: Library, p: Geometry): real
    requires Shaped(p)
  {
    Curvature(e, lib, p.x, p.velocity) + Dot(Gradient(e, lib, p.x), p.curvature)
  }

  function MapValue(es: seq<Expr>, lib: Library, u: Vec): (r: Vec)
    ensures |r| == |es|
  {
    seq(|es|, i requires 0 <= i < |es| => Eval(es[i], lib, u))
  }

  function MapGeometry(es: seq<Expr>, lib: Library, p: Geometry): (r: Geometry)
    requires Shaped(p)
    ensures Shaped(r) && |r.x| == |es|
  {
    Geometry(
      MapValue(es, lib, p.x),
      seq(|es|, i requires 0 <= i < |es| => RowJacobian(es[i], lib, p)),
      seq(|es|, i requires 0 <= i < |es| => RowVelocity(es[i], lib, p)),
      seq(|es|, i requires 0 <= i < |es| => RowCurvature(es[i], lib, p)))
  }

  function MapFn(es: seq<Expr>, lib: Library, f: Vec -> Vec): Vec -> Vec { q => MapValue(es, lib, f(q)) }

  lemma RowDerivatives(e: Expr, lib: Library, p: Geometry, qd: Vec, qdd: Vec)
    requires Shaped(p) && |qd| == |qdd| == JOINTS && p.velocity == Dots(p.jacobian, qd)
    ensures RowVelocity(e, lib, p) == Dot(RowJacobian(e, lib, p), qd)
    ensures Dot(RowJacobian(e, lib, p), qdd) + RowCurvature(e, lib, p)
         == BendAlong(e, lib, p.x, p.velocity, Acceleration(p, qdd))
  {
    hide Dot, Combine;
    var g := Gradient(e, lib, p.x);
    Adjoint(p.jacobian, g, qd);
    Adjoint(p.jacobian, g, qdd);
    DotPlus(g, Dots(p.jacobian, qdd), p.curvature);
  }

  lemma RowSmooth(e: Expr, lib: Library, f: Vec -> Vec, p: Geometry, q: Vec, qd: Vec, qdd: Vec, h: real -> real)
    requires Standard(lib) && Exact(f, p, q, qd) && |qdd| == JOINTS && Regular(e, lib, p.x)
    requires forall t :: h(t) == Along(e, lib, AlongPath(f, q, qd, qdd))(t)
    ensures Smooth(h, 0.0, Eval(e, lib, p.x), RowVelocity(e, lib, p), Dot(RowJacobian(e, lib, p), qdd) + RowCurvature(e, lib, p))
  {
    hide Smooth, Standard, SmoothCurve, Exact, Path, AlongPath, Regular, RowJacobian, RowCurvature, RowVelocity,
      Along, Acceleration, Shaped, Tracks, Dots, SlopeAlong, BendAlong, Eval;
    ExactParts(f, p, q, qd);
    RowDerivatives(e, lib, p, qd, qdd);
    ExactCurve(f, p, q, qd, qdd);
    var w, a := AlongPath(f, q, qd, qdd), Acceleration(p, qdd);
    var e0, e1, e2 := ExprSmooth(e, lib, w, 0.0, p.x, p.velocity, a);
    TracksParts(e, lib, w, p.x, p.velocity, a, e0, e1, e2);
    RowVelocityIs(e, lib, p);
    SmoothSame(Along(e, lib, w), h, 0.0, e0, e1, e2);
  }

  lemma RowVelocityIs(e: Expr, lib: Library, p: Geometry)
    requires Shaped(p)
    ensures RowVelocity(e, lib, p) == SlopeAlong(e, lib, p.x, p.velocity)
  {
  }

  lemma ExactParts(f: Vec -> Vec, p: Geometry, q: Vec, qd: Vec)
    requires Exact(f, p, q, qd)
    ensures |q| == |qd| == JOINTS && Shaped(p) && p.velocity == Dots(p.jacobian, qd)
    ensures |p.x| == |p.jacobian| == |p.velocity| == |p.curvature| && IsMatrix(p.jacobian, JOINTS)
  {
  }

  lemma TracksParts(e: Expr, lib: Library, w: real -> Vec, x: Vec, v: Vec, a: Vec, e0: real, e1: real, e2: real)
    requires Tracks(e, lib, w, 0.0, x, v, a, e0, e1, e2)
    ensures |x| == |v| == |a|
    ensures e0 == Eval(e, lib, x) && e1 == SlopeAlong(e, lib, x, v) && e2 == BendAlong(e, lib, x, v, a)
    ensures Smooth(Along(e, lib, w), 0.0, e0, e1, e2)
  {
  }

  lemma ExactCurve(f: Vec -> Vec, g: Geometry, q: Vec, qd: Vec, qdd: Vec)
    requires Exact(f, g, q, qd) && |qdd| == JOINTS
    ensures SmoothCurve(AlongPath(f, q, qd, qdd), 0.0, g.x, g.velocity, Acceleration(g, qdd))
  {
  }

  lemma MapCurve(es: seq<Expr>, lib: Library, f: Vec -> Vec, p: Geometry, q: Vec, qd: Vec, qdd: Vec)
    requires Standard(lib) && Exact(f, p, q, qd) && |qdd| == JOINTS
    requires forall i | 0 <= i < |es| :: Regular(es[i], lib, p.x)
    ensures var g := MapGeometry(es, lib, p);
            SmoothCurve(AlongPath(MapFn(es, lib, f), q, qd, qdd), 0.0, g.x, g.velocity, Acceleration(g, qdd))
  {
    hide Smooth, Standard, SmoothCurve, Exact, Regular, MapFn, Dot, RowJacobian, RowVelocity, RowCurvature, Eval;
    ExactParts(f, p, q, qd);
    var g, w := MapGeometry(es, lib, p), AlongPath(MapFn(es, lib, f), q, qd, qdd);
    MapLength(es, lib, f, q, qd, qdd);
    hide AlongPath;
    forall i | 0 <= i < |es|
      ensures Smooth(Component(w, i), 0.0, g.x[i], g.velocity[i], Acceleration(g, qdd)[i])
    {
      MapComponent(es, lib, f, p, q, qd, qdd, i);
    }
    CurveIntro(w, g.x, g.velocity, Acceleration(g, qdd));
  }

  lemma AccelerationLength(g: Geometry, qdd: Vec)
    requires Shaped(g) && |qdd| == JOINTS
    ensures |Acceleration(g, qdd)| == |g.x|
  {
  }

  lemma AlongMap(es: seq<Expr>, lib: Library, f: Vec -> Vec, q: Vec, qd: Vec, qdd: Vec, t: real)
    requires |q| == |qd| == |qdd|
    ensures AlongPath(MapFn(es, lib, f), q, qd, qdd)(t) == MapValue(es, lib, AlongPath(f, q, qd, qdd)(t))
  {
    hide Path, MapValue;
    assert AlongPath(MapFn(es, lib, f), q, qd, qdd)(t) == MapFn(es, lib, f)(Path(q, qd, qdd, t));
    assert AlongPath(f, q, qd, qdd)(t) == f(Path(q, qd, qdd, t));
  }

  lemma MapLength(es: seq<Expr>, lib: Library, f: Vec -> Vec, q: Vec, qd: Vec, qdd: Vec)
    requires |q| == |qd| == |qdd|
    ensures forall t :: |AlongPath(MapFn(es, lib, f), q, qd, qdd)(t)| == |es|
  {
    hide AlongPath, MapFn;
    forall t
      ensures |AlongPath(MapFn(es, lib, f), q, qd, qdd)(t)| == |es|
    {
      AlongMap(es, lib, f, q, qd, qdd, t);
    }
  }

  lemma MapComponent(es: seq<Expr>, lib: Library, f: Vec -> Vec, p: Geometry, q: Vec, qd: Vec, qdd: Vec, i: nat)
    requires Standard(lib) && Exact(f, p, q, qd) && |qdd| == JOINTS && i < |es| && Regular(es[i], lib, p.x)
    ensures |q| == |qd| == JOINTS && Shaped(p)
    ensures Smooth(Component(AlongPath(MapFn(es, lib, f), q, qd, qdd), i), 0.0, Eval(es[i], lib, p.x),
                   RowVelocity(es[i], lib, p), Dot(RowJacobian(es[i], lib, p), qdd) + RowCurvature(es[i], lib, p))
  {
    hide Smooth, Standard, Exact, Regular, Dot, RowJacobian, RowVelocity, RowCurvature, Eval, AlongPath, MapFn, Shaped;
    ExactParts(f, p, q, qd);
    ComponentIsAlong(es, lib, f, q, qd, qdd, i);
    RowSmooth(es[i], lib, f, p, q, qd, qdd, Component(AlongPath(MapFn(es, lib, f), q, qd, qdd), i));
  }

  lemma ComponentIsAlong(es: seq<Expr>, lib: Library, f: Vec -> Vec, q: Vec, qd: Vec, qdd: Vec, i: nat)
    requires |q| == |qd| == |qdd| && i < |es|
    ensures forall t :: Component(AlongPath(MapFn(es, lib, f), q, qd, qdd), i)(t)
                     == Along(es[i], lib, AlongPath(f, q, qd, qdd))(t)
  {
    hide Eval, AlongPath, MapFn;
    forall t
      ensures Component(AlongPath(MapFn(es, lib, f), q, qd, qdd), i)(t) == Along(es[i], lib, AlongPath(f, q, qd, qdd))(t)
    {
      AlongMap(es, lib, f, q, qd, qdd, t);
    }
  }

  lemma CurveIntro(w: real -> Vec, x: Vec, v: Vec, a: Vec)
    requires |x| == |v| == |a| && forall t :: |w(t)| == |x|
    requires forall j | 0 <= j < |x| :: Smooth(Component(w, j), 0.0, x[j], v[j], a[j])
    ensures SmoothCurve(w, 0.0, x, v, a)
  {
  }

  /** The chain rule of the interpreter: exact inputs give exact outputs. */
  lemma MapExact(es: seq<Expr>, lib: Library, f: Vec -> Vec, p: Geometry, q: Vec, qd: Vec)
    requires Standard(lib) && Exact(f, p, q, qd)
    requires forall i | 0 <= i < |es| :: Regular(es[i], lib, p.x)
    ensures Exact(MapFn(es, lib, f), MapGeometry(es, lib, p), q, qd)
  {
    MapVelocity(es, lib, p, qd);
    forall qdd: Vec | |qdd| == JOINTS
      ensures var g := MapGeometry(es, lib, p);
              SmoothCurve(AlongPath(MapFn(es, lib, f), q, qd, qdd), 0.0, g.x, g.velocity, Acceleration(g, qdd))
    {
      MapCurve(es, lib, f, p, q, qd, qdd);
    }
  }

  lemma MapVelocity(es: seq<Expr>, lib: Library, p: Geometry, qd: Vec)
    requires Shaped(p) && |qd| == JOINTS && p.velocity == Dots(p.jacobian, qd)
    ensures MapGeometry(es, lib, p).velocity == Dots(MapGeometry(es, lib, p).jacobian, qd)
  {
    hide Dot, RowJacobian, RowVelocity;
    var g := MapGeometry(es, lib, p);
    forall i | 0 <= i < |es|
      ensures g.velocity[i] == Dots(g.jacobian, qd)[i]
    {
      RowDerivatives(es[i], lib, p, qd, qd);
    }
  }

  // ----- several parents

  function Append(a: Geometry, b: Geometry): (r: Geometry)
    requires Shaped(a) && Shaped(b)
    ensures Shaped(r)
  {
    Geometry(a.x + b.x, a.jacobian + b.jacobian, a.velocity + b.velocity, a.curvature + b.curvature)
  }

  const Empty: Geometry := Geometry([], [], [], [])

  /** The inputs of a task map, one parent after the other. */
  function Stack(ps: seq<Geometry>): (r: Geometry)
    requires forall i | 0 <= i < |ps| :: Shaped(ps[i])
    ensures Shaped(r)
  {
    if ps == [] then Empty else Append(ps[0], Stack(ps[1..]))
  }

  function StackFn(fs: seq<Vec -> Vec>): Vec -> Vec { q => StackAt(fs, q) }

  function StackAt(fs: seq<Vec -> Vec>, q: Vec): Vec {
    if fs == [] then [] else fs[0](q) + StackAt(fs[1..], q)
  }

  ghost predicate AllExact(fs: seq<Vec -> Vec>, ps: seq<Geometry>, q: Vec, qd: Vec) {
    |fs| == |ps| && forall i | 0 <= i < |ps| :: Exact(fs[i], ps[i], q, qd)
  }

  lemma AppendExact(f: Vec -> Vec, g: Vec -> Vec, h: Vec -> Vec, a: Geometry, b: Geometry, q: Vec, qd: Vec)
    requires Exact(f, a, q, qd) && Exact(g, b, q, qd)
    requires forall u :: h(u) == f(u) + g(u)
    ensures Exact(h, Append(a, b), q, qd)
  {
    DotsAppend(a.jacobian, b.jacobian, qd);
    forall qdd: Vec | |qdd| == JOINTS
      ensures var c := Append(a, b);
              SmoothCurve(AlongPath(h, q, qd, qdd), 0.0, c.x, c.velocity, Acceleration(c, qdd))
    {
      AppendCurve(f, g, h, a, b, q, qd, qdd);
    }
  }

  lemma DotsAppend(a: seq<Vec>, b: seq<Vec>, v: Vec)
    requires IsMatrix(a, |v|) && IsMatrix(b, |v|)
    ensures Dots(a + b, v) == Dots(a, v) + Dots(b, v)
  {
  }

  lemma AppendCurve(f: Vec -> Vec, g: Vec -> Vec, h: Vec -> Vec, a: Geometry, b: Geometry, q: Vec, qd: Vec, qdd: Vec)
    requires Exact(f, a, q, qd) && Exact(g, b, q, qd) && |qdd| == JOINTS
    requires forall u :: h(u) == f(u) + g(u)
    ensures var c := Append(a, b);
            SmoothCurve(AlongPath(h, q, qd, qdd), 0.0, c.x, c.velocity, Acceleration(c, qdd))
  {
    assert |q| == |qd| == JOINTS && Shaped(a) && Shaped(b);
    hide Exact, SmoothCurve, Acceleration, Shaped;
    ExactCurve(f, a, q, qd, qdd);
    ExactCurve(g, b, q, qd, qdd);
    AccelerationAppend(a, b, qdd);
    forall t
      ensures AlongPath(h, q, qd, qdd)(t) == AlongPath(f, q, qd, qdd)(t) + AlongPath(g, q, qd, qdd)(t)
    {
      assert AlongPath(h, q, qd, qdd)(t) == h(Path(q, qd, qdd, t));
    }
    AppendSmooth(AlongPath(f, q, qd, qdd), AlongPath(g, q, qd, qdd), AlongPath(h, q, qd, qdd),
                 a.x, a.velocity, Acceleration(a, qdd), b.x, b.velocity, Acceleration(b, qdd));
  }

  lemma AccelerationAppend(a: Geometry, b: Geometry, qdd: Vec)
    requires Shaped(a) && Shaped(b) && |qdd| == JOINTS
    ensures Acceleration(Append(a, b), qdd) == Acceleration(a, qdd) + Acceleration(b, qdd)
  {
    hide Dots;
    DotsAppend(a.jacobian, b.jacobian, qdd);
  }

  lemma AppendSmooth(u: real -> Vec, v: real -> Vec, w: real -> Vec,
                     ux: Vec, u1: Vec, u2: Vec, vx: Vec, v1: Vec, v2: Vec)
    requires SmoothCurve(u, 0.0, ux, u1, u2) && SmoothCurve(v, 0.0, vx, v1, v2)
    requires forall t :: w(t) == u(t) + v(t)
    ensures SmoothCurve(w, 0.0, ux + vx, u1 + v1, u2 + v2)
  {
    hide Smooth;
    forall j | 0 <= j < |ux + vx|
      ensures Smooth(Component(w, j), 0.0, (ux + vx)[j], (u1 + v1)[j], (u2 + v2)[j])
    {
      if j < |ux| {
        SmoothSame(Component(u, j), Component(w, j), 0.0, ux[j], u1[j], u2[j]);
      } else {
        var k := j - |ux|;
        SmoothSame(Component(v, k), Component(w, j), 0.0, vx[k], v1[k], v2[k]);
      }
    }
  }

  lemma {:induction false} StackExact(fs: seq<Vec -> Vec>, ps: seq<Geometry>, q: Vec, qd: Vec)
    requires |q| == |qd| == JOINTS && AllExact(fs, ps, q, qd)
    ensures Exact(StackFn(fs), Stack(ps), q, qd)
  {
    if ps == [] {
      assert Dots([], qd) == [];
      forall qdd: Vec | |qdd| == JOINTS
        ensures SmoothCurve(AlongPath(StackFn(fs), q, qd, qdd), 0.0, [], [], Acceleration(Empty, qdd))
      {
        assert Acceleration(Empty, qdd) == [];
        var w := AlongPath(StackFn(fs), q, qd, qdd);
        assert forall t :: w(t) == StackAt(fs, Path(q, qd, qdd, t)) == [];
        CurveIntro(w, [], [], []);
      }
    } else {
      StackExact(fs[1..], ps[1..], q, qd);
      hide Exact;
      AppendExact(fs[0], StackFn(fs[1..]), StackFn(fs), ps[0], Stack(ps[1..]), q, qd);
    }
  }

  // ----- rows of an exact geometry

  function Part(g: Geometry, start: nat, length: nat): (r: Geometry)
    requires Shaped(g) && start + length <= |g.x|
    ensures Shaped(r) && |r.x| == length
  {
    Geometry(g.x[start..start + length], g.jacobian[start..start + length],
             g.velocity[start..start + length], g.curvature[start..start + length])
  }

  function PartFn(f: Vec -> Vec, start: nat, length: nat): Vec -> Vec {
    q => var u := f(q); if start + length <= |u| then u[start..start + length] else []
  }

  lemma PartExact(f: Vec -> Vec, g: Geometry, start: nat, length: nat, q: Vec, qd: Vec)
    requires Exact(f, g, q, qd) && start + length <= |g.x|
    ensures Exact(PartFn(f, start, length), Part(g, start, length), q, qd)
  {
    hide SmoothCurve, AlongPath, Acceleration, Exact, PartFn, Dot;
    ExactParts(f, g, q, qd);
    var p := Part(g, start, length);
    assert p.velocity == Dots(p.jacobian, qd);
    forall qdd: Vec | |qdd| == JOINTS
      ensures SmoothCurve(AlongPath(PartFn(f, start, length), q, qd, qdd), 0.0, p.x, p.velocity, Acceleration(p, qdd))
    {
      PartAlong(f, g, start, length, q, qd, qdd);
    }
    ExactIntro(PartFn(f, start, length), p, q, qd);
  }

  lemma PartAlong(f: Vec -> Vec, g: Geometry, start: nat, length: nat, q: Vec, qd: Vec, qdd: Vec)
    requires Exact(f, g, q, qd) && start + length <= |g.x| && |qdd| == JOINTS
    ensures var p := Part(g, start, length);
            SmoothCurve(AlongPath(PartFn(f, start, length), q, qd, qdd), 0.0, p.x, p.velocity, Acceleration(p, qdd))
  {
    assert |q| == |qd| == JOINTS && Shaped(g);
    ExactCurve(f, g, q, qd, qdd);
    hide Exact, SmoothCurve;
    PartAcceleration(g, start, length, qdd);
    hide Acceleration;
    PartCurve(AlongPath(f, q, qd, qdd), AlongPath(PartFn(f, start, length), q, qd, qdd),
              g.x, g.velocity, Acceleration(g, qdd), start, length);
  }

  lemma PartAcceleration(g: Geometry, start: nat, length: nat, qdd: Vec)
    requires Shaped(g) && start + length <= |g.x| && |qdd| == JOINTS
    ensures Acceleration(Part(g, start, length), qdd) == Acceleration(g, qdd)[start..start + length]
  {
  }

  lemma PartCurve(u: real -> Vec, w: real -> Vec, x: Vec, v: Vec, a: Vec, start: nat, length: nat)
    requires SmoothCurve(u, 0.0, x, v, a) && start + length <= |x|
    requires forall t :: w(t) == if start + length <= |u(t)| then u(t)[start..start + length] else []
    ensures SmoothCurve(w, 0.0, x[start..start + length], v[start..start + length], a[start..start + length])
  {
    hide Smooth, SmoothCurve, Component;
    CurveParts(u, x, v, a);
    forall j | 0 <= j < length
      ensures Smooth(Component(w, j), 0.0, x[start..start + length][j], v[start..start + length][j], a[start..start + length][j])
    {
      var k := start + j;
      PartComponent(u, w, |x|, start, length, j);
      SmoothSame(Component(u, k), Component(w, j), 0.0, x[k], v[k], a[k]);
    }
    CurveIntro(w, x[start..start + length], v[start..start + length], a[start..start + length]);
  }

  lemma CurveParts(w: real -> Vec, x: Vec, v: Vec, a: Vec)
    requires SmoothCurve(w, 0.0, x, v, a)
    ensures |x| == |v| == |a| && forall t :: |w(t)| == |x|
    ensures forall j | 0 <= j < |x| :: Smooth(Component(w, j), 0.0, x[j], v[j], a[j])
  {
    hide Smooth;
  }

  lemma PartComponent(u: real -> Vec, w: real -> Vec, n: nat, start: nat, length: nat, j: nat)
    requires start + length <= n && j < length && forall t :: |u(t)| == n
    requires forall t :: w(t) == if start + length <= |u(t)| then u(t)[start..start + length] else []
    ensures forall t :: Component(w, j)(t) == Component(u, start + j)(t)
  {
    forall t
      ensures Component(w, j)(t) == Component(u, start + j)(t)
    {
      var s := u(t);
      assert |s| == n && w(t) == s[start..start + length];
      PartEntry(s, w(t), start, length, j);
    }
  }

  lemma PartEntry(s: Vec, p: Vec, start: nat, length: nat, j: nat)
    requires start + length <= |s| && j < length && p == s[start..start + length]
    ensures Get(p, j) == Get(s, start + j)
  {
  }

  // ----- an exact geometry is determined by its map

  lemma CurveUnique(w: real -> Vec, x: Vec, v: Vec, a: Vec, y: Vec, u: Vec, b: Vec)
    requires SmoothCurve(w, 0.0, x, v, a) && SmoothCurve(w, 0.0, y, u, b)
    ensures x == y && v == u && a == b
  {
    hide Smooth;
    assert |x| == |w(0.0)| == |y|;
    forall j | 0 <= j < |x|
      ensures x[j] == y[j] && v[j] == u[j] && a[j] == b[j]
    {
      SmoothUnique(Component(w, j), 0.0, x[j], v[j], a[j], y[j], u[j], b[j]);
    }
  }

  /** Two exact geometries of one map agree in position, Jacobian, velocity and curvature. */
  lemma ExactUnique(f: Vec -> Vec, g: Geometry, h: Geometry, q: Vec, qd: Vec)
    requires Exact(f, g, q, qd) && Exact(f, h, q, qd)
    ensures g == h
  {
    ExactParts(f, g, q, qd);
    ExactParts(f, h, q, qd);
    SameAcceleration(f, g, h, q, qd, Zero(JOINTS));
    hide Exact, Dot;
    AccelerationAtRest(g);
    AccelerationAtRest(h);
    forall i, c | 0 <= i < |g.x| && 0 <= c < JOINTS
      ensures g.jacobian[i][c] == h.jacobian[i][c]
    {
      SameAcceleration(f, g, h, q, qd, Unit(JOINTS, c));
      AccelerationAlongJoint(g, i, c);
      AccelerationAlongJoint(h, i, c);
    }
    forall i | 0 <= i < |g.x|
      ensures g.jacobian[i] == h.jacobian[i]
    {
    }
    assert g.jacobian == h.jacobian;
  }

  lemma SameAcceleration(f: Vec -> Vec, g: Geometry, h: Geometry, q: Vec, qd: Vec, qdd: Vec)
    requires Exact(f, g, q, qd) && Exact(f, h, q, qd) && |qdd| == JOINTS
    ensures g.x == h.x && g.velocity == h.velocity && Acceleration(g, qdd) == Acceleration(h, qdd)
  {
    ExactCurve(f, g, q, qd, qdd);
    ExactCurve(f, h, q, qd, qdd);
    hide Exact, SmoothCurve, Acceleration;
    CurveUnique(AlongPath(f, q, qd, qdd), g.x, g.velocity, Acceleration(g, qdd), h.x, h.velocity, Acceleration(h, qdd));
  }

  lemma AccelerationAtRest(g: Geometry)
    requires Shaped(g)
    ensures Acceleration(g, Zero(JOINTS)) == g.curvature
  {
    hide Dot;
    forall i | 0 <= i < |g.x|
      ensures Dot(g.jacobian[i], Zero(JOINTS)) == 0.0
    {
      DotZero(g.jacobian[i]);
    }
  }

  lemma AccelerationAlongJoint(g: Geometry, i: nat, c: nat)
    requires Shaped(g) && i < |g.x| && c < JOINTS
    ensures Acceleration(g, Unit(JOINTS, c))[i] == g.jacobian[i][c] + g.curvature[i]
  {
    DotUnit(g.jacobian[i], c);
  }
}
