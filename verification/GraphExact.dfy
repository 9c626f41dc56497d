/** Every geometry the graph interpreter caches is the exact second-order picture of its node's map. */
module GraphExact {
  import opened LinearAlgebra
  import opened Calculus
  import opened RmpConfig
  import opened Elementary
  import opened TaskExpr
  import opened ChainRule
  import opened TaskMaps
  import opened TaskGraph
  import opened CollisionExact

  // ----- link axes

  predicate Cyclic(i: nat, j: nat, k: nat) { (i, j, k) in {(0, 1, 2), (1, 2, 0), (2, 0, 1)} }

  lemma CrossEntry(m: seq<Vec>, a: Vec, i: nat, j: nat, k: nat, c: nat)
    requires |m| == 3 && IsMatrix(m, JOINTS) && |a| == 3 && Cyclic(i, j, k) && c < JOINTS
    ensures CrossColumns(m, a)[i][c] == CrossAt(Column(m, c), a, j, k)
  {
    hide CrossAt;
  }

  lemma CrossAtScaled(m: seq<Vec>, a: Vec, j: nat, k: nat, c: nat)
    requires |m| == 3 && IsMatrix(m, JOINTS) && |a| == 3 && j < 3 && k < 3 && c < JOINTS
    ensures CrossAt(Column(m, c), a, j, k) == Minus(Scale(a[k], m[j]), Scale(a[j], m[k]))[c]
  {
    var x, y, p, r := m[j][c], m[k][c], a[k], a[j];
    assert CrossAt(Column(m, c), a, j, k) == x * p - y * r;
    assert Scale(p, m[j])[c] == p * x && Scale(r, m[k])[c] == r * y;
  }

  lemma CrossRowIs(m: seq<Vec>, a: Vec, i: nat, j: nat, k: nat)
    requires |m| == 3 && IsMatrix(m, JOINTS) && |a| == 3 && Cyclic(i, j, k)
    ensures CrossColumns(m, a)[i] == Minus(Scale(a[k], m[j]), Scale(a[j], m[k]))
  {
    hide CrossColumns, CrossAt, Scale, Minus, Column;
    var row := CrossColumns(m, a)[i];
    forall c | 0 <= c < JOINTS
      ensures row[c] == Minus(Scale(a[k], m[j]), Scale(a[j], m[k]))[c]
    {
      CrossEntry(m, a, i, j, k, c);
      CrossAtScaled(m, a, j, k, c);
    }
  }

  lemma DotDifference(l: Vec, r: Vec, v: Vec)
    requires |l| == |r| == |v|
    ensures Dot(Minus(l, r), v) == Dot(l, v) - Dot(r, v)
  {
    hide *;
    DotSymmetric(Minus(l, r), v);
    DotMinus(v, l, r);
    DotSymmetric(v, l);
    DotSymmetric(v, r);
  }

  lemma CrossRow(m: seq<Vec>, a: Vec, i: nat, j: nat, k: nat, v: Vec, w: Vec)
    requires |m| == 3 && IsMatrix(m, JOINTS) && |a| == 3 && |v| == JOINTS && w == Dots(m, v) && Cyclic(i, j, k)
    ensures Dot(CrossColumns(m, a)[i], v) == Cross(w, a)[i]
  {
    assert j < 3 && k < 3 && |m[j]| == |m[k]| == |CrossColumns(m, a)[i]| == |v|;
    assert w[j] == Dot(m[j], v) && w[k] == Dot(m[k], v) && Cross(w, a)[i] == CrossAt(w, a, j, k);
    hide *;
    CrossRowIs(m, a, i, j, k);
    DotDifference(Scale(a[k], m[j]), Scale(a[j], m[k]), v);
    ScaledDotIs(a[k], m[j], v, w[j], w[j] * a[k]);
    ScaledDotIs(a[j], m[k], v, w[k], w[k] * a[j]);
    CrossAtIs(w, a, j, k);
  }

  lemma CrossAtIs(a: Vec, b: Vec, j: nat, k: nat)
    requires |a| == |b| == 3 && j < 3 && k < 3
    ensures CrossAt(a, b, j, k) == a[j] * b[k] - a[k] * b[j]
  {
  }

  lemma ScaledDotIs(k: real, m: Vec, v: Vec, w: real, p: real)
    requires |m| == |v| && w == Dot(m, v) && p == w * k
    ensures Dot(Scale(k, m), v) == p
  {
    hide *;
    ScaleDot(k, m, v);
    NamedProduct(k, Dot(m, v), Dot(Scale(k, m), v), k, w);
  }

  lemma DotsCrossColumns(m: seq<Vec>, a: Vec, v: Vec)
    requires |m| == 3 && IsMatrix(m, JOINTS) && |a| == 3 && |v| == JOINTS
    ensures Dots(CrossColumns(m, a), v) == Cross(Dots(m, v), a)
  {
    hide Dot, CrossColumns, Cross;
    var w := Dots(m, v);
    CrossRow(m, a, 0, 1, 2, v, w);
    CrossRow(m, a, 1, 2, 0, v, w);
    CrossRow(m, a, 2, 0, 1, v, w);
  }

  lemma CrossAtPlus(a: Vec, b: Vec, c: Vec, j: nat, k: nat)
    requires |a| == |b| == |c| == 3 && j < 3 && k < 3
    ensures CrossAt(Plus(a, b), c, j, k) == CrossAt(a, c, j, k) + CrossAt(b, c, j, k)
  {
    var aj, ak, bj, bk, cj, ck := a[j], a[k], b[j], b[k], c[j], c[k];
    assert (aj + bj) * ck == aj * ck + bj * ck && (ak + bk) * cj == ak * cj + bk * cj;
  }

  lemma CrossPlus(a: Vec, b: Vec, c: Vec)
    requires |a| == |b| == |c| == 3
    ensures Cross(Plus(a, b), c) == Plus(Cross(a, c), Cross(b, c))
  {
    hide CrossAt;
    CrossAtPlus(a, b, c, 1, 2);
    CrossAtPlus(a, b, c, 2, 0);
    CrossAtPlus(a, b, c, 0, 1);
  }

  /** The rigid-body facts about one link: its angular velocity is `J qd`, and a body-fixed axis turns with
      that velocity and with the angular acceleration `J qdd + curvature`. */
  ghost predicate Rotates(f: Vec -> Vec, l: Link, axis: Vec, q: Vec, qd: Vec)
    requires |axis| == 3
  {
    && |q| == |qd| == JOINTS && ValidLink(l)
    && l.angularVelocity == Dots(l.angularJacobian, qd)
    && forall qdd: Vec | |qdd| == JOINTS ::
         var world := Dots(l.rotation, axis);
         SmoothCurve(AlongPath(f, q, qd, qdd), 0.0, world, Cross(l.angularVelocity, world),
                     Plus(Cross(Plus(Dots(l.angularJacobian, qdd), l.angularCurvature), world),
                          Cross(l.angularVelocity, Cross(l.angularVelocity, world))))
  }

  /** The cross-product formulas of `link_orientation_axis` are exact. */
  lemma AxisExact(f: Vec -> Vec, l: Link, axis: Vec, q: Vec, qd: Vec)
    requires |axis| == 3 && Rotates(f, l, axis, q, qd)
    ensures Exact(f, AxisGeometry(l, axis), q, qd)
  {
    var world, g := Dots(l.rotation, axis), AxisGeometry(l, axis);
    hide SmoothCurve, CrossColumns, Cross, Dot;
    DotsCrossColumns(l.angularJacobian, world, qd);
    forall qdd: Vec | |qdd| == JOINTS
      ensures SmoothCurve(AlongPath(f, q, qd, qdd), 0.0, g.x, g.velocity, Acceleration(g, qdd))
    {
      var turn := Dots(l.angularJacobian, qdd);
      DotsCrossColumns(l.angularJacobian, world, qdd);
      CrossPlus(turn, l.angularCurvature, world);
      PlusAssociates(Cross(turn, world), Cross(l.angularCurvature, world), Cross(l.angularVelocity, g.velocity));
    }
  }

  lemma PlusAssociates(a: Vec, b: Vec, c: Vec)
    requires |a| == |b| == |c|
    ensures Plus(Plus(a, b), c) == Plus(a, Plus(b, c))
  {
  }

  // ----- joint limits

  function LimitAt(robot: Robot, x: Vec, i: nat): real
    requires |robot.lower| == |robot.upper| == |robot.buffers| == JOINTS && i < 12
  {
    var j := i / 2;
    if i % 2 == 0 then robot.upper[j] - robot.buffers[j] - Get(x, j) else Get(x, j) - (robot.lower[j] + robot.buffers[j])
  }

  function LimitFn(robot: Robot, f: Vec -> Vec): Vec -> Vec
    requires |robot.lower| == |robot.upper| == |robot.buffers| == JOINTS
  {
    q => seq(12, i requires 0 <= i < 12 => LimitAt(robot, f(q), i))
  }

  /** The parent's first six coordinates are the joints themselves. */
  ghost predicate RootLike(p: Geometry) {
    && Shaped(p) && |p.x| >= JOINTS
    && forall j | 0 <= j < JOINTS :: p.jacobian[j] == Unit(JOINTS, j) && p.curvature[j] == 0.0
  }

  function Sign(i: nat): real { if i % 2 == 0 then -1.0 else 1.0 }

  /** What the `joint_limit` node would be with the parent's own Jacobian and curvature. */
  ghost function TrueLimitGeometry(robot: Robot, p: Geometry): (r: Geometry)
    requires |robot.lower| == |robot.upper| == |robot.buffers| == JOINTS && Shaped(p) && |p.x| >= JOINTS
    ensures Shaped(r)
  {
    Geometry(
      seq(12, i requires 0 <= i < 12 => LimitAt(robot, p.x, i)),
      seq(12, i requires 0 <= i < 12 => Scale(Sign(i), p.jacobian[i / 2])),
      seq(12, i requires 0 <= i < 12 => Sign(i) * p.velocity[i / 2]),
      seq(12, i requires 0 <= i < 12 => Sign(i) * p.curvature[i / 2]))
  }

  function Affinely(s: real, y: real, b: real): real { s * y + b }

  lemma AffineCurve(base: real -> real, row: real -> real, s: real, b: real, x: real, v: real, a: real,
                    x2: real, v2: real, a2: real)
    requires Smooth(base, 0.0, x, v, a) && forall t :: row(t) == Affinely(s, base(t), b)
    requires x2 == Affinely(s, x, b) && v2 == Affinely(s, v, 0.0) && a2 == Affinely(s, a, 0.0)
    ensures Smooth(row, 0.0, x2, v2, a2)
  {
    hide Smooth;
    SmoothAffine(base, row, s, b, 0.0, x, v, a, x2, v2, a2);
  }

  lemma LimitComponent(robot: Robot, f: Vec -> Vec, q: Vec, qd: Vec, qdd: Vec, i: nat, s: real, b: real)
    requires |robot.lower| == |robot.upper| == |robot.buffers| == JOINTS && |q| == |qd| == |qdd| && i < 12
    requires s == Sign(i)
    requires b == if i % 2 == 0 then robot.upper[i / 2] - robot.buffers[i / 2] else -(robot.lower[i / 2] + robot.buffers[i / 2])
    ensures forall t :: Component(AlongPath(LimitFn(robot, f), q, qd, qdd), i)(t)
                     == Affinely(s, Component(AlongPath(f, q, qd, qdd), i / 2)(t), b)
  {
    hide Path;
    forall t
      ensures Component(AlongPath(LimitFn(robot, f), q, qd, qdd), i)(t)
           == Affinely(s, Component(AlongPath(f, q, qd, qdd), i / 2)(t), b)
    {
      assert AlongPath(LimitFn(robot, f), q, qd, qdd)(t) == LimitFn(robot, f)(Path(q, qd, qdd, t));
      assert AlongPath(f, q, qd, qdd)(t) == f(Path(q, qd, qdd, t));
    }
  }

  lemma LimitValues(robot: Robot, p: Geometry, qdd: Vec, i: nat, s: real, b: real)
    requires |robot.lower| == |robot.upper| == |robot.buffers| == JOINTS && Shaped(p) && |p.x| >= JOINTS
    requires |qdd| == JOINTS && i < 12
    requires s == Sign(i)
    requires b == if i % 2 == 0 then robot.upper[i / 2] - robot.buffers[i / 2] else -(robot.lower[i / 2] + robot.buffers[i / 2])
    ensures var g := TrueLimitGeometry(robot, p);
            && g.x[i] == Affinely(s, p.x[i / 2], b)
            && g.velocity[i] == Affinely(s, p.velocity[i / 2], 0.0)
            && Acceleration(g, qdd)[i] == Affinely(s, Acceleration(p, qdd)[i / 2], 0.0)
  {
    hide Dot;
    var g, j := TrueLimitGeometry(robot, p), i / 2;
    ScaleDot(Sign(i), p.jacobian[j], qdd);
    assert Acceleration(g, qdd)[i] == Dot(g.jacobian[i], qdd) + g.curvature[i];
    assert Acceleration(p, qdd)[j] == Dot(p.jacobian[j], qdd) + p.curvature[j];
  }

  lemma CurveComponent(w: real -> Vec, x: Vec, v: Vec, a: Vec, j: nat)
    requires SmoothCurve(w, 0.0, x, v, a) && j < |x|
    ensures |x| == |v| == |a| && Smooth(Component(w, j), 0.0, x[j], v[j], a[j])
  {
  }

  lemma TrueLimitRow(robot: Robot, f: Vec -> Vec, p: Geometry, q: Vec, qd: Vec, qdd: Vec, i: nat)
    requires |robot.lower| == |robot.upper| == |robot.buffers| == JOINTS
    requires Exact(f, p, q, qd) && |p.x| >= JOINTS && |qdd| == JOINTS && i < 12
    ensures var g := TrueLimitGeometry(robot, p);
            Smooth(Component(AlongPath(LimitFn(robot, f), q, qd, qdd), i), 0.0, g.x[i], g.velocity[i], Acceleration(g, qdd)[i])
  {
    hide Exact, Smooth, SmoothCurve, TrueLimitGeometry, LimitFn, Acceleration, AlongPath, Component, Sign, Affinely,
      Shaped;
    ExactParts(f, p, q, qd);
    ExactCurve(f, p, q, qd, qdd);
    LimitRows(robot, p);
    var j, g, s := i / 2, TrueLimitGeometry(robot, p), Sign(i);
    var b := if i % 2 == 0 then robot.upper[j] - robot.buffers[j] else -(robot.lower[j] + robot.buffers[j]);
    LimitComponent(robot, f, q, qd, qdd, i, s, b);
    LimitValues(robot, p, qdd, i, s, b);
    AccelerationLength(p, qdd);
    AccelerationLength(g, qdd);
    CurveComponent(AlongPath(f, q, qd, qdd), p.x, p.velocity, Acceleration(p, qdd), j);
    AffineCurve(Component(AlongPath(f, q, qd, qdd), j), Component(AlongPath(LimitFn(robot, f), q, qd, qdd), i),
                s, b, p.x[j], p.velocity[j], Acceleration(p, qdd)[j], g.x[i], g.velocity[i], Acceleration(g, qdd)[i]);
  }

  lemma TrueLimitCurve(robot: Robot, f: Vec -> Vec, p: Geometry, q: Vec, qd: Vec, qdd: Vec)
    requires |robot.lower| == |robot.upper| == |robot.buffers| == JOINTS
    requires Exact(f, p, q, qd) && |p.x| >= JOINTS && |qdd| == JOINTS
    ensures var g := TrueLimitGeometry(robot, p);
            SmoothCurve(AlongPath(LimitFn(robot, f), q, qd, qdd), 0.0, g.x, g.velocity, Acceleration(g, qdd))
  {
    ExactParts(f, p, q, qd);
    hide Exact, Smooth, TrueLimitGeometry, LimitFn, Acceleration, AlongPath, SmoothCurve, Component;
    var g := TrueLimitGeometry(robot, p);
    LimitRows(robot, p);
    AccelerationLength(g, qdd);
    forall i | 0 <= i < 12
      ensures Smooth(Component(AlongPath(LimitFn(robot, f), q, qd, qdd), i), 0.0, g.x[i], g.velocity[i], Acceleration(g, qdd)[i])
    {
      TrueLimitRow(robot, f, p, q, qd, qdd, i);
    }
    LimitLength(robot, f, q, qd, qdd);
    CurveIntro(AlongPath(LimitFn(robot, f), q, qd, qdd), g.x, g.velocity, Acceleration(g, qdd));
  }

  lemma TrueLimitVelocity(robot: Robot, p: Geometry, qd: Vec)
    requires |robot.lower| == |robot.upper| == |robot.buffers| == JOINTS
    requires Shaped(p) && |p.x| >= JOINTS && |qd| == JOINTS && p.velocity == Dots(p.jacobian, qd)
    ensures TrueLimitGeometry(robot, p).velocity == Dots(TrueLimitGeometry(robot, p).jacobian, qd)
  {
    hide Dot;
    var g := TrueLimitGeometry(robot, p);
    forall i | 0 <= i < 12
      ensures g.velocity[i] == Dots(g.jacobian, qd)[i]
    {
      ScaleDot(Sign(i), p.jacobian[i / 2], qd);
    }
  }

  lemma TrueLimitExact(robot: Robot, f: Vec -> Vec, p: Geometry, q: Vec, qd: Vec)
    requires |robot.lower| == |robot.upper| == |robot.buffers| == JOINTS
    requires Exact(f, p, q, qd) && |p.x| >= JOINTS
    ensures Exact(LimitFn(robot, f), TrueLimitGeometry(robot, p), q, qd)
  {
    ExactParts(f, p, q, qd);
    TrueLimitVelocity(robot, p, qd);
    hide TrueLimitGeometry, LimitFn, Acceleration, AlongPath, SmoothCurve;
    var g := TrueLimitGeometry(robot, p);
    forall qdd: Vec | |qdd| == JOINTS
      ensures SmoothCurve(AlongPath(LimitFn(robot, f), q, qd, qdd), 0.0, g.x, g.velocity, Acceleration(g, qdd))
    {
      TrueLimitCurve(robot, f, p, q, qd, qdd);
    }
  }

  lemma LimitRows(robot: Robot, p: Geometry)
    requires |robot.lower| == |robot.upper| == |robot.buffers| == JOINTS && Shaped(p) && |p.x| >= JOINTS
    ensures var g := TrueLimitGeometry(robot, p); |g.x| == |g.velocity| == 12
  {
  }

  lemma LimitLength(robot: Robot, f: Vec -> Vec, q: Vec, qd: Vec, qdd: Vec)
    requires |robot.lower| == |robot.upper| == |robot.buffers| == JOINTS && |q| == |qd| == |qdd|
    ensures forall t :: |AlongPath(LimitFn(robot, f), q, qd, qdd)(t)| == 12
  {
    forall t
      ensures |AlongPath(LimitFn(robot, f), q, qd, qdd)(t)| == 12
    {
      assert AlongPath(LimitFn(robot, f), q, qd, qdd)(t) == LimitFn(robot, f)(Path(q, qd, qdd, t));
    }
  }

  /** The `joint_limit` node writes unit Jacobian rows and zero curvature whatever its parent is, so it is
      exact for a root-like parent and for no other. */
  lemma JointLimitExact(robot: Robot, f: Vec -> Vec, p: Geometry, q: Vec, qd: Vec)
    requires |robot.lower| == |robot.upper| == |robot.buffers| == JOINTS
    requires Exact(f, p, q, qd) && |p.x| >= JOINTS
    ensures Exact(LimitFn(robot, f), JointLimitGeometry(robot, p), q, qd) <==> RootLike(p)
  {
    var g, h := JointLimitGeometry(robot, p), TrueLimitGeometry(robot, p);
    TrueLimitExact(robot, f, p, q, qd);
    ExactParts(f, p, q, qd);
    hide Exact;
    SameLimits(robot, p);
    if Exact(LimitFn(robot, f), g, q, qd) {
      ExactUnique(LimitFn(robot, f), g, h, q, qd);
    }
  }

  lemma SameLimits(robot: Robot, p: Geometry)
    requires |robot.lower| == |robot.upper| == |robot.buffers| == JOINTS && Shaped(p) && |p.x| >= JOINTS
    ensures JointLimitGeometry(robot, p) == TrueLimitGeometry(robot, p) <==> RootLike(p)
  {
    var g, h := JointLimitGeometry(robot, p), TrueLimitGeometry(robot, p);
    if g == h {
      forall j | 0 <= j < JOINTS
        ensures p.jacobian[j] == Unit(JOINTS, j) && p.curvature[j] == 0.0
      {
        SameScaled(p.jacobian[j], Unit(JOINTS, j), g.jacobian[2 * j + 1]);
        assert g.curvature[2 * j + 1] == h.curvature[2 * j + 1];
      }
    }
    if RootLike(p) {
      assert g.x == h.x && g.jacobian == h.jacobian && g.velocity == h.velocity && g.curvature == h.curvature;
    }
  }

  lemma SameScaled(a: Vec, b: Vec, c: Vec)
    requires c == Scale(1.0, a) && c == Scale(1.0, b)
    ensures a == b
  {
    assert Scale(1.0, a) == a && Scale(1.0, b) == b;
  }

  /** Twice the joint positions, as an `affine` node computes it from the root. */
  function Twice(): (r: seq<Expr>)
    ensures |r| == JOINTS
  {
    seq(JOINTS, j requires 0 <= j < JOINTS => Mul(Const(2.0), Input(j)))
  }

  /** Above such a node, `joint_limit` is wrong at every configuration and every velocity. */
  lemma JointLimitFails(robot: Robot, lib: Library, q: Vec, qd: Vec)
    requires |robot.lower| == |robot.upper| == |robot.buffers| == JOINTS && Standard(lib) && |q| == |qd| == JOINTS
    ensures var f, p := MapFn(Twice(), lib, Same), MapGeometry(Twice(), lib, RootGeometry(q, qd));
      && Exact(f, p, q, qd)
      && !Exact(LimitFn(robot, f), JointLimitGeometry(robot, p), q, qd)
  {
    hide Standard, Exact, LimitFn, JointLimitGeometry, Twice, Regular, MapFn, MapGeometry, RootLike;
    var root := RootGeometry(q, qd);
    RootExact(q, qd);
    TwiceRegular(lib, q);
    MapExact(Twice(), lib, Same, root, q, qd);
    TwiceNotRootLike(lib, q, qd);
    JointLimitExact(robot, MapFn(Twice(), lib, Same), MapGeometry(Twice(), lib, root), q, qd);
  }

  lemma TwiceRegular(lib: Library, q: Vec)
    ensures forall i | 0 <= i < JOINTS :: Regular(Twice()[i], lib, q)
  {
    forall i | 0 <= i < JOINTS
      ensures Regular(Twice()[i], lib, q)
    {
      assert Regular(Const(2.0), lib, q) && Regular(Input(i), lib, q);
    }
  }

  lemma TwiceNotRootLike(lib: Library, q: Vec, qd: Vec)
    requires |q| == |qd| == JOINTS
    ensures !RootLike(MapGeometry(Twice(), lib, RootGeometry(q, qd)))
  {
    hide Combine, Curvature, Gradient, Eval;
    var root := RootGeometry(q, qd);
    TwiceRow(lib, q, qd);
    var p := MapGeometry(Twice(), lib, root);
    assert p.jacobian[0] == RowJacobian(Twice()[0], lib, root);
    assert p.jacobian[0][0] == 2.0 && Unit(JOINTS, 0)[0] == 1.0;
  }

  lemma TwiceRow(lib: Library, q: Vec, qd: Vec)
    requires |q| == |qd| == JOINTS
    ensures RowJacobian(Twice()[0], lib, RootGeometry(q, qd))[0] == 2.0
  {
    hide Combine;
    var e := Twice()[0];
    var g := Gradient(e, lib, q);
    assert Gradient(Input(0), lib, q) == Unit(JOINTS, 0) && Gradient(Const(2.0), lib, q) == Zero(JOINTS);
    assert g[0] == 2.0;
    var first := Unit(JOINTS, 0);
    Adjoint(Identity(JOINTS), g, first);
    DotsIdentity(first);
    DotUnit(g, 0);
    DotUnit(RowJacobian(e, lib, RootGeometry(q, qd)), 0);
  }

  // ----- the whole graph

  /** The true maps from the joints to what the kinematics reports. */
  datatype Maps = Maps(tcp: Vec -> Vec, links: map<string, Vec -> Vec>, axes: (string, Axis) -> (Vec -> Vec),
                       points: seq<Vec -> Vec>)

  ghost predicate ContextExact(m: Maps, c: Context, q: Vec, qd: Vec) {
    && Exact(m.tcp, c.tcp, q, qd)
    && (forall name | name in c.links :: name in m.links && Exact(m.links[name], c.links[name].position, q, qd))
    && (forall name, a | name in c.links && AxisVector(a).Some? ::
          Rotates(m.axes(name, a), c.links[name], AxisVector(a).value, q, qd))
    && AllExact(m.points, c.points, q, qd)
  }

  type Fns = map<string, Vec -> Vec>

  function Nothing(q: Vec): Vec { [] }

  function Same(q: Vec): Vec { q }

  function FnOfName(fns: Fns, name: string): Vec -> Vec { if name in fns then fns[name] else Nothing }

  function FnsOf(fns: Fns, names: seq<string>): (r: seq<Vec -> Vec>)
    ensures |r| == |names|
  {
    seq(|names|, i requires 0 <= i < |names| => FnOfName(fns, names[i]))
  }

  /** The map a node computes, as a function of the joints. */
  ghost function NodeFn(c: Compiled, w: World, m: Maps, fns: Fns): Vec -> Vec
    requires ValidWorld(w)
  {
    var front := if c.node.parents == [] then Nothing else FnOfName(fns, c.node.parents[0]);
    if UsesCasadi(c.node.taskMap) then
      match ApplyTaskMap(c.node, c.dims)
      case None => Nothing
      case Some(es) => MapFn(es, w.lib, StackFn(FnsOf(fns, c.node.parents)))
    else match c.node.taskMap
      case CspaceTargetMap | IdentityMap => front
      case JointLimitMap => LimitFn(w.robot, front)
      case TcpPosition => m.tcp
      case LinkPosition => FnOfName(m.links, c.node.linkName)
      case LinkOrientationAxis => m.axes(c.node.linkName, c.node.axis)
      case ControlPoints => StackFn(m.points)
      case CollisionDistance => CollisionFn(w, front, SENSOR_POINTS, 0)
      case _ => Nothing
  }

  /** Where the node is differentiable, and for the joint limits where its shortcut is right. */
  ghost predicate RegularNode(c: Compiled, w: World, parents: seq<Geometry>)
    requires ValidWorld(w) && forall i | 0 <= i < |parents| :: Shaped(parents[i])
  {
    if UsesCasadi(c.node.taskMap) then
      match ApplyTaskMap(c.node, c.dims)
      case None => true
      case Some(es) => forall i | 0 <= i < |es| :: Regular(es[i], w.lib, Stack(parents).x)
    else if c.node.taskMap == JointLimitMap then parents != [] ==> RootLike(parents[0])
    else if c.node.taskMap == CollisionDistance then
      parents != [] && 3 * SENSOR_POINTS <= |parents[0].x| ==> AllSeparated(w, parents[0].x)
    else true
  }

  lemma NativeExact(c: Compiled, w: World, m: Maps, fns: Fns, parents: seq<Geometry>, q: Vec, qd: Vec)
    requires ValidWorld(w) && Standard(w.lib) && ContextExact(m, w.context, q, qd)
    requires AllExact(FnsOf(fns, c.node.parents), parents, q, qd)
    requires forall i | 0 <= i < |parents| :: Shaped(parents[i])
    requires !UsesCasadi(c.node.taskMap) && RegularNode(c, w, parents) && EvaluateNative(c.node, w, parents).Ok?
    ensures Exact(NodeFn(c, w, m, fns), EvaluateNative(c.node, w, parents).value, q, qd)
  {
    hide Exact, Standard, Rotates, AxisGeometry, JointLimitGeometry, LimitFn, CollisionFn, AllSeparated, ValidContext;
    if parents != [] {
      assert FnsOf(fns, c.node.parents)[0] == FnOfName(fns, c.node.parents[0]);
      assert Exact(FnOfName(fns, c.node.parents[0]), parents[0], q, qd);
    }
    match c.node.taskMap
    case CspaceTargetMap =>
    case IdentityMap =>
    case TcpPosition =>
    case LinkPosition =>
    case LinkOrientationAxis =>
      AxisExact(m.axes(c.node.linkName, c.node.axis), w.context.links[c.node.linkName],
                AxisVector(c.node.axis).value, q, qd);
    case ControlPoints =>
      JointCount(m.tcp, w.context.tcp, q, qd);
      StackExact(m.points, w.context.points, q, qd);
    case JointLimitMap =>
      JointLimitExact(w.robot, FnOfName(fns, c.node.parents[0]), parents[0], q, qd);
    case CollisionDistance =>
      CollisionRowsExact(w, FnOfName(fns, c.node.parents[0]), parents[0], SENSOR_POINTS, 0, q, qd);
  }

  lemma JointCount(f: Vec -> Vec, g: Geometry, q: Vec, qd: Vec)
    requires Exact(f, g, q, qd)
    ensures |q| == |qd| == JOINTS
  {
  }

  lemma CasadiExact(c: Compiled, w: World, m: Maps, fns: Fns, parents: seq<Geometry>, q: Vec, qd: Vec)
    requires ValidWorld(w) && Standard(w.lib) && |q| == |qd| == JOINTS
    requires AllExact(FnsOf(fns, c.node.parents), parents, q, qd)
    requires forall i | 0 <= i < |parents| :: Shaped(parents[i])
    requires UsesCasadi(c.node.taskMap) && RegularNode(c, w, parents) && EvaluateCasadi(c, w, parents).Ok?
    ensures Exact(NodeFn(c, w, m, fns), EvaluateCasadi(c, w, parents).value, q, qd)
  {
    hide Exact, Standard, ValidWorld, ApplyTaskMap, AllExact, MapFn, MapGeometry;
    StackExact(FnsOf(fns, c.node.parents), parents, q, qd);
    MapExact(ApplyTaskMap(c.node, c.dims).value, w.lib, StackFn(FnsOf(fns, c.node.parents)), Stack(parents), q, qd);
  }

  ghost predicate CacheExact(fns: Fns, cache: Cache, q: Vec, qd: Vec) {
    forall name | name in cache :: name in fns && Exact(fns[name], cache[name], q, qd)
  }

  /** One step of the interpreter keeps the cache exact. */
  lemma NodeExact(c: Compiled, w: World, m: Maps, fns: Fns, cache: Cache, q: Vec, qd: Vec)
    requires ValidWorld(w) && Standard(w.lib) && ContextExact(m, w.context, q, qd)
    requires ValidCache(cache) && CacheExact(fns, cache, q, qd) && EvaluateNode(c, w, cache).Ok?
    requires ParentsOf(cache, c.node.parents).Some? ==> RegularNode(c, w, ParentsOf(cache, c.node.parents).value)
    ensures Exact(NodeFn(c, w, m, fns), EvaluateNode(c, w, cache).value, q, qd)
  {
    hide Exact, Standard, ValidWorld, RegularNode, NodeFn, EvaluateCasadi, EvaluateNative;
    var parents := ParentsOf(cache, c.node.parents).value;
    assert AllExact(FnsOf(fns, c.node.parents), parents, q, qd);
    if UsesCasadi(c.node.taskMap) {
      JointCount(m.tcp, w.context.tcp, q, qd);
      CasadiExact(c, w, m, fns, parents, q, qd);
    } else {
      NativeExact(c, w, m, fns, parents, q, qd);
    }
  }

  /** The maps of all nodes, in evaluation order. */
  ghost function GraphFns(nodes: seq<Compiled>, w: World, m: Maps): Fns
    requires ValidWorld(w)
  {
    if nodes == [] then map["root" := Same]
    else
      var k := |nodes| - 1;
      var fns := GraphFns(nodes[..k], w, m);
      fns[nodes[k].node.name := NodeFn(nodes[k], w, m, fns)]
  }

  /** Every node is regular where it is evaluated. */
  ghost predicate RegularRun(nodes: seq<Compiled>, w: World, q: Vec, qd: Vec)
    requires ValidWorld(w) && |q| == |qd| == JOINTS
  {
    nodes == [] ||
    (var k := |nodes| - 1;
     && RegularRun(nodes[..k], w, q, qd)
     && (EvaluateAll(nodes[..k], w, q, qd).Ok? ==>
         var cache := EvaluateAll(nodes[..k], w, q, qd).value;
         ParentsOf(cache, nodes[k].node.parents).Some? ==>
           RegularNode(nodes[k], w, ParentsOf(cache, nodes[k].node.parents).value)))
  }

  lemma RootExact(q: Vec, qd: Vec)
    requires |q| == |qd| == JOINTS
    ensures Exact(Same, RootGeometry(q, qd), q, qd)
  {
    hide SmoothCurve, AlongPath, Acceleration, Exact, Dots;
    var g := RootGeometry(q, qd);
    DotsIdentity(qd);
    forall qdd: Vec | |qdd| == JOINTS
      ensures SmoothCurve(AlongPath(Same, q, qd, qdd), 0.0, g.x, g.velocity, Acceleration(g, qdd))
    {
      RootCurve(q, qd, qdd);
    }
    ExactIntro(Same, g, q, qd);
  }

  /** Along a joint path the root is the path itself. */
  lemma RootCurve(q: Vec, qd: Vec, qdd: Vec)
    requires |q| == |qd| == |qdd| == JOINTS
    ensures var g := RootGeometry(q, qd);
      SmoothCurve(AlongPath(Same, q, qd, qdd), 0.0, g.x, g.velocity, Acceleration(g, qdd))
  {
    hide Smooth, Dots, Identity, SmoothCurve, Component, Path;
    DotsIdentity(qdd);
    PlusZero(qdd);
    var w := AlongPath(Same, q, qd, qdd);
    forall j | 0 <= j < JOINTS
      ensures Smooth(Component(w, j), 0.0, q[j], qd[j], qdd[j])
    {
      PathComponent(q, qd, qdd, j);
      SmoothExact(Component(w, j), 0.0, q[j], qd[j], qdd[j]);
    }
    assert forall t :: w(t) == Same(Path(q, qd, qdd, t));
    CurveIntro(w, q, qd, qdd);
  }

  lemma PathComponent(q: Vec, qd: Vec, qdd: Vec, j: nat)
    requires |q| == |qd| == |qdd| && j < |q|
    ensures forall t :: Component(AlongPath(Same, q, qd, qdd), j)(t) == Quadratic(q[j], qd[j], qdd[j], t - 0.0)
  {
    forall t
      ensures Component(AlongPath(Same, q, qd, qdd), j)(t) == Quadratic(q[j], qd[j], qdd[j], t - 0.0)
    {
      assert AlongPath(Same, q, qd, qdd)(t) == Same(Path(q, qd, qdd, t)) == Path(q, qd, qdd, t);
      assert Path(q, qd, qdd, t)[j] == q[j] + qd[j] * t + qdd[j] * (t * t) / 2.0;
    }
  }

  /** The interpreter is a second-order chain rule over the whole graph: for every list of nodes it
      evaluates, every cached geometry has velocity `J qd` and true second derivative `J qdd + curvature`. */
  lemma {:induction false} GraphIsExact(nodes: seq<Compiled>, w: World, m: Maps, q: Vec, qd: Vec)
    requires ValidWorld(w) && Standard(w.lib) && |q| == |qd| == JOINTS && ContextExact(m, w.context, q, qd)
    requires EvaluateAll(nodes, w, q, qd).Ok? && RegularRun(nodes, w, q, qd)
    ensures CacheExact(GraphFns(nodes, w, m), EvaluateAll(nodes, w, q, qd).value, q, qd)
  {
    hide Exact, Standard, ValidWorld, RegularNode, NodeFn, EvaluateNode, ContextExact;
    if nodes == [] {
      RootExact(q, qd);
    } else {
      var k := |nodes| - 1;
      GraphIsExact(nodes[..k], w, m, q, qd);
      NodeExact(nodes[k], w, m, GraphFns(nodes[..k], w, m), EvaluateAll(nodes[..k], w, q, qd).value, q, qd);
    }
  }

  // ----- polynomial graphs

  predicate Polynomial(e: Expr) {
    match e
    case Const(_) | Input(_) => true
    case Add(a, b) => Polynomial(a) && Polynomial(b)
    case Mul(a, b) => Polynomial(a) && Polynomial(b)
    case Apply(_, _) => false
  }

  lemma {:induction false} PolynomialRegular(e: Expr, lib: Library, u: Vec)
    requires Polynomial(e)
    ensures Regular(e, lib, u)
  {
    match e
    case Const(_) =>
    case Input(_) =>
    case Add(a, b) => PolynomialRegular(a, lib, u); PolynomialRegular(b, lib, u);
    case Mul(a, b) => PolynomialRegular(a, lib, u); PolynomialRegular(b, lib, u);
  }

  predicate PolynomialMap(m: TaskMap) {
    m.Sum? || m.WeightedSum? || m.Affine? || m.Difference? || m.Concat? || m.Slice? || m.ElemMultiply? || m.SquareMap?
  }

  lemma {:induction false} SumPolynomial(dims: seq<nat>, r: nat, k: nat)
    requires k < |dims|
    ensures Polynomial(SumRow(dims, r, k))
    decreases k
  {
    if k > 0 { SumPolynomial(dims, r, k - 1); }
  }

  lemma {:induction false} WeightedPolynomial(node: RmpNode, dims: seq<nat>, r: nat, k: nat)
    requires k <= |dims|
    ensures Polynomial(WeightedRow(node, dims, r, k))
    decreases k
  {
    if k > 0 {
      WeightedPolynomial(node, dims, r, k - 1);
      assert Polynomial(Mul(Const(WeightOf(node, k - 1)), Input(Offset(dims, k - 1) + Row(dims[k - 1], r))));
    }
  }

  lemma {:induction false} LinearPolynomial(c: Vec, start: nat)
    ensures Polynomial(LinearRow(c, start))
  {
    if c != [] {
      LinearPolynomial(c[1..], start + 1);
      assert Polynomial(Mul(Const(c[0]), Input(start)));
    }
  }

  lemma BiasedPolynomial(node: RmpNode, e: Expr, r: nat)
    requires Polynomial(e)
    ensures Polynomial(Scaled(node, e)) && Polynomial(Scaled(node, WithBias(node, e, r)))
  {
    assert Polynomial(WithBias(node, e, r));
  }

  lemma AffinePolynomial(node: RmpNode, n: nat, r: nat)
    ensures Polynomial(AffineRow(node, n, r))
  {
    hide MatrixRow;
    if node.matrix != [] && n > 0 && |node.matrix| % n == 0 && r < |node.matrix| / n {
      LinearPolynomial(MatrixRow(node.matrix, n, r), 0);
    }
  }

  lemma PolynomialRow(node: RmpNode, dims: seq<nat>, i: nat)
    requires PolynomialMap(node.taskMap) && ApplyTaskMap(node, dims).Some? && i < |ApplyTaskMap(node, dims).value|
    ensures Polynomial(ApplyTaskMap(node, dims).value[i])
  {
    hide Scaled, WithBias;
    match node.taskMap {
      case Sum =>
        SumPolynomial(dims, i, |dims| - 1);
        BiasedPolynomial(node, SumRow(dims, i, |dims| - 1), i);
      case WeightedSum =>
        var r := Row(CommonDim(dims, |dims|).value, i);
        WeightedPolynomial(node, dims, r, |dims|);
        BiasedPolynomial(node, WeightedRow(node, dims, r, |dims|), i);
      case Affine =>
        AffineRowPolynomial(node, TotalDim(dims), i);
      case Difference =>
        var e := Mul(Const(-1.0), Input(dims[0] + Row(dims[1], i)));
        assert Polynomial(e);
        BiasedPolynomial(node, Add(Input(Row(dims[0], i)), e), i);
      case Concat => BiasedPolynomial(node, Input(i), i);
      case Slice => BiasedPolynomial(node, Input(node.sliceStart + i), i);
      case ElemMultiply => BiasedPolynomial(node, Mul(Input(i), Input(dims[0] + i)), i);
      case SquareMap => BiasedPolynomial(node, Mul(Input(i), Input(i)), i);
    }
  }

  lemma AffineRowPolynomial(node: RmpNode, n: nat, i: nat)
    requires AffineRows(node, n).Some? && i < |AffineRows(node, n).value|
    ensures Polynomial(AffineRows(node, n).value[i])
  {
    hide Scaled, WithBias, AffineRow;
    var r := Row(if node.matrix == [] then n else |node.matrix| / n, i);
    AffinePolynomial(node, n, r);
    BiasedPolynomial(node, AffineRow(node, n, r), i);
  }

  /** The rows of a polynomial map are regular everywhere. */
  lemma PolynomialRows(node: RmpNode, dims: seq<nat>, i: nat, lib: Library, u: Vec)
    requires PolynomialMap(node.taskMap) && ApplyTaskMap(node, dims).Some? && i < |ApplyTaskMap(node, dims).value|
    ensures Regular(ApplyTaskMap(node, dims).value[i], lib, u)
  {
    hide Polynomial, Regular, ApplyTaskMap;
    PolynomialRow(node, dims, i);
    PolynomialRegular(ApplyTaskMap(node, dims).value[i], lib, u);
  }

  /** For a graph of polynomial maps and identities over the root, the regularity conditions hold of
      themselves: the interpreter is exact at every `q`, `qd` and `qdd`. */
  lemma {:induction false} PolynomialRun(nodes: seq<Compiled>, w: World, q: Vec, qd: Vec)
    requires ValidWorld(w) && |q| == |qd| == JOINTS
    requires forall i | 0 <= i < |nodes| ::
      PolynomialMap(nodes[i].node.taskMap) || nodes[i].node.taskMap in {IdentityMap, CspaceTargetMap}
    ensures RegularRun(nodes, w, q, qd)
  {
    if nodes != [] {
      var k := |nodes| - 1;
      PolynomialRun(nodes[..k], w, q, qd);
      hide ValidWorld, ApplyTaskMap, Regular;
      if PolynomialMap(nodes[k].node.taskMap) && ApplyTaskMap(nodes[k].node, nodes[k].dims).Some? {
        var es := ApplyTaskMap(nodes[k].node, nodes[k].dims).value;
        forall i, u | 0 <= i < |es|
          ensures Regular(es[i], w.lib, u)
        {
          PolynomialRows(nodes[k].node, nodes[k].dims, i, w.lib, u);
        }
      }
    }
  }
}
