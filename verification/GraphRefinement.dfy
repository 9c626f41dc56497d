/** On the default graph the interpreter refines the hand-written solver: same root metric, and forces that
    differ exactly by the pulled-back curvatures, which the hand-written solver takes as zero. */
module GraphRefinement {
  import opened LinearAlgebra
  import opened RmpConfig
  import opened Elementary
  import opened ChainRule
  import opened TaskMaps
  import opened TaskGraph
  import opened CollisionExact
  import opened RmpLeaves
  import opened DirectSolver
  import opened EigenSolver

  // ----- dropping curvature

  function Flat(t: Term): (r: Term)
    requires ValidTerm(t)
    ensures ValidTerm(r)
  {
    t.(curvature := Zero(|t.curvature|))
  }

  function FlatAll(ts: seq<Term>): (r: seq<Term>)
    requires ValidTerms(ts)
    ensures |r| == |ts| && ValidTerms(r)
  {
    seq(|ts|, i requires 0 <= i < |ts| => Flat(ts[i]))
  }

  /** `J^T M c`. */
  function TermBend(t: Term): (f: Vec)
    requires ValidTerm(t)
    ensures |f| == JOINTS
  {
    Combine(t.jacobian, Dots(t.metric, t.curvature), JOINTS)
  }

  /** The sum of `J^T M c` over the terms. */
  function CurvatureForce(ts: seq<Term>): (f: Vec)
    requires ValidTerms(ts)
    ensures |f| == JOINTS
  {
    if ts == [] then Zero(JOINTS)
    else
      var k := |ts| - 1;
      Plus(CurvatureForce(ts[..k]), TermBend(ts[k]))
  }

  lemma FlatForce(t: Term)
    requires ValidTerm(t)
    ensures TermMetric(Flat(t)) == TermMetric(t)
    ensures TermForce(false, Flat(t)) == Plus(TermForce(false, t), TermBend(t))
  {
    hide Combine, Dot;
    var n := |t.curvature|;
    assert Minus(t.acceleration, Zero(n)) == Plus(Minus(t.acceleration, t.curvature), t.curvature);
    DotsPlus(t.metric, Minus(t.acceleration, t.curvature), t.curvature);
    CombinePlus(t.jacobian, Dots(t.metric, Minus(t.acceleration, t.curvature)), Dots(t.metric, t.curvature), JOINTS);
  }

  lemma {:induction false} FlatRoot(ts: seq<Term>)
    requires ValidTerms(ts)
    ensures RootMetric(FlatAll(ts)) == RootMetric(ts)
    ensures RootForce(false, FlatAll(ts)) == Plus(RootForce(false, ts), CurvatureForce(ts))
  {
    hide TermForce, TermMetric, ValidTerm, TermBend, Flat;
    if ts == [] {
      PlusZero(Zero(JOINTS));
    } else {
      var k := |ts| - 1;
      assert FlatAll(ts)[..k] == FlatAll(ts[..k]) && FlatAll(ts)[k] == Flat(ts[k]);
      FlatRoot(ts[..k]);
      FlatForce(ts[k]);
      PlusPairs(RootForce(false, ts[..k]), CurvatureForce(ts[..k]), TermForce(false, ts[k]), TermBend(ts[k]));
    }
  }

  // ----- reordering blocks

  lemma {:induction false} RootConcat(a: seq<Term>, b: seq<Term>)
    requires ValidTerms(a) && ValidTerms(b)
    ensures ValidTerms(a + b)
    ensures RootMetric(a + b) == MatPlus(RootMetric(a), RootMetric(b))
    ensures RootForce(false, a + b) == Plus(RootForce(false, a), RootForce(false, b))
  {
    hide TermForce, ValidTerm, TermMetric;
    if b == [] {
      assert a + b == a;
      PlusZero(RootForce(false, a));
      MatPlusZero(RootMetric(a));
    } else {
      var k := |b| - 1;
      RootConcat(a, b[..k]);
      assert (a + b)[..|a| + k] == a + b[..k] && (a + b)[|a| + k] == b[k];
      PlusAssociative(RootForce(false, a), RootForce(false, b[..k]), TermForce(false, b[k]));
      MatPlusAssociative(RootMetric(a), RootMetric(b[..k]), TermMetric(b[k]));
    }
  }

  lemma MatPlusZero(m: seq<Vec>)
    requires |m| == JOINTS && IsMatrix(m, JOINTS)
    ensures MatPlus(m, ZeroMatrix(JOINTS, JOINTS)) == m
  {
    forall i | 0 <= i < JOINTS
      ensures Plus(m[i], Zero(JOINTS)) == m[i]
    {
    }
  }

  lemma PlusAssociative(a: Vec, b: Vec, c: Vec)
    requires |a| == |b| == |c|
    ensures Plus(Plus(a, b), c) == Plus(a, Plus(b, c)) && Plus(a, b) == Plus(b, a)
  {
  }

  lemma MatPlusAssociative(a: seq<Vec>, b: seq<Vec>, c: seq<Vec>)
    requires |a| == |b| == |c| == JOINTS && IsMatrix(a, JOINTS) && IsMatrix(b, JOINTS) && IsMatrix(c, JOINTS)
    ensures MatPlus(MatPlus(a, b), c) == MatPlus(a, MatPlus(b, c)) && MatPlus(a, b) == MatPlus(b, a)
  {
    forall i | 0 <= i < JOINTS
      ensures Plus(Plus(a[i], b[i]), c[i]) == Plus(a[i], Plus(b[i], c[i])) && Plus(a[i], b[i]) == Plus(b[i], a[i])
    {
      PlusAssociative(a[i], b[i], c[i]);
    }
  }

  ghost predicate SameRoot(a: seq<Term>, b: seq<Term>)
    requires ValidTerms(a) && ValidTerms(b)
  {
    RootMetric(a) == RootMetric(b) && RootForce(false, a) == RootForce(false, b)
  }

  /** Swapping two neighbouring blocks of terms leaves the root system as it is. */
  lemma SwapBlocks(a: seq<Term>, b: seq<Term>, c: seq<Term>, d: seq<Term>)
    requires ValidTerms(a) && ValidTerms(b) && ValidTerms(c) && ValidTerms(d)
    ensures ValidTerms(a + b + c + d) && ValidTerms(a + c + b + d) && SameRoot(a + b + c + d, a + c + b + d)
  {
    hide RootMetric, RootForce, ValidTerms, MatPlus, Plus;
    RootConcat(a, b);
    RootConcat(a + b, c);
    RootConcat(a + b + c, d);
    RootConcat(a, c);
    RootConcat(a + c, b);
    RootConcat(a + c + b, d);
    PlusAssociative(RootForce(false, a), RootForce(false, b), RootForce(false, c));
    PlusAssociative(RootForce(false, a), RootForce(false, c), RootForce(false, b));
    PlusAssociative(RootForce(false, b), RootForce(false, c), RootForce(false, b));
    MatPlusAssociative(RootMetric(a), RootMetric(b), RootMetric(c));
    MatPlusAssociative(RootMetric(a), RootMetric(c), RootMetric(b));
    MatPlusAssociative(RootMetric(b), RootMetric(c), RootMetric(b));
  }

  lemma SplitAt(b: seq<Term>, i: nat)
    requires i < |b|
    ensures b == b[..i] + [b[i]] + b[i + 1..]
    ensures multiset(b[..i] + b[i + 1..]) == multiset(b) - multiset{b[i]}
  {
    assert b == b[..i] + [b[i]] + b[i + 1..];
    assert multiset(b) == multiset(b[..i]) + multiset{b[i]} + multiset(b[i + 1..]);
  }

  lemma LastOf(a: seq<Term>)
    requires a != []
    ensures a == a[..|a| - 1] + [a[|a| - 1]] && multiset(a[..|a| - 1]) == multiset(a) - multiset{a[|a| - 1]}
  {
    SplitAt(a, |a| - 1);
    assert a[..|a| - 1] + a[|a|..] == a[..|a| - 1];
  }

  lemma NothingToAdd()
    ensures SameRoot([], [])
  {
  }

  /** The root system does not depend on the order in which the terms are accumulated. */
  lemma {:induction false} RootPermuted(a: seq<Term>, b: seq<Term>)
    requires ValidTerms(a) && ValidTerms(b) && multiset(a) == multiset(b)
    ensures SameRoot(a, b)
  {
    hide RootMetric, RootForce, MatPlus, Plus, ValidTerm, SameRoot;
    if a == [] {
      NothingToAdd();
      assert |multiset(b)| == 0;
      assert b == [];
    } else {
      var k := |a| - 1;
      var t := a[k];
      assert t in multiset(b);
      var i :| 0 <= i < |b| && b[i] == t;
      var b1, b2 := b[..i], b[i + 1..];
      LastOf(a);
      SplitAt(b, i);
      RootPermuted(a[..k], b1 + b2);
      MovedLast(a[..k], b1, b2, t);
    }
  }

  lemma MovedLast(a: seq<Term>, b1: seq<Term>, b2: seq<Term>, t: Term)
    requires ValidTerms(a) && ValidTerms(b1) && ValidTerms(b2) && ValidTerm(t) && SameRoot(a, b1 + b2)
    ensures SameRoot(a + [t], b1 + [t] + b2)
  {
    hide RootMetric, RootForce, MatPlus, Plus, ValidTerm;
    RootConcat(a, [t]);
    RootConcat(b1 + b2, [t]);
    SwapBlocks(b1, [t], b2, []);
    assert b1 + [t] + b2 + [] == b1 + [t] + b2 && b1 + b2 + [t] + [] == b1 + b2 + [t];
  }

  // ----- leaf by leaf

  lemma SignedRow(j: nat, s: real)
    requires j < JOINTS
    ensures Zero(JOINTS)[j := s] == Scale(s, Unit(JOINTS, j))
  {
  }

  lemma FlatRowTerm(g: Geometry, policy: (real, real) -> Option<Scalars>, k: nat)
    requires Shaped(g) && k < |g.x|
    ensures var r := policy(g.x[k], g.velocity[k]);
            var next := if r.None? then [] else [ScalarTerm(g.jacobian[k], r.value, 0.0)];
            FlatAll(RowTerms(g, policy, k + 1)) == FlatAll(RowTerms(g, policy, k)) + next
  {
    var r := policy(g.x[k], g.velocity[k]);
    var front := RowTerms(g, policy, k);
    if r.None? {
      assert RowTerms(g, policy, k + 1) == front + [];
      assert front + [] == front;
    } else {
      var t := ScalarTerm(g.jacobian[k], r.value, g.curvature[k]);
      assert RowTerms(g, policy, k + 1) == front + [t];
      FlatConcat(front, [t]);
      assert Flat(t).curvature == [0.0] by { assert Zero(1) == [0.0]; }
      assert FlatAll([t]) == [Flat(t)];
    }
  }

  lemma FlatConcat(a: seq<Term>, b: seq<Term>)
    requires ValidTerms(a) && ValidTerms(b)
    ensures ValidTerms(a + b) && FlatAll(a + b) == FlatAll(a) + FlatAll(b)
  {
    hide Flat;
  }

  ghost function RootOf(s: Scene): (g: Geometry)
    requires ValidScene(s)
    ensures Shaped(g)
  {
    RootGeometry(s.q, s.qd)
  }

  lemma {:induction false} LimitRowsAgree(s: Scene, joint: nat, sign: nat)
    requires ValidScene(s) && (joint < JOINTS || sign == 0) && joint <= JOINTS && sign <= 2
    ensures FlatAll(RowTerms(JointLimitGeometry(s.robot, RootOf(s)), LimitPolicy(s.params.limit, s.lib), 2 * joint + sign))
         == LimitTermsOf(s, joint, sign)
    decreases joint, sign
  {
    hide JointLimitScalars, ScalarTerm, FlatAll, LimitTermOf, RowTerms;
    var g, policy := JointLimitGeometry(s.robot, RootOf(s)), LimitPolicy(s.params.limit, s.lib);
    if sign > 0 {
      var i := 2 * joint + sign - 1;
      LimitRowsAgree(s, joint, sign - 1);
      FlatRowTerm(g, policy, i);
      LimitRow(s, joint, sign - 1);
    } else if joint > 0 {
      LimitRowsAgree(s, joint - 1, 2);
    } else {
      NoRows(g, policy);
    }
  }

  lemma NoRows(g: Geometry, policy: (real, real) -> Option<Scalars>)
    requires Shaped(g)
    ensures FlatAll(RowTerms(g, policy, 0)) == []
  {
  }

  lemma LimitRow(s: Scene, joint: nat, sign: nat)
    requires ValidScene(s) && joint < JOINTS && sign < 2
    ensures var g, i := JointLimitGeometry(s.robot, RootOf(s)), 2 * joint + sign;
            var r := LimitPolicy(s.params.limit, s.lib)(g.x[i], g.velocity[i]);
            r.Some? && ScalarTerm(g.jacobian[i], r.value, 0.0) == LimitTermOf(s, joint, sign)
  {
    hide JointLimitScalars, ScalarTerm;
    var i := 2 * joint + sign;
    assert i / 2 == joint && i % 2 == sign;
    SignedRow(joint, if sign == 0 then -1.0 else 1.0);
  }

  lemma {:induction false} CapRowsAgree(s: Scene, k: nat)
    requires ValidScene(s) && k <= JOINTS
    ensures FlatAll(RowTerms(RootOf(s), CapPolicy(s.params.cap), k)) == CapTermsOf(s, k)
  {
    hide VelocityCapScalars, ScalarTerm, FlatAll;
    if k == 0 {
      NoRows(RootOf(s), CapPolicy(s.params.cap));
    } else {
      CapRowsAgree(s, k - 1);
      FlatRowTerm(RootOf(s), CapPolicy(s.params.cap), k - 1);
      assert Zero(JOINTS)[k - 1 := 1.0] == Unit(JOINTS, k - 1);
      assert RootOf(s).jacobian[k - 1] == Unit(JOINTS, k - 1);
    }
  }

  lemma {:induction false} PrefixRows(a: Geometry, b: Geometry, policy: (real, real) -> Option<Scalars>, k: nat)
    requires Shaped(a) && Shaped(b) && k <= |a.x|
    ensures RowTerms(Append(a, b), policy, k) == RowTerms(a, policy, k)
  {
    hide ScalarTerm;
    if k > 0 { PrefixRows(a, b, policy, k - 1); }
  }

  lemma StackPart(ps: seq<Geometry>, k: nat)
    requires k < |ps| && forall i | 0 <= i < |ps| :: Shaped(ps[i]) && |ps[i].x| == 3
    ensures |Stack(ps).x| == 3 * |ps| && Part(Stack(ps), 3 * k, 3) == ps[k]
  {
    hide Shaped, Part, Append;
    StackSize(ps);
    StackSize(ps[1..]);
    if k == 0 {
      FirstPart(ps[0], Stack(ps[1..]));
    } else {
      StackPart(ps[1..], k - 1);
      PartOfAppend(ps[0], Stack(ps[1..]), 3 * (k - 1));
    }
  }

  lemma FirstPart(a: Geometry, b: Geometry)
    requires Shaped(a) && |a.x| == 3 && Shaped(b)
    ensures |Append(a, b).x| == 3 + |b.x| && Part(Append(a, b), 0, 3) == a
  {
  }

  lemma {:induction false} StackSize(ps: seq<Geometry>)
    requires forall i | 0 <= i < |ps| :: Shaped(ps[i]) && |ps[i].x| == 3
    ensures |Stack(ps).x| == 3 * |ps|
  {
    if ps != [] { StackSize(ps[1..]); }
  }

  lemma PartOfAppend(a: Geometry, b: Geometry, start: nat)
    requires Shaped(a) && |a.x| == 3 && Shaped(b) && start + 3 <= |b.x|
    ensures Part(Append(a, b), 3 + start, 3) == Part(b, start, 3)
  {
  }

  /** The scene and the world describe the same arm, whose frames move with `J qd`. */
  ghost predicate SharedKinematics(s: Scene, w: World) {
    && ValidScene(s) && ValidWorld(w)
    && w.lib == s.lib && w.context.tcp == s.tcp && w.context.points == s.points && w.robot == s.robot
    && w.obstacles == s.obstacles
    && s.tcp.velocity == Dots(s.tcp.jacobian, s.qd)
    && forall k | 0 <= k < |s.points| :: s.points[k].velocity == Dots(s.points[k].jacobian, s.qd)
  }

  function RowDistance(s: Scene, k: nat, o: nat): real
    requires ValidScene(s) && k < |s.points| && o < |s.obstacles|
  {
    SignedDistance(s.lib, s.points[k].x, s.obstacles[o], s.robot.pointRadii[k], s.robot.margin)
  }

  /** How fast the point moves away from the obstacle. */
  function RowSpeed(s: Scene, k: nat, o: nat): real
    requires ValidScene(s) && k < |s.points| && o < |s.obstacles|
  {
    Dot(RowGradient(s.lib, s.points[k], s.obstacles[o]), s.qd)
  }

  /** The term the interpreter adds for one row: in a penetrating row it takes the speed as zero. */
  function GraphTermOf(s: Scene, k: nat, o: nat): (t: Term)
    requires ValidScene(s) && k < |s.points| && o < |s.obstacles|
    ensures ValidTerm(t)
  {
    var d := RowDistance(s, k, o);
    ScalarTerm(RowGradient(s.lib, s.points[k], s.obstacles[o]),
               CollisionScalars(s.params.collision, s.lib, Max(d, 0.0), if d > 0.0 then RowSpeed(s, k, o) else 0.0), 0.0)
  }

  function GraphTermsOf(s: Scene, k: nat, o: nat): (ts: seq<Term>)
    requires ValidScene(s) && k <= |s.points| && o <= |s.obstacles| && (k < |s.points| || o == 0)
    ensures ValidTerms(ts)
    decreases k, o
  {
    if o > 0 then GraphTermsOf(s, k, o - 1) + [GraphTermOf(s, k, o - 1)]
    else if k > 0 then GraphTermsOf(s, k - 1, |s.obstacles|)
    else []
  }

  /** Every row is clear, or its point moves neither towards nor away from the obstacle. */
  ghost predicate Steady(s: Scene)
    requires ValidScene(s)
  {
    forall k, o | 0 <= k < |s.points| && 0 <= o < |s.obstacles| :: RowDistance(s, k, o) > 0.0 || RowSpeed(s, k, o) == 0.0
  }

  lemma {:induction false} SteadyTerms(s: Scene, k: nat, o: nat)
    requires ValidScene(s) && Steady(s) && k <= |s.points| && o <= |s.obstacles| && (k < |s.points| || o == 0)
    ensures GraphTermsOf(s, k, o) == CollisionTermsOf(s, k, o)
    decreases k, o
  {
    hide ValidScene, CollisionScalars, ScalarTerm, RowGradient, RowDistance, RowSpeed;
    if o > 0 {
      SteadyTerms(s, k, o - 1);
      SteadyTerm(s, k, o - 1);
    } else if k > 0 {
      SteadyTerms(s, k - 1, |s.obstacles|);
    }
  }

  lemma SteadyTerm(s: Scene, k: nat, o: nat)
    requires ValidScene(s) && k < |s.points| && o < |s.obstacles|
    ensures RowDistance(s, k, o) > 0.0 || RowSpeed(s, k, o) == 0.0 ==> GraphTermOf(s, k, o) == CollisionTermOf(s, k, o)
  {
    hide CollisionScalars, ScalarTerm, RowGradient, SignedDistance, Dot;
  }

  /** The interpreter's row has that clearance, that Jacobian and that velocity, penetrating or not. */
  lemma GraphRow(s: Scene, w: World, k: nat, o: nat)
    requires SharedKinematics(s, w) && k < |s.points| && o < |s.obstacles|
    ensures var row := CollisionRow(w.lib, s.points[k], w.obstacles[o], w.robot.pointRadii[k], w.robot.margin);
            var scalars := CollisionScalars(s.params.collision, s.lib, row.x[0], row.velocity[0]);
            ScalarTerm(row.jacobian[0], scalars, 0.0) == GraphTermOf(s, k, o)
  {
    hide CollisionScalars, ScalarTerm, Dot, Combine, Form, Projector, CenterDistance, ValidWorld, Minus;
    var p, ob := s.points[k], s.obstacles[o];
    SceneParts(s);
    PointRows(p);
    var n := Direction(CenterDistance(s.lib, p.x, ob), Minus(p.x, ob.center));
    Adjoint(p.jacobian, n, s.qd);
  }

  lemma {:induction false} CollisionRowsAgree(s: Scene, w: World, k: nat, o: nat)
    requires SharedKinematics(s, w) && |s.points| == SENSOR_POINTS
    requires k <= SENSOR_POINTS && o <= |s.obstacles| && (k < SENSOR_POINTS || o == 0)
    ensures Shaped(Stack(s.points)) && |Stack(s.points).x| == 3 * SENSOR_POINTS
    ensures FlatAll(RowTerms(CollisionRows(w, Stack(s.points), k, o), CollisionPolicy(s.params.collision, s.lib), k * |s.obstacles| + o))
         == GraphTermsOf(s, k, o)
    decreases k, o
  {
    hide FlatAll, CollisionRow, GraphTermOf, ValidWorld, ValidScene, Shaped, Stack, Part, IsPoint, CollisionPolicy,
      SharedKinematics, Append;
    SharedParts(s, w);
    PointsParts(s);
    StackSize(s.points);
    var p, policy, n := Stack(s.points), CollisionPolicy(s.params.collision, s.lib), |s.obstacles|;
    if o > 0 {
      CollisionRowsAgree(s, w, k, o - 1);
      NextRowAgrees(s, w, k, o - 1);
    } else if k > 0 {
      CollisionRowsAgree(s, w, k - 1, n);
      assert (k - 1) * n + n == k * n;
    } else {
      NoRows(CollisionRows(w, p, 0, 0), policy);
    }
  }

  lemma NextRowAgrees(s: Scene, w: World, k: nat, o: nat)
    requires SharedKinematics(s, w) && |s.points| == SENSOR_POINTS && k < SENSOR_POINTS && o < |s.obstacles|
    requires Shaped(Stack(s.points)) && |Stack(s.points).x| == 3 * SENSOR_POINTS
    ensures FlatAll(RowTerms(CollisionRows(w, Stack(s.points), k, o + 1), CollisionPolicy(s.params.collision, s.lib), k * |s.obstacles| + o + 1))
         == FlatAll(RowTerms(CollisionRows(w, Stack(s.points), k, o), CollisionPolicy(s.params.collision, s.lib), k * |s.obstacles| + o))
            + [GraphTermOf(s, k, o)]
  {
    hide FlatAll, CollisionRow, GraphTermOf, ValidWorld, ValidScene, Stack, Part, IsPoint, RowTerms, Append,
      CollisionScalars, SharedKinematics, Shaped;
    SharedParts(s, w);
    PointsParts(s);
    StackPart(s.points, k);
    var before := CollisionRows(w, Stack(s.points), k, o);
    var row := CollisionRow(w.lib, s.points[k], w.obstacles[o], w.robot.pointRadii[k], w.robot.margin);
    assert CollisionRows(w, Stack(s.points), k, o + 1) == Append(before, row);
    hide CollisionRows;
    AppendedRow(before, row, CollisionPolicy(s.params.collision, s.lib), k * |s.obstacles| + o);
    GraphRow(s, w, k, o);
  }

  lemma PointsParts(s: Scene)
    requires ValidScene(s)
    ensures forall i | 0 <= i < |s.points| :: IsPoint(s.points[i]) && Shaped(s.points[i]) && |s.points[i].x| == 3
  {
  }

  lemma SharedParts(s: Scene, w: World)
    requires SharedKinematics(s, w)
    ensures ValidScene(s) && ValidWorld(w) && w.lib == s.lib && w.context.points == s.points && w.robot == s.robot
    ensures w.obstacles == s.obstacles && |s.robot.pointRadii| == |s.points|
  {
  }

  lemma AppendedRow(before: Geometry, row: Geometry, policy: (real, real) -> Option<Scalars>, k: nat)
    requires Shaped(before) && Shaped(row) && |before.x| == k && |row.x| == 1
    requires policy(row.x[0], row.velocity[0]).Some?
    ensures FlatAll(RowTerms(Append(before, row), policy, k + 1))
         == FlatAll(RowTerms(before, policy, k))
            + [ScalarTerm(row.jacobian[0], policy(row.x[0], row.velocity[0]).value, 0.0)]
  {
    hide ScalarTerm, FlatAll;
    PrefixRows(before, row, policy, k);
    FlatRowTerm(Append(before, row), policy, k);
  }

  // ----- the gap penetrating rows leave

  /** What the hand-written row's metric has beyond the interpreter's. */
  function GapTermOf(s: Scene, k: nat, o: nat): (t: Term)
    requires ValidScene(s) && k < |s.points| && o < |s.obstacles|
    ensures ValidTerm(t)
  {
    ScalarTerm(RowGradient(s.lib, s.points[k], s.obstacles[o]),
               Scalars(CollisionTermOf(s, k, o).metric[0][0] - GraphTermOf(s, k, o).metric[0][0], 0.0), 0.0)
  }

  function GapTermsOf(s: Scene, k: nat, o: nat): (ts: seq<Term>)
    requires ValidScene(s) && k <= |s.points| && o <= |s.obstacles| && (k < |s.points| || o == 0)
    ensures ValidTerms(ts)
    decreases k, o
  {
    if o > 0 then GapTermsOf(s, k, o - 1) + [GapTermOf(s, k, o - 1)]
    else if k > 0 then GapTermsOf(s, k - 1, |s.obstacles|)
    else []
  }

  lemma GapMetric(s: Scene, k: nat, o: nat)
    requires ValidScene(s) && k < |s.points| && o < |s.obstacles|
    ensures TermMetric(CollisionTermOf(s, k, o)) == MatPlus(TermMetric(GraphTermOf(s, k, o)), TermMetric(GapTermOf(s, k, o)))
  {
    hide CollisionScalars, RowGradient, SignedDistance, Dot, TermMetric;
    var j := RowGradient(s.lib, s.points[k], s.obstacles[o]);
    var d := RowDistance(s, k, o);
    var a := CollisionScalars(s.params.collision, s.lib, Max(d, 0.0), RowSpeed(s, k, o));
    var b := CollisionScalars(s.params.collision, s.lib, Max(d, 0.0), if d > 0.0 then RowSpeed(s, k, o) else 0.0);
    ScalarMetric(j, a, 0.0);
    ScalarMetric(j, b, 0.0);
    ScalarMetric(j, Scalars(a.metric - b.metric, 0.0), 0.0);
    OuterSum(j, a.metric, b.metric, a.metric - b.metric);
  }

  lemma OuterSum(j: Vec, a: real, b: real, c: real)
    requires a == b + c && |j| == JOINTS
    ensures Outer(j, Scale(a, j)) == MatPlus(Outer(j, Scale(b, j)), Outer(j, Scale(c, j)))
  {
    ScaleOfSum(b, c, j);
    forall i | 0 <= i < |j|
      ensures Outer(j, Scale(a, j))[i] == MatPlus(Outer(j, Scale(b, j)), Outer(j, Scale(c, j)))[i]
    {
      ScaleOfPlus(j[i], Scale(b, j), Scale(c, j));
    }
  }

  lemma {:induction false} GapRows(s: Scene, k: nat, o: nat)
    requires ValidScene(s) && k <= |s.points| && o <= |s.obstacles| && (k < |s.points| || o == 0)
    ensures RootMetric(CollisionTermsOf(s, k, o)) == MatPlus(RootMetric(GraphTermsOf(s, k, o)), RootMetric(GapTermsOf(s, k, o)))
    decreases k, o
  {
    hide ValidScene, TermMetric, CollisionTermOf, GraphTermOf, GapTermOf, RootMetric, MatPlus, ValidTerm;
    if o > 0 {
      GapRows(s, k, o - 1);
      GapMetric(s, k, o - 1);
      RootSnoc(CollisionTermsOf(s, k, o - 1), CollisionTermOf(s, k, o - 1));
      RootSnoc(GraphTermsOf(s, k, o - 1), GraphTermOf(s, k, o - 1));
      RootSnoc(GapTermsOf(s, k, o - 1), GapTermOf(s, k, o - 1));
      MatPlusPairs(RootMetric(GraphTermsOf(s, k, o - 1)), RootMetric(GapTermsOf(s, k, o - 1)),
                   TermMetric(GraphTermOf(s, k, o - 1)), TermMetric(GapTermOf(s, k, o - 1)));
    } else if k > 0 {
      GapRows(s, k - 1, |s.obstacles|);
    } else {
      NoTerms();
    }
  }

  lemma NoTerms()
    ensures RootMetric([]) == MatPlus(RootMetric([]), RootMetric([]))
  {
    MatPlusZero(ZeroMatrix(JOINTS, JOINTS));
  }

  lemma RootSnoc(ts: seq<Term>, t: Term)
    requires ValidTerms(ts) && ValidTerm(t)
    ensures ValidTerms(ts + [t]) && RootMetric(ts + [t]) == MatPlus(RootMetric(ts), TermMetric(t))
  {
    hide TermMetric, ValidTerm;
    assert (ts + [t])[..|ts|] == ts;
  }

  lemma MatPlusPairs(a: seq<Vec>, b: seq<Vec>, c: seq<Vec>, d: seq<Vec>)
    requires |a| == |b| == |c| == |d| == JOINTS
    requires IsMatrix(a, JOINTS) && IsMatrix(b, JOINTS) && IsMatrix(c, JOINTS) && IsMatrix(d, JOINTS)
    ensures MatPlus(MatPlus(a, b), MatPlus(c, d)) == MatPlus(MatPlus(a, c), MatPlus(b, d))
  {
    hide Plus;
    forall i | 0 <= i < JOINTS
      ensures Plus(Plus(a[i], b[i]), Plus(c[i], d[i])) == Plus(Plus(a[i], c[i]), Plus(b[i], d[i]))
    {
      PlusPairs(a[i], b[i], c[i], d[i]);
    }
  }

  lemma MatPlusCancels(a: seq<Vec>, b: seq<Vec>)
    requires |a| == |b| == JOINTS && IsMatrix(a, JOINTS) && IsMatrix(b, JOINTS)
    ensures MatPlus(a, b) == a <==> b == ZeroMatrix(JOINTS, JOINTS)
  {
    MatPlusZero(a);
    if MatPlus(a, b) == a {
      forall i | 0 <= i < JOINTS
        ensures b[i] == Zero(JOINTS)
      {
        assert Plus(a[i], b[i]) == a[i];
        forall c | 0 <= c < JOINTS
          ensures b[i][c] == 0.0
        {
          assert Plus(a[i], b[i])[c] == a[i][c];
        }
      }
    }
  }

  /** The root metrics of two lists differ by that of a third; so they agree if and only if that one is zero. */
  ghost predicate Apart(a: seq<Term>, b: seq<Term>, gap: seq<Term>)
    requires ValidTerms(a) && ValidTerms(b) && ValidTerms(gap)
  {
    && RootMetric(a) == MatPlus(RootMetric(b), RootMetric(gap))
    && (RootMetric(a) == RootMetric(b) <==> RootMetric(gap) == ZeroMatrix(JOINTS, JOINTS))
  }

  /** Blocks around the collision rows keep the gap. */
  lemma GapAround(c: seq<Term>, g: seq<Term>, gap: seq<Term>, rest: seq<Term>)
    requires ValidTerms(c) && ValidTerms(g) && ValidTerms(gap) && ValidTerms(rest)
    requires RootMetric(c) == MatPlus(RootMetric(g), RootMetric(gap))
    ensures ValidTerms(c + rest) && ValidTerms(g + rest)
    ensures RootMetric(c + rest) == MatPlus(RootMetric(g + rest), RootMetric(gap))
  {
    hide RootMetric, RootForce, ValidTerms, MatPlus, Plus;
    RootConcat(c, rest);
    RootConcat(g, rest);
    MatPlusAssociative(RootMetric(g), RootMetric(gap), RootMetric(rest));
    MatPlusAssociative(RootMetric(gap), RootMetric(rest), RootMetric(rest));
    MatPlusAssociative(RootMetric(g), RootMetric(rest), RootMetric(gap));
  }
}
