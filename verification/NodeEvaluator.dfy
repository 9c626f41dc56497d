/** The loops that evaluate one node, each proved against the geometry it should produce. */
module NodeEvaluator {
  import opened LinearAlgebra
  import opened RmpConfig
  import opened Elementary
  import opened TaskExpr
  import opened ChainRule
  import opened TaskMaps
  import opened TaskGraph

  // ----- compiled maps

  /** The outputs of one compiled function: value, velocity, local curvature, and a Jacobian block per parent. */
  datatype Outputs = Outputs(value: Vec, velocity: Vec, curvature: Vec, blocks: seq<seq<Vec>>)

  function Block(es: seq<Expr>, lib: Library, x: Vec, start: nat, n: nat): (r: seq<Vec>)
    requires start + n <= |x|
    ensures |r| == |es| && IsMatrix(r, n)
  {
    seq(|es|, i requires 0 <= i < |es| => Gradient(es[i], lib, x)[start..start + n])
  }

  lemma AppendAssociates(a: Geometry, b: Geometry, c: Geometry)
    requires Shaped(a) && Shaped(b) && Shaped(c)
    ensures Append(Append(a, b), c) == Append(a, Append(b, c))
    ensures Append(Empty, a) == a && Append(a, Empty) == a
  {
  }

  lemma {:induction false} StackSnoc(ps: seq<Geometry>, p: Geometry)
    requires Shaped(p) && forall i | 0 <= i < |ps| :: Shaped(ps[i])
    ensures Stack(ps + [p]) == Append(Stack(ps), p)
  {
    hide Shaped, Append;
    if ps == [] {
      assert [p][1..] == [] && ps + [p] == [p];
      AppendAssociates(p, p, p);
    } else {
      assert (ps + [p])[1..] == ps[1..] + [p];
      StackSnoc(ps[1..], p);
      AppendAssociates(ps[0], Stack(ps[1..]), p);
    }
  }

  lemma StackPrefix(ps: seq<Geometry>, k: nat)
    requires k < |ps| && forall i | 0 <= i < |ps| :: Shaped(ps[i])
    ensures Stack(ps[..k + 1]) == Append(Stack(ps[..k]), ps[k])
  {
    assert ps[..k + 1] == ps[..k] + [ps[k]];
    StackSnoc(ps[..k], ps[k]);
  }

  lemma {:induction false} StackOffset(ps: seq<Geometry>, k: nat)
    requires k <= |ps| && forall i | 0 <= i < |ps| :: Shaped(ps[i])
    ensures |Stack(ps[..k]).x| <= |Stack(ps).x| && Stack(ps[..k]).x == Stack(ps).x[..|Stack(ps[..k]).x|]
    decreases |ps| - k
  {
    if k == |ps| {
      assert ps[..k] == ps;
    } else {
      StackOffset(ps, k + 1);
      StackPrefix(ps, k);
    }
  }

  /** Row `i` of the Jacobian and curvature accumulated from the first `k` parents. */
  ghost function RowSoFar(e: Expr, lib: Library, ps: seq<Geometry>, k: nat): Vec
    requires k <= |ps| && forall i | 0 <= i < |ps| :: Shaped(ps[i])
  {
    StackOffset(ps, k);
    Combine(Stack(ps[..k]).jacobian, Gradient(e, lib, Stack(ps).x)[..|Stack(ps[..k]).x|], JOINTS)
  }

  ghost function BendSoFar(e: Expr, lib: Library, ps: seq<Geometry>, k: nat): real
    requires k <= |ps| && forall i | 0 <= i < |ps| :: Shaped(ps[i])
  {
    StackOffset(ps, k);
    Dot(Gradient(e, lib, Stack(ps).x)[..|Stack(ps[..k]).x|], Stack(ps[..k]).curvature)
  }

  ghost function SpeedSoFar(e: Expr, lib: Library, ps: seq<Geometry>, k: nat): real
    requires k <= |ps| && forall i | 0 <= i < |ps| :: Shaped(ps[i])
  {
    StackOffset(ps, k);
    Dot(Gradient(e, lib, Stack(ps).x)[..|Stack(ps[..k]).x|], Stack(ps[..k]).velocity)
  }

  /** What one more parent adds: its block of the gradient chained with its own Jacobian. */
  lemma SoFarStep(e: Expr, lib: Library, ps: seq<Geometry>, k: nat, start: nat, block: Vec)
    requires k < |ps| && forall i | 0 <= i < |ps| :: Shaped(ps[i])
    requires start == |Stack(ps[..k]).x| && start + |ps[k].x| <= |Stack(ps).x|
    requires block == Gradient(e, lib, Stack(ps).x)[start..start + |ps[k].x|]
    ensures RowSoFar(e, lib, ps, k + 1) == Plus(RowSoFar(e, lib, ps, k), Combine(ps[k].jacobian, block, JOINTS))
    ensures BendSoFar(e, lib, ps, k + 1) == BendSoFar(e, lib, ps, k) + Dot(block, ps[k].curvature)
    ensures SpeedSoFar(e, lib, ps, k + 1) == SpeedSoFar(e, lib, ps, k) + Dot(block, ps[k].velocity)
  {
    hide Combine, Dot, Gradient;
    var g := Gradient(e, lib, Stack(ps).x);
    var s := Stack(ps[..k]);
    StackPrefix(ps, k);
    assert g[..start + |ps[k].x|] == g[..start] + block;
    CombineConcat(s.jacobian, ps[k].jacobian, g[..start], block, JOINTS);
    DotConcat(g[..start], block, s.curvature, ps[k].curvature);
    DotConcat(g[..start], block, s.velocity, ps[k].velocity);
  }

  lemma SoFarStart(e: Expr, lib: Library, ps: seq<Geometry>)
    requires forall i | 0 <= i < |ps| :: Shaped(ps[i])
    ensures RowSoFar(e, lib, ps, 0) == Zero(JOINTS) && BendSoFar(e, lib, ps, 0) == 0.0 && SpeedSoFar(e, lib, ps, 0) == 0.0
  {
    assert ps[..0] == [];
  }

  lemma SoFarAll(e: Expr, lib: Library, ps: seq<Geometry>)
    requires forall i | 0 <= i < |ps| :: Shaped(ps[i])
    ensures RowSoFar(e, lib, ps, |ps|) == RowJacobian(e, lib, Stack(ps))
    ensures BendSoFar(e, lib, ps, |ps|) == Dot(Gradient(e, lib, Stack(ps).x), Stack(ps).curvature)
    ensures SpeedSoFar(e, lib, ps, |ps|) == RowVelocity(e, lib, Stack(ps))
  {
    hide Combine, Dot, Gradient;
    assert ps[..|ps|] == ps;
    var g := Gradient(e, lib, Stack(ps).x);
    assert g[..|Stack(ps).x|] == g;
  }

  /** The compiled function: `ydot` adds one block of the Jacobian after the other, and the local curvature is
      the derivative of `ydot` along the stacked velocities. */
  method CallCompiled(es: seq<Expr>, lib: Library, parents: seq<Geometry>) returns (out: Outputs)
    requires forall i | 0 <= i < |parents| :: Shaped(parents[i])
    ensures out.value == MapValue(es, lib, Stack(parents).x)
    ensures |out.velocity| == |out.curvature| == |es|
    ensures forall i | 0 <= i < |es| :: out.velocity[i] == RowVelocity(es[i], lib, Stack(parents))
    ensures forall i | 0 <= i < |es| :: out.curvature[i] == Curvature(es[i], lib, Stack(parents).x, Stack(parents).velocity)
    ensures |out.blocks| == |parents|
    ensures forall k | 0 <= k < |parents| ::
      |Stack(parents[..k]).x| + |parents[k].x| <= |Stack(parents).x|
      && out.blocks[k] == Block(es, lib, Stack(parents).x, |Stack(parents[..k]).x|, |parents[k].x|)
  {
    var stacked := Stack(parents);
    var ydot := Zero(|es|);
    var blocks: seq<seq<Vec>> := [];
    var start := 0;
    hide Stack, Block, Dot, Dots, Plus, Gradient, RowVelocity, SpeedSoFar, Curvature, MapValue, Shaped, Blocked;
    StartSpeeds(es, lib, parents);
    StartBlocks(es, lib, parents);
    for k := 0 to |parents|
      invariant start == |Stack(parents[..k]).x| && |ydot| == |es|
      invariant forall i | 0 <= i < |es| :: ydot[i] == SpeedSoFar(es[i], lib, parents, k)
      invariant Blocked(es, lib, parents, blocks, k)
    {
      NextOffset(parents, k);
      var block := Block(es, lib, stacked.x, start, |parents[k].x|);
      ShapedLengths(parents[k]);
      ghost var before := ydot;
      ydot := Plus(ydot, Dots(block, parents[k].velocity));
      AddSpeeds(es, lib, parents, k, start, block, before, ydot);
      AddBlock(es, lib, parents, blocks, k, block);
      blocks := blocks + [block];
      start := start + |parents[k].x|;
    }
    EndBlocks(es, lib, parents, blocks);
    EndSpeeds(es, lib, parents, ydot);
    ShapedLengths(stacked);
    out := Outputs(MapValue(es, lib, stacked.x), ydot,
                   seq(|es|, i requires 0 <= i < |es| => Curvature(es[i], lib, stacked.x, stacked.velocity)), blocks);
  }

  /** The blocks of the first `k` parents. */
  ghost predicate Blocked(es: seq<Expr>, lib: Library, ps: seq<Geometry>, blocks: seq<seq<Vec>>, k: nat)
    requires k <= |ps| && forall i | 0 <= i < |ps| :: Shaped(ps[i])
  {
    |blocks| == k && forall j | 0 <= j < k ::
      |Stack(ps[..j]).x| + |ps[j].x| <= |Stack(ps).x|
      && blocks[j] == Block(es, lib, Stack(ps).x, |Stack(ps[..j]).x|, |ps[j].x|)
  }

  lemma StartBlocks(es: seq<Expr>, lib: Library, ps: seq<Geometry>)
    requires forall i | 0 <= i < |ps| :: Shaped(ps[i])
    ensures Blocked(es, lib, ps, [], 0)
  {
  }

  lemma AddBlock(es: seq<Expr>, lib: Library, ps: seq<Geometry>, blocks: seq<seq<Vec>>, k: nat, block: seq<Vec>)
    requires k < |ps| && (forall i | 0 <= i < |ps| :: Shaped(ps[i])) && Blocked(es, lib, ps, blocks, k)
    requires |Stack(ps[..k]).x| + |ps[k].x| <= |Stack(ps).x|
    requires block == Block(es, lib, Stack(ps).x, |Stack(ps[..k]).x|, |ps[k].x|)
    ensures Blocked(es, lib, ps, blocks + [block], k + 1)
  {
    hide Stack, Block, Shaped;
  }

  lemma EndBlocks(es: seq<Expr>, lib: Library, ps: seq<Geometry>, blocks: seq<seq<Vec>>)
    requires (forall i | 0 <= i < |ps| :: Shaped(ps[i])) && Blocked(es, lib, ps, blocks, |ps|)
    ensures |blocks| == |ps| && forall k | 0 <= k < |ps| ::
      |Stack(ps[..k]).x| + |ps[k].x| <= |Stack(ps).x|
      && blocks[k] == Block(es, lib, Stack(ps).x, |Stack(ps[..k]).x|, |ps[k].x|)
  {
    hide Stack, Block, Shaped;
  }

  lemma ShapedLengths(p: Geometry)
    requires Shaped(p)
    ensures |p.x| == |p.jacobian| == |p.velocity| == |p.curvature| && IsMatrix(p.jacobian, JOINTS)
  {
  }

  lemma NextOffset(ps: seq<Geometry>, k: nat)
    requires k < |ps| && forall i | 0 <= i < |ps| :: Shaped(ps[i])
    ensures |Stack(ps[..k + 1]).x| == |Stack(ps[..k]).x| + |ps[k].x| <= |Stack(ps).x|
  {
    StackPrefix(ps, k);
    StackOffset(ps, k + 1);
  }

  lemma StartSpeeds(es: seq<Expr>, lib: Library, ps: seq<Geometry>)
    requires forall i | 0 <= i < |ps| :: Shaped(ps[i])
    ensures |Stack(ps[..0]).x| == 0
    ensures forall i | 0 <= i < |es| :: Zero(|es|)[i] == SpeedSoFar(es[i], lib, ps, 0)
  {
    assert ps[..0] == [];
    forall i | 0 <= i < |es|
      ensures SpeedSoFar(es[i], lib, ps, 0) == 0.0
    {
      SoFarStart(es[i], lib, ps);
    }
  }

  lemma AddSpeeds(es: seq<Expr>, lib: Library, ps: seq<Geometry>, k: nat, start: nat, block: seq<Vec>, before: Vec, after: Vec)
    requires k < |ps| && forall i | 0 <= i < |ps| :: Shaped(ps[i])
    requires start == |Stack(ps[..k]).x| && start + |ps[k].x| <= |Stack(ps).x|
    requires block == Block(es, lib, Stack(ps).x, start, |ps[k].x|) && |before| == |es|
    requires after == Plus(before, Dots(block, ps[k].velocity))
    requires forall i | 0 <= i < |es| :: before[i] == SpeedSoFar(es[i], lib, ps, k)
    ensures forall i | 0 <= i < |es| :: after[i] == SpeedSoFar(es[i], lib, ps, k + 1)
  {
    hide SpeedSoFar, RowSoFar, BendSoFar, Dot, Stack, Gradient;
    forall i | 0 <= i < |es|
      ensures after[i] == SpeedSoFar(es[i], lib, ps, k + 1)
    {
      SoFarStep(es[i], lib, ps, k, start, block[i]);
    }
  }

  lemma EndSpeeds(es: seq<Expr>, lib: Library, ps: seq<Geometry>, ydot: Vec)
    requires forall i | 0 <= i < |ps| :: Shaped(ps[i])
    requires |ydot| == |es| && forall i | 0 <= i < |es| :: ydot[i] == SpeedSoFar(es[i], lib, ps, |ps|)
    ensures forall i | 0 <= i < |es| :: ydot[i] == RowVelocity(es[i], lib, Stack(ps))
  {
    hide SpeedSoFar, RowSoFar, BendSoFar, RowVelocity, RowJacobian;
    forall i | 0 <= i < |es|
      ensures ydot[i] == RowVelocity(es[i], lib, Stack(ps))
    {
      SoFarAll(es[i], lib, ps);
    }
  }

  /** `evaluate_casadi_node`: adding each parent's chained block gives the geometry of the stacked map. */
  method EvaluateCasadiNode(c: Compiled, w: World, parents: seq<Geometry>) returns (r: Result<Geometry, GraphError>)
    requires forall i | 0 <= i < |parents| :: Shaped(parents[i])
    ensures r == EvaluateCasadi(c, w, parents)
  {
    hide ApplyTaskMap, Shaped, Stack, MapGeometry;
    if ShapesOf(parents) != c.dims {
      return Err(DimensionMismatch);
    }
    var map' := ApplyTaskMap(c.node, c.dims);
    if map'.None? {
      return Err(InvalidTaskMap);
    }
    var es := map'.value;
    var out := CallCompiled(es, w.lib, parents);
    var jacobian, curvature := ZeroMatrix(|es|, JOINTS), out.curvature;
    hide Block, RowVelocity, RowSoFar, BendSoFar, MatPlus, Plus, MatMul, Dots, Curvature, MapValue;
    StartRows(es, w.lib, parents, out.curvature);
    for k := 0 to |parents|
      invariant RowsAt(es, w.lib, parents, k, jacobian, curvature)
    {
      RowsShape(es, w.lib, parents, k, jacobian, curvature);
      ShapedLengths(parents[k]);
      var block := out.blocks[k];
      ghost var j0, c0 := jacobian, curvature;
      jacobian := MatPlus(jacobian, MatMul(block, parents[k].jacobian, JOINTS));
      curvature := Plus(curvature, Dots(block, parents[k].curvature));
      AddRows(es, w.lib, parents, k, block, j0, c0, jacobian, curvature);
    }
    EndRows(es, w.lib, parents, jacobian, curvature, out);
    return Ok(Geometry(out.value, jacobian, out.velocity, curvature));
  }

  /** The loop invariant of `EvaluateCasadiNode`. */
  ghost predicate RowsAt(es: seq<Expr>, lib: Library, ps: seq<Geometry>, k: nat, jacobian: seq<Vec>, curvature: Vec)
    requires forall i | 0 <= i < |ps| :: Shaped(ps[i])
  {
    && k <= |ps| && |jacobian| == |curvature| == |es| && IsMatrix(jacobian, JOINTS)
    && forall i | 0 <= i < |es| ::
         && jacobian[i] == RowSoFar(es[i], lib, ps, k)
         && curvature[i] == Curvature(es[i], lib, Stack(ps).x, Stack(ps).velocity) + BendSoFar(es[i], lib, ps, k)
  }

  lemma StartRows(es: seq<Expr>, lib: Library, ps: seq<Geometry>, curvature: Vec)
    requires forall i | 0 <= i < |ps| :: Shaped(ps[i])
    requires |curvature| == |es|
    requires forall i | 0 <= i < |es| :: curvature[i] == Curvature(es[i], lib, Stack(ps).x, Stack(ps).velocity)
    ensures RowsAt(es, lib, ps, 0, ZeroMatrix(|es|, JOINTS), curvature)
  {
    hide RowSoFar, BendSoFar, SpeedSoFar, Curvature;
    forall i | 0 <= i < |es|
      ensures RowSoFar(es[i], lib, ps, 0) == Zero(JOINTS) && BendSoFar(es[i], lib, ps, 0) == 0.0
    {
      SoFarStart(es[i], lib, ps);
    }
  }

  lemma RowsShape(es: seq<Expr>, lib: Library, ps: seq<Geometry>, k: nat, jacobian: seq<Vec>, curvature: Vec)
    requires forall i | 0 <= i < |ps| :: Shaped(ps[i])
    requires RowsAt(es, lib, ps, k, jacobian, curvature)
    ensures |jacobian| == |curvature| == |es| && IsMatrix(jacobian, JOINTS)
  {
  }

  lemma AddRows(es: seq<Expr>, lib: Library, ps: seq<Geometry>, k: nat, block: seq<Vec>,
                j0: seq<Vec>, c0: Vec, j1: seq<Vec>, c1: Vec)
    requires k < |ps| && forall i | 0 <= i < |ps| :: Shaped(ps[i])
    requires RowsAt(es, lib, ps, k, j0, c0)
    requires |Stack(ps[..k]).x| + |ps[k].x| <= |Stack(ps).x|
    requires block == Block(es, lib, Stack(ps).x, |Stack(ps[..k]).x|, |ps[k].x|)
    requires j1 == MatPlus(j0, MatMul(block, ps[k].jacobian, JOINTS)) && c1 == Plus(c0, Dots(block, ps[k].curvature))
    ensures RowsAt(es, lib, ps, k + 1, j1, c1)
  {
    hide RowSoFar, BendSoFar, SpeedSoFar, Curvature, Dot, Combine, Stack, Gradient;
    forall i | 0 <= i < |es|
      ensures j1[i] == RowSoFar(es[i], lib, ps, k + 1)
      ensures c1[i] == Curvature(es[i], lib, Stack(ps).x, Stack(ps).velocity) + BendSoFar(es[i], lib, ps, k + 1)
    {
      SoFarStep(es[i], lib, ps, k, |Stack(ps[..k]).x|, block[i]);
    }
  }

  lemma EndRows(es: seq<Expr>, lib: Library, ps: seq<Geometry>, jacobian: seq<Vec>, curvature: Vec, out: Outputs)
    requires forall i | 0 <= i < |ps| :: Shaped(ps[i])
    requires RowsAt(es, lib, ps, |ps|, jacobian, curvature) && out.value == MapValue(es, lib, Stack(ps).x)
    requires |out.velocity| == |es| && forall i | 0 <= i < |es| :: out.velocity[i] == RowVelocity(es[i], lib, Stack(ps))
    ensures Geometry(out.value, jacobian, out.velocity, curvature) == MapGeometry(es, lib, Stack(ps))
  {
    hide RowSoFar, BendSoFar, SpeedSoFar, Curvature, Dot, RowJacobian, RowVelocity, Stack, Gradient, MapValue, MapGeometry,
      Shaped;
    MapGeometryShape(es, lib, Stack(ps));
    forall i | 0 <= i < |es|
      ensures jacobian[i] == RowJacobian(es[i], lib, Stack(ps))
      ensures curvature[i] == RowCurvature(es[i], lib, Stack(ps))
    {
      SoFarAll(es[i], lib, ps);
    }
    var g := MapGeometry(es, lib, Stack(ps));
    assert jacobian == g.jacobian && curvature == g.curvature && out.velocity == g.velocity && out.value == g.x;
  }

  lemma MapGeometryShape(es: seq<Expr>, lib: Library, p: Geometry)
    requires Shaped(p)
    ensures var g := MapGeometry(es, lib, p);
      && g.x == MapValue(es, lib, p.x) && |g.jacobian| == |g.velocity| == |g.curvature| == |es|
      && forall i | 0 <= i < |es| ::
           && g.jacobian[i] == RowJacobian(es[i], lib, p) && g.velocity[i] == RowVelocity(es[i], lib, p)
           && g.curvature[i] == RowCurvature(es[i], lib, p)
  {
    hide RowJacobian, RowVelocity, RowCurvature, MapValue;
  }

  // ----- native nodes

  /** The `joint_limit` branch, writing two rows per joint into arrays. */
  method EvaluateJointLimits(robot: Robot, p: Geometry) returns (out: Geometry)
    requires |robot.lower| == |robot.upper| == |robot.buffers| == JOINTS && Shaped(p) && |p.x| >= JOINTS
    ensures out == JointLimitGeometry(robot, p)
  {
    var x, velocity, jacobian := new real[12](_ => 0.0), new real[12](_ => 0.0), new Vec[12](_ => Zero(JOINTS));
    ghost var g := JointLimitGeometry(robot, p);
    for joint := 0 to JOINTS
      invariant forall i | 0 <= i < 2 * joint ::
        x[i] == g.x[i] && velocity[i] == g.velocity[i] && jacobian[i] == g.jacobian[i]
    {
      var lower := robot.lower[joint] + robot.buffers[joint];
      var upper := robot.upper[joint] - robot.buffers[joint];
      x[2 * joint] := upper - p.x[joint];
      x[2 * joint + 1] := p.x[joint] - lower;
      velocity[2 * joint] := -p.velocity[joint];
      velocity[2 * joint + 1] := p.velocity[joint];
      jacobian[2 * joint] := Zero(JOINTS)[joint := -1.0];
      jacobian[2 * joint + 1] := Zero(JOINTS)[joint := 1.0];
      UnitRow(joint, -1.0);
      UnitRow(joint, 1.0);
      assert (2 * joint) / 2 == joint && (2 * joint + 1) / 2 == joint;
    }
    out := Geometry(x[..], jacobian[..], velocity[..], Zero(12));
  }

  lemma UnitRow(j: nat, s: real)
    requires j < JOINTS
    ensures Zero(JOINTS)[j := s] == Scale(s, Unit(JOINTS, j))
  {
  }

  /** The `collision_distance` branch: one row per point and obstacle, pushed in that order. */
  method EvaluateCollision(w: World, p: Geometry) returns (out: Geometry)
    requires ValidWorld(w) && Shaped(p) && 3 * SENSOR_POINTS <= |p.x|
    ensures out == CollisionGeometry(w, p)
  {
    hide Shaped, CollisionRow, Append;
    out := Empty;
    for k := 0 to SENSOR_POINTS
      invariant out == CollisionRows(w, p, k, 0)
    {
      for o := 0 to |w.obstacles|
        invariant out == CollisionRows(w, p, k, o)
      {
        var row := CollisionRow(w.lib, Part(p, 3 * k, 3), w.obstacles[o], w.robot.pointRadii[k], w.robot.margin);
        out := Append(out, row);
      }
    }
  }

  /** The `link_orientation_axis` branch: the world axis, and one cross product per Jacobian column. */
  method EvaluateAxis(l: Link, axis: Vec) returns (out: Geometry)
    requires ValidLink(l) && |axis| == 3
    ensures out == AxisGeometry(l, axis)
  {
    hide CrossAt;
    var world := Dots(l.rotation, axis);
    var jacobian := seq(3, _ => Zero(JOINTS));
    ghost var columns := CrossColumns(l.angularJacobian, world);
    for c := 0 to JOINTS
      invariant |jacobian| == 3 && IsMatrix(jacobian, JOINTS)
      invariant forall i, k | 0 <= i < 3 && 0 <= k < c :: jacobian[i][k] == columns[i][k]
    {
      var column := Cross(Column(l.angularJacobian, c), world);
      jacobian := [jacobian[0][c := column[0]], jacobian[1][c := column[1]], jacobian[2][c := column[2]]];
    }
    forall i | 0 <= i < 3
      ensures jacobian[i] == columns[i]
    {
      assert forall k | 0 <= k < JOINTS :: jacobian[i][k] == columns[i][k];
    }
    var velocity := Cross(l.angularVelocity, world);
    var curvature := Plus(Cross(l.angularCurvature, world), Cross(l.angularVelocity, velocity));
    out := Geometry(world, jacobian, velocity, curvature);
  }

  /** The `control_points` branch: four loops that flatten positions, Jacobians, velocities and curvatures. */
  method FlattenPoints(points: seq<Geometry>) returns (out: Geometry)
    requires forall i | 0 <= i < |points| :: Shaped(points[i])
    ensures out == Stack(points)
  {
    hide Shaped;
    var x, velocity, curvature: Vec := [], [], [];
    var jacobian: seq<Vec> := [];
    assert points[..0] == [] && points[..|points|] == points;
    for k := 0 to |points|
      invariant x == Stack(points[..k]).x
    {
      StackPrefix(points, k);
      x := x + points[k].x;
    }
    for k := 0 to |points|
      invariant jacobian == Stack(points[..k]).jacobian
    {
      StackPrefix(points, k);
      jacobian := jacobian + points[k].jacobian;
    }
    for k := 0 to |points|
      invariant velocity == Stack(points[..k]).velocity
    {
      StackPrefix(points, k);
      velocity := velocity + points[k].velocity;
    }
    for k := 0 to |points|
      invariant curvature == Stack(points[..k]).curvature
    {
      StackPrefix(points, k);
      curvature := curvature + points[k].curvature;
    }
    out := Geometry(x, jacobian, velocity, curvature);
  }

  /** `evaluate_native_node`: one branch per native map. */
  method EvaluateNativeNode(node: RmpNode, w: World, parents: seq<Geometry>) returns (r: Result<Geometry, GraphError>)
    requires ValidWorld(w) && forall i | 0 <= i < |parents| :: Shaped(parents[i])
    ensures r == EvaluateNative(node, w, parents)
  {
    hide CollisionGeometry, JointLimitGeometry, AxisGeometry, Stack;
    var kind := node.taskMap;
    if kind == CspaceTargetMap || kind == IdentityMap {
      if parents == [] { return Err(NoParent); }
      return Ok(parents[0]);
    }
    if kind == JointLimitMap {
      if parents == [] { return Err(NoParent); }
      if |parents[0].x| < JOINTS { return Err(TooFewJoints); }
      var g := EvaluateJointLimits(w.robot, parents[0]);
      return Ok(g);
    }
    if kind == TcpPosition {
      return Ok(w.context.tcp);
    }
    if kind == LinkPosition {
      if node.linkName !in w.context.links { return Err(UnsupportedLink); }
      return Ok(w.context.links[node.linkName].position);
    }
    if kind == LinkOrientationAxis {
      if node.linkName !in w.context.links { return Err(UnsupportedLink); }
      var axis := AxisVector(node.axis);
      if axis.None? { return Err(UnsupportedAxis); }
      var g := EvaluateAxis(w.context.links[node.linkName], axis.value);
      return Ok(g);
    }
    if kind == ControlPoints {
      var g := FlattenPoints(w.context.points);
      return Ok(g);
    }
    if kind == CollisionDistance {
      if parents == [] { return Err(NoParent); }
      if |parents[0].x| / 3 != SENSOR_POINTS { return Err(WrongPointVector); }
      var g := EvaluateCollision(w, parents[0]);
      return Ok(g);
    }
    return Err(UnsupportedTaskMap);
  }

  method GatherParents(cache: Cache, names: seq<string>) returns (r: Option<seq<Geometry>>)
    requires ValidCache(cache)
    ensures r == ParentsOf(cache, names)
  {
    hide ValidCache;
    var parents: seq<Geometry> := [];
    for i := 0 to |names|
      invariant |parents| == i && forall j | 0 <= j < i :: names[j] in cache && parents[j] == cache[names[j]]
    {
      if names[i] !in cache {
        return None;
      }
      parents := parents + [cache[names[i]]];
    }
    assert parents == ParentsOf(cache, names).value;
    return Some(parents);
  }

  method EvaluateNodeState(c: Compiled, w: World, cache: Cache) returns (r: Result<Geometry, GraphError>)
    requires ValidWorld(w) && ValidCache(cache)
    ensures r == EvaluateNode(c, w, cache)
  {
    hide ValidWorld, EvaluateCasadi, EvaluateNative;
    var parents := GatherParents(cache, c.node.parents);
    if parents.None? {
      return Err(MissingParentState);
    }
    if UsesCasadi(c.node.taskMap) {
      r := EvaluateCasadiNode(c, w, parents.value);
    } else {
      r := EvaluateNativeNode(c.node, w, parents.value);
    }
  }
}
