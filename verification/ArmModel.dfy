/** The RB10 arm: `forward_context`, the frames rebuilt by `link_frame_from_q`, and the sensor points. */
module ArmModel {
  import opened LinearAlgebra
  import opened RmpConfig
  import opened Derivative
  import opened Elementary
  import opened Kinematics

  const BASE_LINK: nat := 0
  const LINK0: nat := 1
  const LINK1: nat := 2
  const LINK2: nat := 3
  const LINK3: nat := 4
  const LINK3_5: nat := 5
  const LINK4: nat := 6
  const LINK5: nat := 7
  const LINK6: nat := 8
  const TCP: nat := 9
  const TCP_RMP: nat := 10
  const TCP_GRIPPER: nat := 11
  const LINK_COUNT: nat := 12

  /** The arm from the base to the tool. */
  const ARM: seq<Segment> := [
    Joint(AlongZ, 0), Offset(Point(0.0, 0.0, 0.197)),
    Joint(AlongY, 1), Offset(Point(0.0, -0.1875, 0.6127)),
    Joint(AlongY, 2), Offset(Point(0.0, 0.1484, 0.0)), Offset(Point(0.0, 0.0, 0.57015)),
    Joint(AlongY, 3), Offset(Point(0.0, -0.11715, 0.0)),
    Joint(AlongZ, 4), Offset(Point(0.0, 0.0, 0.11715)),
    Joint(AlongY, 5), Offset(Point(0.0, -0.1153, 0.0)) ]

  const ARM_LENGTH: nat := 13

  const QUARTER_TURN: real := 1.5707963268

  function OriginPath(at: Point, roll: real, pitch: real, yaw: real): seq<Segment> {
    [Offset(at), Bend(AlongZ, yaw), Bend(AlongY, pitch), Bend(AlongX, roll)]
  }

  /** How much of the arm a link's frame depends on, and what follows it. */
  function ArmPart(link: nat): (n: nat)
    ensures n <= ARM_LENGTH
  {
    if link <= LINK0 then 0 else if link == LINK1 then 1 else if link == LINK2 then 3 else if link == LINK3 then 5
    else if link == LINK3_5 then 6 else if link == LINK4 then 8 else if link == LINK5 then 10 else if link == LINK6 then 12
    else 13
  }

  function Extra(link: nat): seq<Segment> {
    if link == TCP_RMP then OriginPath(ORIGIN, 0.0, 0.0, 0.0)
    else if link == TCP_GRIPPER then OriginPath(Point(0.0, -0.285398, 0.0), 0.0, QUARTER_TURN, QUARTER_TURN)
    else []
  }

  /** The frame of a link: the product of the segments that lead to it. */
  function LinkFrame(lib: Library, q: Vec, link: nat): Frame
    requires |q| == JOINTS
  {
    PathsValid(ArmPart(link), Extra(link));
    FrameOf(lib, q, ARM[..ArmPart(link)] + Extra(link))
  }

  lemma PathsValid(n: nat, extra: seq<Segment>)
    requires n <= ARM_LENGTH && forall k | 0 <= k < |extra| :: !extra[k].Joint?
    ensures ValidPath(ARM[..n] + extra) && ValidPath(ARM[..n])
  {
    assert forall k | 0 <= k < |ARM| && ARM[k].Joint? :: ARM[k].index < JOINTS;
  }

  /** Where joint `j` sits in the arm. */
  function Slot(j: nat): (k: nat)
    requires j < JOINTS
    ensures k < ARM_LENGTH && ARM[k].Joint? && ARM[k].index == j
  {
    if j == 0 then 0 else if j == 1 then 2 else if j == 2 then 4 else if j == 3 then 7 else if j == 4 then 9 else 11
  }

  lemma SlotUnique(k: nat, j: nat)
    requires k < ARM_LENGTH && j < JOINTS && ARM[k].Joint? && ARM[k].index == j
    ensures k == Slot(j)
  {
  }

  /** The frame in which joint `j` turns. */
  function JointFrame(lib: Library, q: Vec, j: nat): Frame
    requires |q| == JOINTS && j < JOINTS
  {
    PathsValid(Slot(j), []);
    FrameOf(lib, q, ARM[..Slot(j)])
  }

  function JointOrigin(lib: Library, q: Vec, j: nat): Point
    requires |q| == JOINTS && j < JOINTS
  {
    JointFrame(lib, q, j).translation
  }

  function JointAxis(lib: Library, q: Vec, j: nat): Point
    requires |q| == JOINTS && j < JOINTS
  {
    MatVec(JointFrame(lib, q, j).linear, UnitAxis(ARM[Slot(j)].axis))
  }

  /** The joints a link's Jacobian is built from. */
  function ActiveJoints(link: nat): (n: nat)
    ensures n <= JOINTS
  {
    if link <= LINK1 then 0 else if link == LINK2 then 1 else if link == LINK3 then 2 else if link == LINK3_5 then 3
    else if link == LINK4 then 3 else if link == LINK5 then 4 else if link == LINK6 then 5 else 6
  }

  /** `point_jacobian`, by columns. */
  function PointJacobian(point: Point, origins: seq<Point>, axes: seq<Point>, active: nat): (r: seq<Point>)
    requires |origins| == |axes| == JOINTS && active <= JOINTS
    ensures |r| == JOINTS
  {
    seq(JOINTS, j requires 0 <= j < JOINTS => if j < active then CrossProduct(axes[j], Subtracted(point, origins[j])) else ORIGIN)
  }

  function LinkJacobian(lib: Library, q: Vec, link: nat): (r: seq<Point>)
    requires |q| == JOINTS
    ensures |r| == JOINTS
  {
    PointJacobian(LinkFrame(lib, q, link).translation, seq(JOINTS, j requires 0 <= j < JOINTS => JointOrigin(lib, q, j)),
                  seq(JOINTS, j requires 0 <= j < JOINTS => JointAxis(lib, q, j)), ActiveJoints(link))
  }

  // ----- sensors

  datatype Sensor = Sensor(parent: nat, offset: Point, radius: real)

  const SENSORS: seq<Sensor> := [
    Sensor(LINK5, Point(-0.06, 0.0, 0.11715), 0.1), Sensor(LINK5, Point(0.0, 0.0, 0.17715), 0.1),
    Sensor(LINK5, Point(0.06, 0.0, 0.11715), 0.1), Sensor(LINK5, Point(0.0, 0.0667, 0.11715), 0.1),
    Sensor(LINK3_5, Point(0.0645, 0.0, 0.405075), 0.1), Sensor(LINK3_5, Point(0.0, 0.0645, 0.405075), 0.1),
    Sensor(LINK3_5, Point(-0.0645, 0.0, 0.405075), 0.1), Sensor(LINK3_5, Point(0.0, -0.0645, 0.405075), 0.1),
    Sensor(LINK3_5, Point(0.0645, 0.0, 0.205075), 0.1), Sensor(LINK3_5, Point(0.0, -0.0645, 0.205075), 0.1),
    Sensor(LINK3_5, Point(-0.0645, 0.0, 0.205075), 0.1), Sensor(LINK3_5, Point(0.0, 0.0645, 0.205075), 0.1),
    Sensor(LINK2, Point(0.0, -0.1085, 0.2262), 0.1), Sensor(LINK2, Point(0.079, -0.1875, 0.2262), 0.1),
    Sensor(LINK2, Point(0.0, -0.2665, 0.2262), 0.1), Sensor(LINK2, Point(-0.079, -0.1875, 0.2262), 0.1),
    Sensor(LINK2, Point(0.0, -0.1085, 0.4262), 0.1), Sensor(LINK2, Point(0.079, -0.1875, 0.4262), 0.1),
    Sensor(LINK2, Point(0.0, -0.2665, 0.4262), 0.1), Sensor(LINK2, Point(-0.079, -0.1875, 0.4262), 0.1) ]

  datatype ControlPoint = ControlPoint(position: Point, radius: real)

  datatype KinematicsContext = KinematicsContext(
    positions: seq<Point>, rotations: seq<Mat>, jacobians: seq<seq<Point>>, origins: seq<Point>, axes: seq<Point>,
    points: seq<ControlPoint>, pointJacobians: seq<seq<Point>>)

  function SensorPoint(lib: Library, q: Vec, s: Sensor): Point
    requires |q| == JOINTS
  {
    Act(LinkFrame(lib, q, s.parent), s.offset)
  }

  /** The step of `numerical_jacobian`. */
  const STEP_SIZE: real := 0.00001

  function Quotient(v: Point, h: real): Point
    requires h != 0.0
  {
    Point(v.x / h, v.y / h, v.z / h)
  }

  /** The forward differences of a sensor point over the step `h`, joint by joint. */
  function SensorDifferences(lib: Library, q: Vec, s: Sensor, h: real): (r: seq<Point>)
    requires |q| == JOINTS && h != 0.0
    ensures |r| == JOINTS
  {
    seq(JOINTS, j requires 0 <= j < JOINTS =>
      Quotient(Subtracted(SensorPoint(lib, q[j := q[j] + h], s), SensorPoint(lib, q, s)), h))
  }

  /** Every entry of the context is what the chain says. */
  ghost predicate Describes(c: KinematicsContext, lib: Library, q: Vec)
    requires |q| == JOINTS
  {
    && |c.positions| == |c.rotations| == |c.jacobians| == LINK_COUNT && |c.origins| == |c.axes| == JOINTS
    && (forall l | 0 <= l < LINK_COUNT :: LinkFrame(lib, q, l) == Frame(c.rotations[l], c.positions[l]))
    && (forall l | 0 <= l < LINK_COUNT :: c.jacobians[l] == LinkJacobian(lib, q, l))
    && (forall j | 0 <= j < JOINTS :: c.origins[j] == JointOrigin(lib, q, j) && c.axes[j] == JointAxis(lib, q, j))
    && |c.points| == |c.pointJacobians| == |SENSORS|
    && (forall i | 0 <= i < |SENSORS| :: c.points[i] == ControlPoint(SensorPoint(lib, q, SENSORS[i]), SENSORS[i].radius))
    && forall i | 0 <= i < |SENSORS| :: c.pointJacobians[i] == SensorDifferences(lib, q, SENSORS[i], STEP_SIZE)
  }

  // ----- the two programs

  function TurnFrame(lib: Library, a: TurnAxis, angle: real): Frame { Frame(TurnMat(a, lib.cos(angle), lib.sin(angle)), ORIGIN) }

  /** `origin_transform`. */
  function OriginTransform(lib: Library, at: Point, roll: real, pitch: real, yaw: real): Frame {
    Compose(Compose(Compose(Frame(IdentityMat(), at), TurnFrame(lib, AlongZ, yaw)), TurnFrame(lib, AlongY, pitch)), TurnFrame(lib, AlongX, roll))
  }

  lemma ColumnsOfProduct(a: Mat, b: Mat)
    ensures var (c0, c1, c2) := ColumnsOf(b); ColumnsOf(MatTimes(a, b)) == (MatVec(a, c0), MatVec(a, c1), MatVec(a, c2))
  {
    hide Inner;
  }

  lemma MatTimesAssociates(a: Mat, b: Mat, c: Mat)
    ensures MatTimes(MatTimes(a, b), c) == MatTimes(a, MatTimes(b, c))
  {
    hide Inner;
    var (c0, c1, c2) := ColumnsOf(c);
    ColumnsOfProduct(b, c);
    InnerRows(a.r0, b, c0);
    InnerRows(a.r0, b, c1);
    InnerRows(a.r0, b, c2);
    InnerRows(a.r1, b, c0);
    InnerRows(a.r1, b, c1);
    InnerRows(a.r1, b, c2);
    InnerRows(a.r2, b, c0);
    InnerRows(a.r2, b, c1);
    InnerRows(a.r2, b, c2);
  }

  lemma ComposeAssociates(f: Frame, g: Frame, h: Frame)
    ensures Compose(Compose(f, g), h) == Compose(f, Compose(g, h))
  {
    hide MatTimes, Act;
    MatTimesAssociates(f.linear, g.linear, h.linear);
    ActCompose(f, g, h.translation);
  }

  lemma TurnZero(m: Mat, a: TurnAxis, c: real, s: real)
    requires c == 1.0 && s == 0.0
    ensures MatTimes(m, TurnMat(a, c, s)) == m
  {
    var t := TurnMat(a, c, s);
    assert t == IdentityMat();
    var (c0, c1, c2) := ColumnsOf(t);
    assert c0 == UnitAxis(AlongX) && c1 == UnitAxis(AlongY) && c2 == UnitAxis(AlongZ);
    hide Inner;
    InnerAxis(m.r0);
    InnerAxis(m.r1);
    InnerAxis(m.r2);
  }

  lemma ComposeZero(lib: Library, f: Frame, a: TurnAxis)
    requires Circular(lib)
    ensures Compose(f, TurnFrame(lib, a, 0.0)) == f
  {
    hide MatTimes, Act, Standard, OnCircle, TurnMat;
    TurnZero(f.linear, a, lib.cos(0.0), lib.sin(0.0));
    ActOrigin(f);
  }

  /** Without angles the transform is the offset alone. */
  lemma OriginPlain(lib: Library, at: Point)
    requires Circular(lib)
    ensures OriginTransform(lib, at, 0.0, 0.0, 0.0) == Frame(IdentityMat(), at)
  {
    hide Compose, Circular, TurnFrame;
    ComposeZero(lib, Frame(IdentityMat(), at), AlongZ);
    ComposeZero(lib, Frame(IdentityMat(), at), AlongY);
    ComposeZero(lib, Frame(IdentityMat(), at), AlongX);
  }

  lemma FrameSnoc(lib: Library, q: Vec, path: seq<Segment>, seg: Segment)
    requires |q| == JOINTS && ValidPath(path) && (seg.Joint? ==> seg.index < JOINTS)
    ensures ValidPath(path + [seg]) && FrameOf(lib, q, path + [seg]) == Compose(FrameOf(lib, q, path), SegmentFrame(lib, q, seg))
    ensures !seg.Offset? ==> FrameOf(lib, q, path + [seg]).translation == FrameOf(lib, q, path).translation
  {
    hide MatTimes, Act;
    assert (path + [seg])[..|path|] == path;
    ActOrigin(FrameOf(lib, q, path));
  }

  /** One more segment of the arm. */
  lemma ArmStep(lib: Library, q: Vec, k: nat)
    requires |q| == JOINTS && k < ARM_LENGTH
    ensures ValidPath(ARM[..k]) && ValidPath(ARM[..k + 1]) && (ARM[k].Joint? ==> ARM[k].index < JOINTS)
    ensures FrameOf(lib, q, ARM[..k + 1]) == Compose(FrameOf(lib, q, ARM[..k]), SegmentFrame(lib, q, ARM[k]))
    ensures ARM[k].Joint? ==> FrameOf(lib, q, ARM[..k + 1]).translation == FrameOf(lib, q, ARM[..k]).translation
  {
    hide Compose, FrameOf;
    PathsValid(k, []);
    PathsValid(k + 1, []);
    assert ARM[..k] + [ARM[k]] == ARM[..k + 1];
    FrameSnoc(lib, q, ARM[..k], ARM[k]);
  }

  /** `point_jacobian`: one cross product per active joint. */
  method FillJacobian(point: Point, origins: seq<Point>, axes: seq<Point>, active: nat) returns (columns: seq<Point>)
    requires |origins| == |axes| == JOINTS && active <= JOINTS
    ensures columns == PointJacobian(point, origins, axes, active)
  {
    hide CrossProduct, Subtracted;
    columns := seq(JOINTS, _ => ORIGIN);
    for j := 0 to active
      invariant |columns| == JOINTS
      invariant forall k | 0 <= k < JOINTS :: columns[k] == if k < j then CrossProduct(axes[k], Subtracted(point, origins[k])) else ORIGIN
    {
      columns := columns[j := CrossProduct(axes[j], Subtracted(point, origins[j]))];
    }
  }

  /** The accumulated transform is the frame after the first `k` segments of the arm. */
  ghost predicate Reached(lib: Library, q: Vec, f: Frame, k: nat)
    requires |q| == JOINTS && k <= ARM_LENGTH
  {
    PathsValid(k, []);
    f == FrameOf(lib, q, ARM[..k])
  }

  method Turn(lib: Library, q: Vec, f: Frame, ghost k: nat, axis: TurnAxis, j: nat) returns (r: Frame)
    requires |q| == JOINTS && j < JOINTS && k < ARM_LENGTH && Reached(lib, q, f, k) && ARM[k] == Joint(axis, j)
    ensures Reached(lib, q, r, k + 1) && r.translation == f.translation
  {
    hide Compose, FrameOf, TurnMat;
    r := Compose(f, TurnFrame(lib, axis, q[j]));
    ArmStep(lib, q, k);
  }

  method Shift(lib: Library, q: Vec, f: Frame, ghost k: nat, at: Point) returns (r: Frame)
    requires Circular(lib) && |q| == JOINTS && k < ARM_LENGTH && Reached(lib, q, f, k) && ARM[k] == Offset(at)
    ensures Reached(lib, q, r, k + 1)
  {
    hide Compose, FrameOf, OriginTransform;
    r := Compose(f, OriginTransform(lib, at, 0.0, 0.0, 0.0));
    OriginPlain(lib, at);
    ArmStep(lib, q, k);
  }

  // ----- the context, filled in while the transform is multiplied up

  /** The first `joints` joints and `links` links of the context are filled in. */
  ghost predicate Filled(c: KinematicsContext, lib: Library, q: Vec, joints: nat, links: nat)
    requires |q| == JOINTS
  {
    && |c.positions| == |c.rotations| == |c.jacobians| == LINK_COUNT && |c.origins| == |c.axes| == JOINTS
    && joints <= JOINTS && links <= LINK_COUNT && c.points == [] && c.pointJacobians == []
    && (forall j | 0 <= j < joints :: c.origins[j] == JointOrigin(lib, q, j) && c.axes[j] == JointAxis(lib, q, j))
    && (forall l | 0 <= l < links :: LinkFrame(lib, q, l) == Frame(c.rotations[l], c.positions[l]))
    && (forall l | 0 <= l < links :: c.jacobians[l] == LinkJacobian(lib, q, l))
    && (forall l | links <= l < LINK_COUNT :: c.jacobians[l] == seq(JOINTS, _ => ORIGIN))
  }

  /** The link's position, Jacobian and rotation. */
  method FillLink(lib: Library, q: Vec, c: KinematicsContext, l: nat, position: Point, rotation: Mat, active: nat, ghost joints: nat)
      returns (r: KinematicsContext)
    requires |q| == JOINTS && l < LINK_COUNT && Filled(c, lib, q, joints, l)
    requires LinkFrame(lib, q, l) == Frame(rotation, position) && active == ActiveJoints(l) <= joints
    ensures Filled(r, lib, q, joints, l + 1)
  {
    hide LinkFrame, JointOrigin, JointAxis, PointJacobian;
    var columns := FillJacobian(position, c.origins, c.axes, active);
    r := c.(positions := c.positions[l := position], rotations := c.rotations[l := rotation], jacobians := c.jacobians[l := columns]);
    JacobianIs(lib, q, l, c.origins, c.axes);
  }

  lemma JacobianIs(lib: Library, q: Vec, l: nat, origins: seq<Point>, axes: seq<Point>)
    requires |q| == JOINTS && |origins| == |axes| == JOINTS
    requires forall j | 0 <= j < ActiveJoints(l) :: origins[j] == JointOrigin(lib, q, j) && axes[j] == JointAxis(lib, q, j)
    ensures PointJacobian(LinkFrame(lib, q, l).translation, origins, axes, ActiveJoints(l)) == LinkJacobian(lib, q, l)
  {
    hide LinkFrame, JointOrigin, JointAxis;
  }

  /** A joint and the link it carries: the joint's origin and axis, the link's position and Jacobian, the turn,
      and the link's rotation. */
  method FillJoint(lib: Library, q: Vec, c: KinematicsContext, f: Frame, ghost k: nat, axis: TurnAxis, j: nat, l: nat, active: nat)
      returns (r: KinematicsContext, turned: Frame)
    requires |q| == JOINTS && j < JOINTS && k < ARM_LENGTH && Reached(lib, q, f, k) && ARM[k] == Joint(axis, j)
    requires l < LINK_COUNT && Filled(c, lib, q, j, l) && ArmPart(l) == k + 1 && Extra(l) == [] && active == ActiveJoints(l) <= j
    ensures Filled(r, lib, q, j + 1, l + 1) && Reached(lib, q, turned, k + 1)
  {
    hide LinkFrame, JointOrigin, JointAxis, Reached, MatVec, UnitAxis;
    SlotUnique(k, j);
    r := c.(origins := c.origins[j := f.translation], axes := c.axes[j := MatVec(f.linear, UnitAxis(axis))]);
    RecordJoint(lib, q, j, f);
    turned := Turn(lib, q, f, k, axis, j);
    RecordLink(lib, q, l, turned, k + 1);
    r := FillLink(lib, q, r, l, f.translation, turned.linear, active, j + 1);
  }

  /** `forward_context`. */
  method ForwardContext(lib: Library, q: Vec) returns (c: KinematicsContext)
    requires Circular(lib) && |q| == JOINTS
    ensures Describes(c, lib, q)
  {
    hide LinkFrame, Filled, Reached, Compose, OriginTransform, Circular;
    var transform := IdentityFrame();
    StartsAtBase(lib, q);
    c := FillBase(lib, q, transform);
    c, transform := FillJoint(lib, q, c, transform, 0, AlongZ, 0, LINK1, 0);
    transform := Shift(lib, q, transform, 1, Point(0.0, 0.0, 0.197));
    c, transform := FillJoint(lib, q, c, transform, 2, AlongY, 1, LINK2, 1);
    transform := Shift(lib, q, transform, 3, Point(0.0, -0.1875, 0.6127));
    c, transform := FillJoint(lib, q, c, transform, 4, AlongY, 2, LINK3, 2);
    transform := Shift(lib, q, transform, 5, Point(0.0, 0.1484, 0.0));
    RecordLink(lib, q, LINK3_5, transform, 6);
    c := FillLink(lib, q, c, LINK3_5, transform.translation, transform.linear, 3, 3);
    transform := Shift(lib, q, transform, 6, Point(0.0, 0.0, 0.57015));
    c, transform := FillJoint(lib, q, c, transform, 7, AlongY, 3, LINK4, 3);
    transform := Shift(lib, q, transform, 8, Point(0.0, -0.11715, 0.0));
    c, transform := FillJoint(lib, q, c, transform, 9, AlongZ, 4, LINK5, 4);
    transform := Shift(lib, q, transform, 10, Point(0.0, 0.0, 0.11715));
    c, transform := FillJoint(lib, q, c, transform, 11, AlongY, 5, LINK6, 5);
    transform := Shift(lib, q, transform, 12, Point(0.0, -0.1153, 0.0));
    RecordLink(lib, q, TCP, transform, 13);
    c := FillLink(lib, q, c, TCP, transform.translation, transform.linear, 6, 6);
    var tool := Attach(lib, q, TCP_RMP, transform, ORIGIN, 0.0, 0.0, 0.0);
    c := FillLink(lib, q, c, TCP_RMP, tool.translation, tool.linear, 6, 6);
    var gripper := Attach(lib, q, TCP_GRIPPER, transform, Point(0.0, -0.285398, 0.0), 0.0, QUARTER_TURN, QUARTER_TURN);
    c := FillLink(lib, q, c, TCP_GRIPPER, gripper.translation, gripper.linear, 6, 6);
    c := FillPoints(lib, q, c);
  }

  method FillBase(lib: Library, q: Vec, base: Frame) returns (c: KinematicsContext)
    requires |q| == JOINTS && Reached(lib, q, base, 0)
    ensures Filled(c, lib, q, 0, LINK1)
  {
    hide Reached, LinkFrame, PointJacobian;
    RecordLink(lib, q, BASE_LINK, base, 0);
    RecordLink(lib, q, LINK0, base, 0);
    var none := seq(JOINTS, _ => ORIGIN);
    c := KinematicsContext(seq(LINK_COUNT, _ => base.translation), seq(LINK_COUNT, _ => base.linear), seq(LINK_COUNT, _ => none), none, none, [], []);
    NoJacobian(lib, q, BASE_LINK);
    NoJacobian(lib, q, LINK0);
  }

  lemma NoJacobian(lib: Library, q: Vec, l: nat)
    requires |q| == JOINTS && ActiveJoints(l) == 0
    ensures LinkJacobian(lib, q, l) == seq(JOINTS, _ => ORIGIN)
  {
    hide LinkFrame, JointOrigin, JointAxis, CrossProduct;
  }

  /** The sensor points, from the stored frames of the links that carry them, and their forward differences. */
  method FillPoints(lib: Library, q: Vec, c: KinematicsContext) returns (r: KinematicsContext)
    requires Circular(lib) && |q| == JOINTS && Filled(c, lib, q, JOINTS, LINK_COUNT)
    ensures Describes(r, lib, q)
  {
    hide LinkFrame, LinkJacobian, JointOrigin, JointAxis, MatVec, Added, SensorPoint, SensorDifferences, Circular, Filled, Describes, SENSORS;
    FilledSizes(lib, q, c);
    r := c;
    for i := 0 to |SENSORS|
      invariant r == c.(points := r.points, pointJacobians := r.pointJacobians) && |r.points| == |r.pointJacobians| == i
      invariant forall k | 0 <= k < i :: r.points[k] == ControlPoint(SensorPoint(lib, q, SENSORS[k]), SENSORS[k].radius)
      invariant forall k | 0 <= k < i :: r.pointJacobians[k] == SensorDifferences(lib, q, SENSORS[k], STEP_SIZE)
    {
      var sensor := SENSORS[i];
      SensorParents(i);
      var position := Added(c.positions[sensor.parent], MatVec(c.rotations[sensor.parent], sensor.offset));
      StoredPoint(lib, q, c, sensor);
      var columns := NumericalJacobian(lib, q, sensor);
      r := r.(points := r.points + [ControlPoint(position, sensor.radius)], pointJacobians := r.pointJacobians + [columns]);
    }
    PointsDescribed(lib, q, c, r);
  }

  lemma FilledSizes(lib: Library, q: Vec, c: KinematicsContext)
    requires |q| == JOINTS && Filled(c, lib, q, JOINTS, LINK_COUNT)
    ensures |c.positions| == |c.rotations| == LINK_COUNT && c.points == [] && c.pointJacobians == []
  {
    hide LinkFrame, LinkJacobian, JointOrigin, JointAxis;
  }

  lemma PointsDescribed(lib: Library, q: Vec, c: KinematicsContext, r: KinematicsContext)
    requires |q| == JOINTS && Filled(c, lib, q, JOINTS, LINK_COUNT)
    requires r == c.(points := r.points, pointJacobians := r.pointJacobians) && |r.points| == |r.pointJacobians| == |SENSORS|
    requires forall k | 0 <= k < |SENSORS| :: r.points[k] == ControlPoint(SensorPoint(lib, q, SENSORS[k]), SENSORS[k].radius)
    requires forall k | 0 <= k < |SENSORS| :: r.pointJacobians[k] == SensorDifferences(lib, q, SENSORS[k], STEP_SIZE)
    ensures Describes(r, lib, q)
  {
    hide LinkFrame, LinkJacobian, JointOrigin, JointAxis, SensorPoint, SensorDifferences;
  }

  lemma StoredPoint(lib: Library, q: Vec, c: KinematicsContext, s: Sensor)
    requires |q| == JOINTS && Filled(c, lib, q, JOINTS, LINK_COUNT) && s.parent < LINK_COUNT
    ensures SensorPoint(lib, q, s) == Added(c.positions[s.parent], MatVec(c.rotations[s.parent], s.offset))
  {
    hide LinkFrame, LinkJacobian, JointOrigin, JointAxis, MatVec;
    AddedOrder(c.positions[s.parent], MatVec(c.rotations[s.parent], s.offset));
  }

  lemma AddedOrder(u: Point, v: Point)
    ensures Added(u, v) == Added(v, u)
  {
  }

  lemma SensorParents(i: nat)
    requires i < |SENSORS|
    ensures SENSORS[i].parent in {LINK2, LINK3_5, LINK5}
  {
  }

  /** An `origin_transform` behind the arm is four segments at once. */
  method Attach(lib: Library, q: Vec, ghost l: nat, f: Frame, at: Point, roll: real, pitch: real, yaw: real) returns (r: Frame)
    requires |q| == JOINTS && Reached(lib, q, f, ARM_LENGTH) && ArmPart(l) == ARM_LENGTH && Extra(l) == OriginPath(at, roll, pitch, yaw)
    ensures r == LinkFrame(lib, q, l)
  {
    hide Compose, FrameOf, TurnMat;
    r := Compose(f, OriginTransform(lib, at, roll, pitch, yaw));
    PathsValid(ARM_LENGTH, []);
    ghost var path := ARM[..ARM_LENGTH];
    ghost var s0, s1, s2, s3 := Offset(at), Bend(AlongZ, yaw), Bend(AlongY, pitch), Bend(AlongX, roll);
    FrameSnoc(lib, q, path, s0);
    FrameSnoc(lib, q, path + [s0], s1);
    FrameSnoc(lib, q, path + [s0] + [s1], s2);
    FrameSnoc(lib, q, path + [s0] + [s1] + [s2], s3);
    assert path + OriginPath(at, roll, pitch, yaw) == path + [s0] + [s1] + [s2] + [s3];
    ghost var f0, fz, fy, fx :=
      Frame(IdentityMat(), at), TurnFrame(lib, AlongZ, yaw), TurnFrame(lib, AlongY, pitch), TurnFrame(lib, AlongX, roll);
    ComposeAssociates(f, f0, fz);
    ComposeAssociates(f, Compose(f0, fz), fy);
    ComposeAssociates(f, Compose(Compose(f0, fz), fy), fx);
  }

  // ----- rebuilding one frame

  datatype KinematicsError = UnsupportedSensorParent

  predicate Supported(parent: nat) { parent == LINK2 || parent == LINK3_5 || parent == LINK5 || parent == LINK6 }

  /** `link_frame_from_q`: the frames of the sensor parents, rebuilt without the context. It throws for exactly
      the other links, and agrees with the context on the supported ones. */
  method LinkFrameFromQ(lib: Library, q: Vec, parent: nat) returns (r: Result<Frame, KinematicsError>)
    requires Circular(lib) && |q| == JOINTS
    ensures r == if Supported(parent) then Ok(LinkFrame(lib, q, parent)) else Err(UnsupportedSensorParent)
  {
    hide LinkFrame, Reached, Compose, OriginTransform, Circular;
    var transform := IdentityFrame();
    StartsAtBase(lib, q);
    transform := Turn(lib, q, transform, 0, AlongZ, 0);
    transform := Shift(lib, q, transform, 1, Point(0.0, 0.0, 0.197));
    if parent == LINK2 {
      transform := Turn(lib, q, transform, 2, AlongY, 1);
      RecordLink(lib, q, parent, transform, 3);
      return Ok(transform);
    }
    transform := Turn(lib, q, transform, 2, AlongY, 1);
    transform := Shift(lib, q, transform, 3, Point(0.0, -0.1875, 0.6127));
    transform := Turn(lib, q, transform, 4, AlongY, 2);
    var link35 := Shift(lib, q, transform, 5, Point(0.0, 0.1484, 0.0));
    if parent == LINK3_5 {
      RecordLink(lib, q, parent, link35, 6);
      return Ok(link35);
    }
    transform := Shift(lib, q, link35, 6, Point(0.0, 0.0, 0.57015));
    transform := Turn(lib, q, transform, 7, AlongY, 3);
    transform := Shift(lib, q, transform, 8, Point(0.0, -0.11715, 0.0));
    transform := Turn(lib, q, transform, 9, AlongZ, 4);
    if parent == LINK5 {
      RecordLink(lib, q, parent, transform, 10);
      return Ok(transform);
    }
    transform := Shift(lib, q, transform, 10, Point(0.0, 0.0, 0.11715));
    if parent == LINK6 {
      transform := Turn(lib, q, transform, 11, AlongY, 5);
      RecordLink(lib, q, parent, transform, 12);
      return Ok(transform);
    }
    return Err(UnsupportedSensorParent);
  }

  /** `sensor_position_from_q`; for the configured sensors it never throws and gives the context's point. */
  method SensorPositionFromQ(lib: Library, q: Vec, sensor: Sensor) returns (r: Result<Point, KinematicsError>)
    requires Circular(lib) && |q| == JOINTS
    ensures r == if Supported(sensor.parent) then Ok(SensorPoint(lib, q, sensor)) else Err(UnsupportedSensorParent)
    ensures sensor in SENSORS ==> r.Ok?
  {
    hide LinkFrame, Circular, Act;
    var frame := LinkFrameFromQ(lib, q, sensor.parent);
    if sensor in SENSORS {
      var i :| 0 <= i < |SENSORS| && SENSORS[i] == sensor;
      SensorParents(i);
    }
    match frame {
      case Ok(f) => r := Ok(Act(f, sensor.offset));
      case Err(e) => r := Err(e);
    }
  }

  /** `numerical_jacobian` of `sensor_position_from_q`, one perturbed evaluation per joint. */
  method NumericalJacobian(lib: Library, q: Vec, sensor: Sensor) returns (columns: seq<Point>)
    requires Circular(lib) && |q| == JOINTS && sensor in SENSORS
    ensures columns == SensorDifferences(lib, q, sensor, STEP_SIZE)
  {
    hide Circular, SensorPoint, Quotient, Subtracted;
    var reference := SensorPositionFromQ(lib, q, sensor);
    columns := seq(JOINTS, _ => ORIGIN);
    for j := 0 to JOINTS
      invariant |columns| == JOINTS
      invariant forall k | 0 <= k < j :: columns[k] == SensorDifferences(lib, q, sensor, STEP_SIZE)[k]
    {
      var moved := SensorPositionFromQ(lib, q[j := q[j] + STEP_SIZE], sensor);
      columns := columns[j := Quotient(Subtracted(moved.value, reference.value), STEP_SIZE)];
    }
  }

  /** A frame does not depend on the joints that are not on its path. */
  lemma {:induction false} FrameIgnores(lib: Library, q: Vec, path: seq<Segment>, j: nat, x: real)
    requires |q| == JOINTS && ValidPath(path) && j < JOINTS && forall k | 0 <= k < |path| && path[k].Joint? :: path[k].index != j
    ensures FrameOf(lib, q[j := x], path) == FrameOf(lib, q, path)
  {
    hide Compose;
    if path != [] { FrameIgnores(lib, q, path[..|path| - 1], j, x); }
  }

  /** The derivative of a sensor point in joint `j`. */
  function SensorVelocity(lib: Library, q: Vec, s: Sensor, j: nat): Point
    requires |q| == JOINTS && j < JOINTS
  {
    PathsValid(ArmPart(s.parent), Extra(s.parent));
    Velocity(lib, q, ARM[..ArmPart(s.parent)] + Extra(s.parent), s.offset, j)
  }

  /** The point along joint `j`. */
  ghost function SensorAlong(lib: Library, q: Vec, s: Sensor, j: nat): real -> Point
    requires |q| == JOINTS && j < JOINTS
  {
    t => SensorPoint(lib, q[j := t], s)
  }

  lemma SensorRate(lib: Library, q: Vec, s: Sensor, j: nat)
    requires Standard(lib) && |q| == JOINTS && j < JOINTS
    ensures PointRate(SensorAlong(lib, q, s, j), q[j], SensorPoint(lib, q, s), SensorVelocity(lib, q, s, j))
  {
    hide Standard, FrameOf, ChainPoint, PointRate, Velocity, Act;
    PathsValid(ArmPart(s.parent), Extra(s.parent));
    var path := ARM[..ArmPart(s.parent)] + Extra(s.parent);
    FrameActs(lib, q, path, s.offset);
    var f := SensorAlong(lib, q, s, j);
    forall t
      ensures f(t) == ChainPoint(lib, q[j := t], path, s.offset)
    {
      FrameActs(lib, q[j := t], path, s.offset);
    }
    ChainRate(lib, q, path, s.offset, j, f);
  }

  /** Every coordinate of two points differs by at most `bound`. */
  predicate Near(u: Point, v: Point, bound: real) { Abs(u.x - v.x) <= bound && Abs(u.y - v.y) <= bound && Abs(u.z - v.z) <= bound }

  /** A forward difference of a sensor point is off its derivative by at most a multiple of the step, for all steps small
      enough. */
  lemma DifferenceError(lib: Library, q: Vec, s: Sensor, j: nat) returns (rho: real, k: real)
    requires Standard(lib) && |q| == JOINTS && j < JOINTS
    ensures rho > 0.0 && k >= 0.0
    ensures forall h | h != 0.0 && Abs(h) <= rho ::
      Near(SensorDifferences(lib, q, s, h)[j], SensorVelocity(lib, q, s, j), Times(k, Abs(h)))
  {
    hide Standard, SensorPoint, SensorVelocity, PointRate;
    SensorRate(lib, q, s, j);
    rho, k := PointQuotient(SensorAlong(lib, q, s, j), q[j], SensorPoint(lib, q, s), SensorVelocity(lib, q, s, j));
  }

  lemma PointQuotient(f: real -> Point, c: real, p: Point, d: Point) returns (rho: real, k: real)
    requires PointRate(f, c, p, d)
    ensures rho > 0.0 && k >= 0.0
    ensures forall h | h != 0.0 && Abs(h) <= rho :: Near(Quotient(Subtracted(f(c + h), p), h), d, Times(k, Abs(h)))
  {
    hide Rate, DifferenceQuotient, Times, Near, Quotient, Subtracted;
    var rx, kx := RateQuotient(XOf(f), c, p.x, d.x);
    var ry, ky := RateQuotient(YOf(f), c, p.y, d.y);
    var rz, kz := RateQuotient(ZOf(f), c, p.z, d.z);
    rho, k := Min(rx, Min(ry, rz)), Max(kx, Max(ky, kz));
    forall h | h != 0.0 && Abs(h) <= rho
      ensures Near(Quotient(Subtracted(f(c + h), p), h), d, Times(k, Abs(h)))
    {
      Larger(kx, k, Abs(h));
      Larger(ky, k, Abs(h));
      Larger(kz, k, Abs(h));
      NearBy(f, c, p, d, h, Times(k, Abs(h)));
    }
  }

  lemma NearBy(f: real -> Point, c: real, p: Point, d: Point, h: real, bound: real)
    requires h != 0.0 && Abs(DifferenceQuotient(XOf(f), c, p.x, h) - d.x) <= bound
    requires Abs(DifferenceQuotient(YOf(f), c, p.y, h) - d.y) <= bound && Abs(DifferenceQuotient(ZOf(f), c, p.z, h) - d.z) <= bound
    ensures Near(Quotient(Subtracted(f(c + h), p), h), d, bound)
  {
    CoordinatesAt(f, c + h);
  }

  lemma Larger(a: real, b: real, s: real)
    requires a <= b && s >= 0.0
    ensures Times(a, s) <= Times(b, s)
  {
    ProductSign(b - a, s, (b - a) * s);
  }

  /** The joints that do not carry a sensor's link have zero columns, as in the exact Jacobian. */
  lemma IdleColumns(lib: Library, q: Vec, s: Sensor, j: nat)
    requires |q| == JOINTS && s in SENSORS && j < JOINTS && Slot(j) >= ArmPart(s.parent)
    ensures SensorDifferences(lib, q, s, STEP_SIZE)[j] == ORIGIN
  {
    hide FrameOf, Act;
    var i :| 0 <= i < |SENSORS| && SENSORS[i] == s;
    SensorParents(i);
    PathsValid(ArmPart(s.parent), Extra(s.parent));
    var path := ARM[..ArmPart(s.parent)] + Extra(s.parent);
    forall k | 0 <= k < |path| && path[k].Joint?
      ensures path[k].index != j
    {
      if path[k].index == j { SlotUnique(k, j); }
    }
    FrameIgnores(lib, q, path, j, q[j] + STEP_SIZE);
  }

  lemma SensorsAgree(lib: Library, q: Vec, c: KinematicsContext, i: nat)
    requires |q| == JOINTS && Describes(c, lib, q) && i < |SENSORS|
    ensures Supported(SENSORS[i].parent) && c.points[i].position == SensorPoint(lib, q, SENSORS[i])
    ensures c.points[i].position == Added(c.positions[SENSORS[i].parent], MatVec(c.rotations[SENSORS[i].parent], SENSORS[i].offset))
  {
    hide LinkFrame, MatVec;
    SensorParents(i);
    var l := SENSORS[i].parent;
    AddedOrder(c.positions[l], MatVec(c.rotations[l], SENSORS[i].offset));
  }

  // ----- what the context promises

  /** Every link rotation is proper and orthonormal. */
  lemma RotationsOrthonormal(lib: Library, q: Vec, c: KinematicsContext, l: nat)
    requires Circular(lib) && |q| == JOINTS && Describes(c, lib, q) && l < LINK_COUNT
    ensures ProperRotation(c.rotations[l]) && OrthonormalColumns(c.rotations[l])
  {
    hide Circular, FrameOf, ProperRotation, OrthonormalColumns;
    PathsValid(ArmPart(l), Extra(l));
    FrameIsProper(lib, q, ARM[..ArmPart(l)] + Extra(l));
    ProperIsOrthonormal(c.rotations[l]);
  }

  /** The lengths of the arm's offsets, added up. */
  function ArmReach(lib: Library): real { Reach(lib, ARM) }

  lemma {:induction false} ReachConcat(lib: Library, a: seq<Segment>, b: seq<Segment>)
    ensures Reach(lib, a + b) == Reach(lib, a) + Reach(lib, b)
  {
    hide Length;
    if a == [] {
      assert a + b == b;
    } else {
      ReachConcat(lib, a[1..], b);
      assert (a + b)[1..] == a[1..] + b;
    }
  }

  lemma GripperReach(lib: Library)
    requires Circular(lib)
    ensures Reach(lib, Extra(TCP_GRIPPER)) == GRIPPER
  {
    hide Circular;
    var path := Extra(TCP_GRIPPER);
    assert Reach(lib, path[4..]) == 0.0;
    assert Reach(lib, path[3..]) == 0.0 by { assert path[3..][1..] == path[4..]; }
    assert Reach(lib, path[2..]) == 0.0 by { assert path[2..][1..] == path[3..]; }
    assert Reach(lib, path[1..]) == 0.0 by { assert path[1..][1..] == path[2..]; }
    AlongYLength(lib, path[0].step, GRIPPER);
  }

  /** How far the gripper frame sits in front of the tool flange. */
  const GRIPPER: real := 0.285398

  lemma AlongYLength(lib: Library, v: Point, d: real)
    requires Circular(lib) && v == Point(0.0, -d, 0.0) && d > 0.0
    ensures Length(lib, v) == d
  {
    hide Standard;
    OffsetLength(lib, v);
    assert Inner(v, v) == d * d;
    SameSquare(Length(lib, v), d);
  }

  lemma SameSquare(a: real, b: real)
    requires a >= 0.0 && b > 0.0 && a * a == b * b
    ensures a == b
  {
    var d := if a > b then a - b else b - a;
    assert d * (a + b) == 0.0;
    ProductSign(d, a + b, d * (a + b));
  }

  /** No link leaves the sphere around the base whose radius is the sum of the offset lengths that lead to it. */
  lemma LinkWithinReach(lib: Library, q: Vec, c: KinematicsContext, l: nat)
    requires Circular(lib) && |q| == JOINTS && Describes(c, lib, q) && l < LINK_COUNT
    ensures Length(lib, c.positions[l]) <= Reach(lib, ARM[..ArmPart(l)]) + Reach(lib, Extra(l))
  {
    hide Circular, FrameOf, Reach, Inner, ChainPoint;
    PathsValid(ArmPart(l), Extra(l));
    var path := ARM[..ArmPart(l)] + Extra(l);
    FramePosition(lib, q, path);
    WithinReach(lib, q, path);
    ReachConcat(lib, ARM[..ArmPart(l)], Extra(l));
    LengthBelow(lib, c.positions[l], Reach(lib, path));
  }

  /** The tool frames never leave the sphere around the base whose radius is the sum of the arm's offset lengths, the
      gripper's that sphere widened by its own offset. */
  lemma ToolWithinReach(lib: Library, q: Vec, c: KinematicsContext)
    requires Circular(lib) && |q| == JOINTS && Describes(c, lib, q)
    ensures Length(lib, c.positions[TCP]) <= ArmReach(lib) && c.positions[TCP_RMP] == c.positions[TCP]
    ensures Length(lib, c.positions[TCP_GRIPPER]) <= ArmReach(lib) + GRIPPER
  {
    hide Circular, FrameOf, Reach, Inner, ChainPoint;
    PathsValid(ARM_LENGTH, []);
    PathsValid(ARM_LENGTH, Extra(TCP_RMP));
    assert ARM[..ARM_LENGTH] + [] == ARM && ARM[..ARM_LENGTH] == ARM;
    FramePosition(lib, q, ARM);
    FramePosition(lib, q, ARM + Extra(TCP_RMP));
    NothingAttached(lib, q, ARM);
    LinkWithinReach(lib, q, c, TCP);
    assert Extra(TCP) == [] && [] + [] == Extra(TCP);
    ReachConcat(lib, [], []);
    LinkWithinReach(lib, q, c, TCP_GRIPPER);
    GripperReach(lib);
  }

  /** An `origin_transform` without offset does not move the origin. */
  lemma NothingAttached(lib: Library, q: Vec, path: seq<Segment>)
    requires |q| == JOINTS && ValidPath(path)
    ensures ValidPath(path + Extra(TCP_RMP))
    ensures ChainPoint(lib, q, path + Extra(TCP_RMP), ORIGIN) == ChainPoint(lib, q, path, ORIGIN)
  {
    hide ChainPoint, Turned;
    var s0, s1, s2, s3 := Offset(ORIGIN), Bend(AlongZ, 0.0), Bend(AlongY, 0.0), Bend(AlongX, 0.0);
    assert path + Extra(TCP_RMP) == path + [s0] + [s1] + [s2] + [s3];
    TurnedOrigin(lib, q, s1);
    TurnedOrigin(lib, q, s2);
    TurnedOrigin(lib, q, s3);
    ChainSnoc(lib, q, path, s0, ORIGIN);
    ChainSnoc(lib, q, path + [s0], s1, ORIGIN);
    ChainSnoc(lib, q, path + [s0] + [s1], s2, ORIGIN);
    ChainSnoc(lib, q, path + [s0] + [s1] + [s2], s3, ORIGIN);
  }

  lemma LengthBelow(lib: Library, v: Point, r: real)
    requires Circular(lib) && r >= 0.0 && Inner(v, v) <= r * r
    ensures Length(lib, v) <= r
  {
    hide Circular, Inner;
    OffsetLength(lib, v);
    var s := Length(lib, v);
    if s > r { LargerSquare(s, r, s * s, r * r); }
  }

  // ----- the Jacobians are the derivatives

  lemma SlotAhead(n: nat, extra: seq<Segment>, j: nat)
    requires n <= ARM_LENGTH && j < JOINTS && Slot(j) >= n && forall k | 0 <= k < |extra| :: !extra[k].Joint?
    ensures NotIn(ARM[..n] + extra, j)
  {
    forall k | 0 <= k < n && ARM[k].Joint?
      ensures ARM[k].index != j
    {
      if ARM[k].index == j { SlotUnique(k, j); }
    }
  }

  lemma SlotBehind(n: nat, extra: seq<Segment>, j: nat)
    requires n <= ARM_LENGTH && j < JOINTS && Slot(j) < n && forall k | 0 <= k < |extra| :: !extra[k].Joint?
    ensures NotIn(ARM[..Slot(j)], j) && NotIn(ARM[Slot(j) + 1..n] + extra, j)
    ensures ARM[..n] + extra == ARM[..Slot(j)] + [Joint(ARM[Slot(j)].axis, j)] + (ARM[Slot(j) + 1..n] + extra)
  {
    forall k | 0 <= k < n && ARM[k].Joint? && k != Slot(j)
      ensures ARM[k].index != j
    {
      if ARM[k].index == j { SlotUnique(k, j); }
    }
  }

  /** Which joints the Jacobian counts: those before the link's own, which cannot move its origin. */
  lemma ActiveAre(l: nat, j: nat)
    requires l < LINK_COUNT && j < JOINTS
    ensures j < ActiveJoints(l) ==> Slot(j) < ArmPart(l)
    ensures Slot(j) < ArmPart(l) && j >= ActiveJoints(l) ==> Slot(j) + 1 == ArmPart(l) && Extra(l) == []
  {
  }

  lemma OwnJoint(lib: Library, q: Vec, k: nat)
    requires |q| == JOINTS && k < ARM_LENGTH && ARM[k].Joint?
    ensures ValidPath(ARM[..k]) && ValidPath(ARM[..k + 1]) && ChainPoint(lib, q, ARM[..k + 1], ORIGIN) == ChainPoint(lib, q, ARM[..k], ORIGIN)
  {
    hide FrameOf, Compose, ChainPoint;
    ArmStep(lib, q, k);
    FramePosition(lib, q, ARM[..k]);
    FramePosition(lib, q, ARM[..k + 1]);
  }

  lemma CrossSelf(a: Point, p: Point)
    ensures CrossProduct(a, Subtracted(p, p)) == ORIGIN
  {
  }

  lemma JointFrameIs(lib: Library, q: Vec, j: nat)
    requires |q| == JOINTS && j < JOINTS
    ensures ValidPath(ARM[..Slot(j)])
    ensures JointOrigin(lib, q, j) == ChainPoint(lib, q, ARM[..Slot(j)], ORIGIN)
    ensures JointAxis(lib, q, j) == ChainVector(lib, q, ARM[..Slot(j)], UnitAxis(ARM[Slot(j)].axis))
  {
    hide FrameOf, ChainPoint, ChainVector, MatVec, UnitAxis;
    PathsValid(Slot(j), []);
    FramePosition(lib, q, ARM[..Slot(j)]);
    FrameActs(lib, q, ARM[..Slot(j)], UnitAxis(ARM[Slot(j)].axis));
  }

  lemma ColumnIsVelocity(lib: Library, q: Vec, l: nat, j: nat)
    requires Circular(lib) && |q| == JOINTS && l < LINK_COUNT && j < JOINTS
    ensures ValidPath(ARM[..ArmPart(l)] + Extra(l))
    ensures LinkJacobian(lib, q, l)[j] == Velocity(lib, q, ARM[..ArmPart(l)] + Extra(l), ORIGIN, j)
  {
    hide Circular, FrameOf, ChainPoint, ChainVector, CrossProduct, Subtracted, MatVec, UnitAxis, Velocity, JointOrigin, JointAxis,
      ArmPart, Extra, ActiveJoints, Slot;
    var n, extra := ArmPart(l), Extra(l);
    NoJoints(l);
    PathsValid(n, extra);
    ActiveAre(l, j);
    var path := ARM[..n] + extra;
    FramePosition(lib, q, path);
    if Slot(j) >= n {
      SlotAhead(n, extra, j);
      OutsideJoint(lib, q, path, ORIGIN, j);
    } else {
      SlotBehind(n, extra, j);
      JointFrameIs(lib, q, j);
      PathsValid(n, []);
      var post := ARM[Slot(j) + 1..n] + extra;
      PostValid(n, extra, Slot(j) + 1);
      InsideJoint(lib, q, ARM[..Slot(j)], ARM[Slot(j)].axis, j, post, ORIGIN);
      if j >= ActiveJoints(l) {
        assert path == ARM[..Slot(j) + 1];
        OwnJoint(lib, q, Slot(j));
        CrossSelf(ChainVector(lib, q, ARM[..Slot(j)], UnitAxis(ARM[Slot(j)].axis)), ChainPoint(lib, q, path, ORIGIN));
      }
    }
  }

  lemma NoJoints(l: nat)
    ensures forall k | 0 <= k < |Extra(l)| :: !Extra(l)[k].Joint?
  {
  }

  lemma PostValid(n: nat, extra: seq<Segment>, from: nat)
    requires from <= n <= ARM_LENGTH && ValidPath(ARM[..n]) && forall k | 0 <= k < |extra| :: !extra[k].Joint?
    ensures ValidPath(ARM[from..n] + extra)
  {
    var post := ARM[from..n] + extra;
    forall k | 0 <= k < |post| && post[k].Joint?
      ensures post[k].index < JOINTS
    {
      if k < n - from { assert post[k] == ARM[..n][from + k]; }
    }
  }

  /** `f` is the link's position as joint `j` moves. */
  ghost predicate MovesLink(f: real -> Point, lib: Library, q: Vec, l: nat, j: nat)
    requires |q| == JOINTS && j < JOINTS
  {
    forall t :: f(t) == LinkFrame(lib, q[j := t], l).translation
  }

  /** Column `j` of every link's Jacobian is the derivative of the link's position in joint `j`, although the
      Jacobian is taken before the link's own turn and counts only the joints before it. */
  lemma JacobianExact(lib: Library, q: Vec, l: nat, j: nat, f: real -> Point)
    requires Circular(lib) && |q| == JOINTS && l < LINK_COUNT && j < JOINTS && MovesLink(f, lib, q, l, j)
    ensures PointRate(f, q[j], LinkFrame(lib, q, l).translation, LinkJacobian(lib, q, l)[j])
  {
    hide Circular, Standard, FrameOf, ChainPoint, PointRate, Velocity, ArmPart, Extra, MovesLink, LinkFrame, LinkJacobian, ValidPath;
    ColumnIsVelocity(lib, q, l, j);
    LinkPosition(lib, q, l);
    CircularStandard(lib);
    PathRate(lib, q, l, j, ARM[..ArmPart(l)] + Extra(l), f);
  }

  lemma PathRate(lib: Library, q: Vec, l: nat, j: nat, path: seq<Segment>, f: real -> Point)
    requires Standard(lib) && |q| == JOINTS && j < JOINTS && ValidPath(path) && path == ARM[..ArmPart(l)] + Extra(l)
    requires MovesLink(f, lib, q, l, j)
    ensures PointRate(f, q[j], ChainPoint(lib, q, path, ORIGIN), Velocity(lib, q, path, ORIGIN, j))
  {
    hide Standard, FrameOf, ChainPoint, PointRate, Velocity, ArmPart, Extra, LinkFrame, ValidPath;
    forall t
      ensures f(t) == ChainPoint(lib, q[j := t], path, ORIGIN)
    {
      LinkPosition(lib, q[j := t], l);
    }
    ChainRate(lib, q, path, ORIGIN, j, f);
  }

  lemma LinkPosition(lib: Library, q: Vec, l: nat)
    requires |q| == JOINTS && ValidPath(ARM[..ArmPart(l)] + Extra(l))
    ensures LinkFrame(lib, q, l).translation == ChainPoint(lib, q, ARM[..ArmPart(l)] + Extra(l), ORIGIN)
  {
    hide FrameOf, ChainPoint;
    FramePosition(lib, q, ARM[..ArmPart(l)] + Extra(l));
  }

  lemma CircularStandard(lib: Library)
    requires Circular(lib)
    ensures Standard(lib)
  {
    hide Standard;
  }

  lemma StartsAtBase(lib: Library, q: Vec)
    requires |q| == JOINTS
    ensures Reached(lib, q, IdentityFrame(), 0)
  {
  }

  lemma RecordLink(lib: Library, q: Vec, l: nat, f: Frame, k: nat)
    requires |q| == JOINTS && k <= ARM_LENGTH && Reached(lib, q, f, k) && k == ArmPart(l) && Extra(l) == []
    ensures LinkFrame(lib, q, l) == f
  {
    assert ARM[..k] + [] == ARM[..k];
  }

  lemma RecordJoint(lib: Library, q: Vec, j: nat, f: Frame)
    requires |q| == JOINTS && j < JOINTS && Reached(lib, q, f, Slot(j))
    ensures f.translation == JointOrigin(lib, q, j) && MatVec(f.linear, UnitAxis(ARM[Slot(j)].axis)) == JointAxis(lib, q, j)
  {
    hide FrameOf, MatVec;
  }
}
