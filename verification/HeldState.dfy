/** What the held "safe" state promises: it is stored after the guard and not checked again. */
module HeldState {
  import opened LinearAlgebra
  import opened RmpConfig
  import opened Elementary
  import ControlLoop
  import opened SimulationLoop
  import opened Kinematics
  import opened ArmModel
  import opened FloorSafety

  // ----- the exact condition

  /** The measured and the predicted state of an open tick; neither depends on the floor check. */
  ghost function MeasuredOf(c: ControlLoop.Config, s: Sim): (m: ControlLoop.RobotState)
    requires ControlLoop.ValidConfig(c) && ValidSim(s)
    ensures ControlLoop.IsState(m)
  {
    ControlLoop.Measured(c, s.loop, s.robot).0
  }

  ghost function PredictedOf(c: ControlLoop.Config, s: Sim, solve: ControlLoop.RobotState -> Option<Vec>): (p: ControlLoop.RobotState)
    requires ControlLoop.ValidConfig(c) && ValidSim(s) && Solves(solve)
    ensures ControlLoop.IsState(p)
  {
    var (m, estimator) := ControlLoop.Measured(c, s.loop, s.robot);
    ControlLoop.Predicted(c, s.loop.(estimator := estimator), m, solve)
  }

  ghost predicate Solves(solve: ControlLoop.RobotState -> Option<Vec>) {
    forall s | ControlLoop.IsState(s) && solve(s).Some? :: |solve(s).value| == ControlLoop.JOINTS
  }

  /** The held pose after the tick. */
  ghost function HeldPose(c: ControlLoop.Config, s: Sim, solve: ControlLoop.RobotState -> Option<Vec>, low: Vec -> bool): Option<Vec>
    requires ControlLoop.ValidConfig(c) && ValidSim(s) && Solves(solve)
  {
    var held := Stepped(c, s, Open(solve, low)).loop.held;
    if held.Some? then Some(held.value.q) else None
  }

  lemma HeldIsGuarded(c: ControlLoop.Config, s: Sim, solve: ControlLoop.RobotState -> Option<Vec>, low: Vec -> bool)
    requires ControlLoop.ValidConfig(c) && ValidSim(s) && Solves(solve)
    ensures Triggers(c, s, Open(solve, low)) <==> low(MeasuredOf(c, s).q) || low(PredictedOf(c, s, solve).q)
    ensures !Triggers(c, s, Open(solve, low)) ==>
      HeldPose(c, s, solve, low) == Some(ControlLoop.Guarded(c, MeasuredOf(c, s), PredictedOf(c, s, solve)).q)
  {
    hide ControlLoop.Guarded, ControlLoop.Estimated, ControlLoop.ControlState, ControlLoop.Integrated, ControlLoop.CommandedAcceleration;
  }

  /** The pose of the held state is that of the prediction if and only if the guard had nothing to shorten. */
  lemma GuardedUnchangedIff(c: ControlLoop.Config, m: ControlLoop.RobotState, p: ControlLoop.RobotState)
    requires ControlLoop.ValidConfig(c) && ControlLoop.IsState(m) && ControlLoop.IsState(p)
    ensures ControlLoop.Guarded(c, m, p).q == p.q <==> forall j | 0 <= j < ControlLoop.JOINTS :: Abs(p.q[j] - m.q[j]) <= ControlLoop.StepLimit(c)
    ensures ControlLoop.Guarded(c, m, p).q != p.q ==> ControlLoop.Guarded(c, m, p).q != m.q
  {
    hide ControlLoop.Guarded, ControlLoop.StepLimit, ControlLoop.ValidConfig;
    var g := ControlLoop.Guarded(c, m, p);
    StepPositive(c);
    forall j | 0 <= j < ControlLoop.JOINTS
      ensures g.q[j] == p.q[j] <==> Abs(p.q[j] - m.q[j]) <= ControlLoop.StepLimit(c)
      ensures g.q[j] != p.q[j] ==> g.q[j] != m.q[j]
    {
      ControlLoop.GuardedBetween(c, m, p, j);
    }
    if g.q != p.q {
      var j :| 0 <= j < ControlLoop.JOINTS && g.q[j] != p.q[j];
      assert g.q[j] != m.q[j];
    }
  }

  lemma StepPositive(c: ControlLoop.Config)
    requires ControlLoop.ValidConfig(c)
    ensures ControlLoop.StepLimit(c) > 0.0
  {
    ControlLoop.StepLimitIs(c);
  }

  /** For an open tick with its measurement and prediction given: the stored held state passes every floor check that
      lets the tick through if and only if the prediction is within the guard step of the measurement in every joint. */
  lemma HeldPassesIff(c: ControlLoop.Config, s: Sim, solve: ControlLoop.RobotState -> Option<Vec>)
    requires ControlLoop.ValidConfig(c) && ValidSim(s) && Solves(solve)
    ensures (forall low: Vec -> bool | !Triggers(c, s, Open(solve, low)) ::
               HeldPose(c, s, solve, low).Some? && !low(HeldPose(c, s, solve, low).value))
       <==> forall j | 0 <= j < ControlLoop.JOINTS ::
              Abs(PredictedOf(c, s, solve).q[j] - MeasuredOf(c, s).q[j]) <= ControlLoop.StepLimit(c)
  {
    hide ControlLoop.Guarded, ControlLoop.StepLimit, Triggers, HeldPose, MeasuredOf, PredictedOf;
    var m, p := MeasuredOf(c, s), PredictedOf(c, s, solve);
    var g := ControlLoop.Guarded(c, m, p).q;
    GuardedUnchangedIff(c, m, p);
    if g == p.q {
      forall low: Vec -> bool | !Triggers(c, s, Open(solve, low))
        ensures HeldPose(c, s, solve, low).Some? && !low(HeldPose(c, s, solve, low).value)
      {
        HeldIsGuarded(c, s, solve, low);
      }
    } else {
      var low := (q: Vec) => q == g;
      HeldIsGuarded(c, s, solve, low);
      assert !Triggers(c, s, Open(solve, low)) && HeldPose(c, s, solve, low) == Some(g) && low(g);
    }
  }

  // ----- the real floor check on the real arm

  /** The kinematics context of a pose. */
  ghost function ContextOf(lib: Library, q: Vec): (c: KinematicsContext)
    requires |q| == Kinematics.JOINTS
    ensures Describes(c, lib, q) && Sized(c)
  {
    KinematicsContext(
      seq(LINK_COUNT, l requires 0 <= l < LINK_COUNT => LinkFrame(lib, q, l).translation),
      seq(LINK_COUNT, l requires 0 <= l < LINK_COUNT => LinkFrame(lib, q, l).linear),
      seq(LINK_COUNT, l requires 0 <= l < LINK_COUNT => LinkJacobian(lib, q, l)),
      seq(Kinematics.JOINTS, j requires 0 <= j < Kinematics.JOINTS => JointOrigin(lib, q, j)),
      seq(Kinematics.JOINTS, j requires 0 <= j < Kinematics.JOINTS => JointAxis(lib, q, j)),
      seq(|SENSORS|, i requires 0 <= i < |SENSORS| => ArmModel.ControlPoint(SensorPoint(lib, q, SENSORS[i]), SENSORS[i].radius)),
      seq(|SENSORS|, i requires 0 <= i < |SENSORS| => SensorDifferences(lib, q, SENSORS[i], STEP_SIZE)))
  }

  /** The enabled floor check of a pose, without guard bodies. */
  ghost function FloorCheck(lib: Library, settings: Settings): Vec -> bool {
    q => |q| == Kinematics.JOINTS && SomethingLow(settings, ContextOf(lib, q), [])
  }

  /** A floor far below the arm, so that only the height of link 6 decides. */
  function Link6Floor(z: real): Settings { Settings(false, true, -20.0, z, -20.0) }

  function UnitLong(v: Point): bool { Inner(v, v) <= 1.0 }

  /** The offsets of a path are at most one metre long. */
  ghost predicate ShortOffsets(path: seq<Segment>) {
    forall k | 0 <= k < |path| && path[k].Offset? :: UnitLong(path[k].step)
  }

  lemma LengthAtMostOne(lib: Library, v: Point)
    requires Circular(lib) && UnitLong(v)
    ensures Length(lib, v) <= 1.0
  {
    hide Circular, Inner;
    LengthBelow(lib, v, 1.0);
  }

  lemma {:induction false} ReachAtMost(lib: Library, path: seq<Segment>)
    requires Circular(lib) && ShortOffsets(path)
    ensures Reach(lib, path) <= |path| as real
  {
    hide Circular, UnitLong, Length;
    if path != [] {
      ReachAtMost(lib, path[1..]);
      if path[0].Offset? { LengthAtMostOne(lib, path[0].step); }
    }
  }

  /** The end of a path of short offsets is no lower than the path is long. */
  lemma EndAbove(lib: Library, q: Vec, path: seq<Segment>)
    requires Circular(lib) && |q| == Kinematics.JOINTS && ValidPath(path) && ShortOffsets(path)
    ensures ChainPoint(lib, q, path, ORIGIN).z >= -(|path| as real)
  {
    hide Circular, ChainPoint, Reach, UnitLong, Inner;
    WithinReach(lib, q, path);
    ReachAtMost(lib, path);
    InBallHeight(ChainPoint(lib, q, path, ORIGIN), Reach(lib, path));
  }

  lemma ArmIsShort(n: nat, l: nat)
    requires n <= ARM_LENGTH
    ensures ShortOffsets(ARM[..n] + Extra(l))
  {
    ArmOffsetsShort();
    ExtraIsShort(l);
    hide UnitLong;
  }

  lemma ArmOffsetsShort()
    ensures ShortOffsets(ARM)
  {
    forall k | 0 <= k < |ARM| && ARM[k].Offset?
      ensures UnitLong(ARM[k].step)
    {
      ShortStep(ARM[k].step);
    }
  }

  lemma ExtraIsShort(l: nat)
    ensures ShortOffsets(Extra(l))
  {
    forall k | 0 <= k < |Extra(l)| && Extra(l)[k].Offset?
      ensures UnitLong(Extra(l)[k].step)
    {
      ShortStep(Extra(l)[k].step);
    }
  }

  /** Small coordinates make a short vector. */
  lemma ShortStep(v: Point)
    requires Abs(v.x) <= 0.07 && Abs(v.y) <= 0.5 && Abs(v.z) <= 0.7
    ensures UnitLong(v)
  {
    SquareBelow(v.x, 0.07, 0.0049);
    SquareBelow(v.y, 0.5, 0.25);
    SquareBelow(v.z, 0.7, 0.49);
  }

  lemma SquareBelow(x: real, b: real, bb: real)
    requires Abs(x) <= b && bb == b * b
    ensures Times(x, x) <= bb
  {
    ProductSign(b - x, b + x, (b - x) * (b + x));
    assert (b - x) * (b + x) == bb - x * x;
  }

  /** Every link and joint is above the far floor. */
  lemma LinksAbove(lib: Library, q: Vec, l: nat)
    requires Circular(lib) && |q| == Kinematics.JOINTS && l < LINK_COUNT
    ensures LinkFrame(lib, q, l).translation.z >= -20.0
  {
    hide Circular, FrameOf, ChainPoint, Extra, ShortOffsets, ValidPath;
    NoJoints(l);
    PathsValid(ArmPart(l), Extra(l));
    ArmModel.LinkPosition(lib, q, l);
    ArmIsShort(ArmPart(l), l);
    EndAbove(lib, q, ARM[..ArmPart(l)] + Extra(l));
    ExtraLength(l);
  }

  lemma ExtraLength(l: nat)
    ensures |Extra(l)| <= 4
  {
  }

  lemma JointsAbove(lib: Library, q: Vec, j: nat)
    requires Circular(lib) && |q| == Kinematics.JOINTS && j < Kinematics.JOINTS
    ensures JointOrigin(lib, q, j).z >= -20.0
  {
    hide Circular, FrameOf, ChainPoint, ShortOffsets, ValidPath;
    PathsValid(Slot(j), []);
    FramePosition(lib, q, ARM[..Slot(j)]);
    ArmIsShort(Slot(j), 0);
    assert ARM[..Slot(j)] + Extra(0) == ARM[..Slot(j)];
    EndAbove(lib, q, ARM[..Slot(j)]);
  }

  lemma SensorsAbove(lib: Library, q: Vec, i: nat)
    requires Circular(lib) && |q| == Kinematics.JOINTS && i < |SENSORS|
    ensures SensorPoint(lib, q, SENSORS[i]).z >= -19.0
  {
    hide Circular, FrameOf, ChainPoint, ShortOffsets, ValidPath, Act;
    var sensor := SENSORS[i];
    SensorParents(i);
    var path := ARM[..ArmPart(sensor.parent)];
    PathsValid(ArmPart(sensor.parent), []);
    assert path + Extra(sensor.parent) == path;
    FrameActs(lib, q, path, sensor.offset);
    ChainSnoc(lib, q, path, Offset(sensor.offset), ORIGIN);
    assert Added(ORIGIN, sensor.offset) == sensor.offset;
    SensorShort(i);
    ArmIsShort(ArmPart(sensor.parent), 0);
    SnocShort(path, Offset(sensor.offset));
    EndAbove(lib, q, path + [Offset(sensor.offset)]);
  }

  lemma SnocShort(path: seq<Segment>, s: Segment)
    requires ShortOffsets(path + Extra(0)) && s.Offset? && UnitLong(s.step)
    ensures ShortOffsets(path + [s])
  {
    assert path + Extra(0) == path;
  }

  lemma SensorShort(i: nat)
    requires i < |SENSORS|
    ensures UnitLong(SENSORS[i].offset) && SENSORS[i].radius == 0.1
  {
    SensorSmall(i);
    var v := SENSORS[i].offset;
    SquareBelow(v.x, 0.08, 0.0064);
    SquareBelow(v.y, 0.3, 0.09);
    SquareBelow(v.z, 0.5, 0.25);
  }

  lemma SensorSmall(i: nat)
    requires i < |SENSORS|
    ensures var s := SENSORS[i]; Abs(s.offset.x) <= 0.08 && Abs(s.offset.y) <= 0.3 && Abs(s.offset.z) <= 0.5 && s.radius == 0.1
  {
  }

  /** With the far floor, a pose is low exactly when link 6 is. */
  lemma FloorCheckIs(lib: Library, q: Vec, z: real)
    requires Circular(lib) && |q| == Kinematics.JOINTS
    ensures FloorCheck(lib, Link6Floor(z))(q) <==> LinkFrame(lib, q, LINK6).translation.z < z
  {
    hide Circular, LinkFrame, LinkJacobian, JointOrigin, JointAxis, SensorPoint, InBall;
    var c := ContextOf(lib, q);
    forall l | 0 <= l < LINK_COUNT
      ensures c.positions[l].z >= -20.0
    {
      LinksAbove(lib, q, l);
    }
    forall j | 0 <= j < Kinematics.JOINTS
      ensures c.origins[j].z >= -20.0
    {
      JointsAbove(lib, q, j);
    }
    forall i, p | 0 <= i < |c.points| && InBall(p, c.points[i].position, c.points[i].radius)
      ensures p.z >= -20.0
    {
      SensorsAbove(lib, q, i);
      SensorShort(i);
      BallBottom(c.points[i].position, c.points[i].radius);
    }
  }

  // ----- the height of link 6

  lemma ArmBack(lib: Library, q: Vec, k: nat, v: Point)
    requires |q| == Kinematics.JOINTS && k < ARM_LENGTH
    ensures ValidPath(ARM[..k]) && ValidPath(ARM[..k + 1]) && (ARM[k].Joint? ==> ARM[k].index < Kinematics.JOINTS)
    ensures ChainPoint(lib, q, ARM[..k + 1], v) == ChainPoint(lib, q, ARM[..k], Moved(lib, q, ARM[k], v))
  {
    hide ChainPoint, Moved;
    PathsValid(k, []);
    PathsValid(k + 1, []);
    assert ARM[..k] + [ARM[k]] == ARM[..k + 1];
    ChainSnoc(lib, q, ARM[..k], ARM[k], v);
  }

  lemma TurnAtRest(lib: Library, q: Vec, k: nat, v: Point)
    requires Circular(lib) && |q| == Kinematics.JOINTS && k < ARM_LENGTH && ARM[k].Joint? && ARM[k].index < Kinematics.JOINTS
    requires q[ARM[k].index] == 0.0
    ensures Moved(lib, q, ARM[k], v) == v
  {
    hide Standard, OnCircle;
    StillTurn(ARM[k].axis, lib.cos(0.0), lib.sin(0.0), v);
  }

  lemma StillTurn(a: TurnAxis, c: real, s: real, v: Point)
    requires c == 1.0 && s == 0.0
    ensures TurnedBy(a, c, s, v) == v
  {
  }

  /** Only the shoulder and the elbow are bent. */
  function Bent(a: real, b: real): Vec { [0.0, a, b, 0.0, 0.0, 0.0] }

  function Upper(): real { 0.6127 }

  function Fore(): real { 0.6873 }

  /** The height of link 6 with the shoulder at `a` and the elbow at `b`. */
  function BentHeight(lib: Library, a: real, b: real): real {
    HeightOf(lib.cos(a), lib.sin(a), lib.cos(b), lib.sin(b))
  }

  function HeightOf(ca: real, sa: real, cb: real, sb: real): real {
    0.197 + Times(ca, Upper() + Times(cb, Fore())) - Times(sa, Times(sb, Fore()))
  }

  lemma Link6Height(lib: Library, a: real, b: real)
    requires Circular(lib)
    ensures LinkFrame(lib, Bent(a, b), LINK6).translation.z == BentHeight(lib, a, b)
  {
    hide Circular, ChainPoint, Moved, LinkFrame;
    var q := Bent(a, b);
    PathsValid(12, Extra(LINK6));
    ArmModel.LinkPosition(lib, q, LINK6);
    assert ARM[..12] + Extra(LINK6) == ARM[..12];
    TurnAtRest(lib, q, 11, ORIGIN);
    ArmBack(lib, q, 11, ORIGIN);
    var v10 := Point(0.0, 0.0, 0.11715);
    ArmBack(lib, q, 10, ORIGIN);
    OffsetMoves(lib, q, 10, ORIGIN, v10);
    ArmBack(lib, q, 9, v10);
    TurnAtRest(lib, q, 9, v10);
    var v8 := Point(0.0, -0.11715, 0.11715);
    ArmBack(lib, q, 8, v10);
    OffsetMoves(lib, q, 8, v10, v8);
    ArmBack(lib, q, 7, v8);
    TurnAtRest(lib, q, 7, v8);
    var v6 := Point(0.0, -0.11715, Fore());
    ArmBack(lib, q, 6, v8);
    OffsetMoves(lib, q, 6, v8, v6);
    var v5 := Point(0.0, 0.03125, Fore());
    ArmBack(lib, q, 5, v6);
    OffsetMoves(lib, q, 5, v6, v5);
    var v4 := Point(Times(lib.sin(b), Fore()), 0.03125, Times(lib.cos(b), Fore()));
    ArmBack(lib, q, 4, v5);
    ElbowMoves(lib, q, v5);
    var v3 := Point(v4.x, -0.15625, Upper() + v4.z);
    ArmBack(lib, q, 3, v4);
    OffsetMoves(lib, q, 3, v4, v3);
    ArmBack(lib, q, 2, v3);
    var v2 := Moved(lib, q, ARM[2], v3);
    ShoulderMoves(lib, q, v3);
    var v1 := Point(v2.x, v2.y, v2.z + 0.197);
    ArmBack(lib, q, 1, v2);
    OffsetMoves(lib, q, 1, v2, v1);
    ArmBack(lib, q, 0, v1);
    TurnAtRest(lib, q, 0, v1);
    NothingLeft(lib, q, v1);
  }

  lemma NothingLeft(lib: Library, q: Vec, v: Point)
    requires |q| == Kinematics.JOINTS
    ensures ChainPoint(lib, q, ARM[..0], v) == v
  {
  }

  lemma OffsetMoves(lib: Library, q: Vec, k: nat, v: Point, w: Point)
    requires |q| == Kinematics.JOINTS && k < ARM_LENGTH && ARM[k].Offset? && w == Added(v, ARM[k].step)
    ensures Moved(lib, q, ARM[k], v) == w
  {
  }

  lemma ElbowMoves(lib: Library, q: Vec, v: Point)
    requires |q| == Kinematics.JOINTS && v.x == 0.0
    ensures ARM[4].index < Kinematics.JOINTS
    ensures Moved(lib, q, ARM[4], v) == Point(Times(lib.sin(q[2]), v.z), v.y, Times(lib.cos(q[2]), v.z))
  {
    TurnY(lib.cos(q[2]), lib.sin(q[2]), v);
    TimesOf(lib.cos(q[2]), 0.0);
    TimesOf(-lib.sin(q[2]), 0.0);
  }

  lemma TurnY(c: real, s: real, v: Point)
    ensures TurnedBy(AlongY, c, s, v) == Point(Times(c, v.x) + Times(s, v.z), v.y, Times(-s, v.x) + Times(c, v.z))
  {
  }

  lemma ShoulderMoves(lib: Library, q: Vec, v: Point)
    requires |q| == Kinematics.JOINTS
    ensures ARM[2].index < Kinematics.JOINTS
    ensures Moved(lib, q, ARM[2], v).z == Times(lib.cos(q[1]), v.z) - Times(lib.sin(q[1]), v.x)
  {
    TurnY(lib.cos(q[1]), lib.sin(q[1]), v);
    MinusTimes(v.x, lib.sin(q[1]));
    TimesOf(v.x, -lib.sin(q[1]));
    TimesOf(v.x, lib.sin(q[1]));
  }

  // ----- a held state below the floor

  /** Cosine is even, sine is odd. */
  ghost predicate Mirrored(lib: Library) { forall t :: lib.cos(-t) == lib.cos(t) && lib.sin(-t) == -lib.sin(t) }

  /** A turn that lowers what it tilts. */
  ghost predicate Tilts(lib: Library, h: real) { 0.0001 <= h <= 1.0 && lib.cos(h) < 1.0 }

  /** The arm's joint limits. */
  const LIMIT: real := 3.14159

  function Limits(x: real): (r: Vec)
    ensures |r| == ControlLoop.JOINTS
  {
    seq(ControlLoop.JOINTS, _ => x)
  }

  /** One tick per second, a guard step of `h`, pure measured feedback. */
  function WitnessConfig(h: real): (c: ControlLoop.Config)
    ensures ControlLoop.ValidConfig(c)
  {
    ControlLoop.Configured(Limits(-LIMIT), Limits(LIMIT), 1.0, 1.0, true, false, 1.0, 4.0, h, h, 1.0)
  }

  /** At rest with the elbow bent by `h`. */
  function WitnessSim(h: real): (s: Sim)
    ensures ValidSim(s)
  {
    Sim(ControlLoop.Loop(None, None, None, false), ControlLoop.RobotState(Bent(0.0, h), Zero(ControlLoop.JOINTS)))
  }

  /** The solver tilts the shoulder by `h` and takes the elbow to `-h`. */
  function WitnessSolve(h: real): ControlLoop.RobotState -> Option<Vec> { s => Some(Bent(h, -2.0 * h)) }

  lemma WitnessConfigIs(h: real)
    requires 0.0001 <= h <= 1.0
    ensures var c := WitnessConfig(h);
      && c.lower == Limits(-LIMIT) && c.upper == Limits(LIMIT) && c.dt == 1.0 && c.maxAccel == 4.0 && !c.estimate && c.useVelocity
      && c.blendQ == 1.0 && c.blendQd == 1.0 && ControlLoop.StepLimit(c) == h
  {
    TimesOf(h, 1.0);
  }

  lemma WitnessPrediction(h: real)
    requires 0.0001 <= h <= 1.0
    ensures Solves(WitnessSolve(h))
    ensures MeasuredOf(WitnessConfig(h), WitnessSim(h)).q == Bent(0.0, h)
    ensures PredictedOf(WitnessConfig(h), WitnessSim(h), WitnessSolve(h)).q == Bent(h, -h)
  {
    hide WitnessConfig;
    var c, s := WitnessConfig(h), WitnessSim(h);
    WitnessConfigIs(h);
    var m := s.robot;
    assert ControlLoop.Measured(c, s.loop, m) == (m, None);
    assert s.loop.(estimator := None) == s.loop;
    assert ControlLoop.ControlState(c, s.loop, m) == m;
    Ahead(c, m, h);
  }

  /** One second of that acceleration from rest. */
  lemma Ahead(c: ControlLoop.Config, m: ControlLoop.RobotState, h: real)
    requires 0.0001 <= h <= 1.0 && ControlLoop.ValidConfig(c) && c.dt == 1.0 && c.maxAccel == 4.0
    requires c.lower == Limits(-LIMIT) && c.upper == Limits(LIMIT)
    requires m == ControlLoop.RobotState(Bent(0.0, h), Zero(ControlLoop.JOINTS))
    ensures ControlLoop.Integrated(c, m, ControlLoop.CommandedAcceleration(c, Some(Bent(h, -2.0 * h)))).q == Bent(h, -h)
  {
    var qdd := ControlLoop.CommandedAcceleration(c, Some(Bent(h, -2.0 * h)));
    assert qdd == Bent(h, -2.0 * h);
    OneSecond(qdd);
    var qd := Plus(m.qd, Scale(c.dt, qdd));
    assert qd == qdd;
    var q := Plus(m.q, Scale(c.dt, qd));
    assert q == Bent(h, -h);
    assert ControlLoop.ClampPositions(c, q) == q;
  }

  lemma OneSecond(v: Vec)
    ensures Scale(1.0, v) == v
  {
  }

  lemma WitnessGuarded(c: ControlLoop.Config, m: ControlLoop.RobotState, p: ControlLoop.RobotState, h: real)
    requires ControlLoop.StepLimit(c) == h && 0.0 < h && ControlLoop.IsState(m) && ControlLoop.IsState(p)
    requires m.q == Bent(0.0, h) && p.q == Bent(h, -h)
    ensures ControlLoop.Guarded(c, m, p).q == Bent(h, 0.0)
  {
    hide ControlLoop.StepLimit;
    var g := ControlLoop.Guarded(c, m, p).q;
    assert p.q[0] - m.q[0] == 0.0 && p.q[1] - m.q[1] == h && p.q[2] - m.q[2] == -2.0 * h;
    assert g[0] == 0.0 && g[1] == h && g[2] == 0.0;
    assert g[3] == 0.0 && g[4] == 0.0 && g[5] == 0.0;
  }

  lemma HeightElbow(c: real, s: real)
    ensures HeightOf(1.0, 0.0, c, s) == 0.197 + Upper() + Times(c, Fore())
  {
    TimesOf(1.0, Upper() + Times(c, Fore()));
    TimesOf(0.0, Times(s, Fore()));
  }

  lemma HeightShoulder(c: real, s: real)
    ensures HeightOf(c, s, 1.0, 0.0) == 0.197 + Times(c, Upper()) + Times(c, Fore())
  {
    TimesOf(1.0, Fore());
    TimesOf(0.0, Fore());
    TimesOf(s, 0.0);
    TimesPlus(c, Upper(), Fore());
  }

  lemma HeightBoth(c: real, s: real)
    requires OnCircle(c, s)
    ensures HeightOf(c, s, c, -s) == 0.197 + Times(c, Upper()) + Fore()
  {
    hide Times, OnCircle;
    TimesPlus(c, Upper(), Times(c, Fore()));
    Folded(c, s, Fore());
  }

  lemma BentHeights(lib: Library, h: real)
    requires Circular(lib) && Mirrored(lib)
    ensures BentHeight(lib, 0.0, h) == 0.197 + Upper() + Times(lib.cos(h), Fore())
    ensures BentHeight(lib, h, -h) == 0.197 + Times(lib.cos(h), Upper()) + Fore()
    ensures BentHeight(lib, h, 0.0) == 0.197 + Times(lib.cos(h), Upper()) + Times(lib.cos(h), Fore())
  {
    hide Standard, HeightOf, OnCircle, Times;
    var c, s := lib.cos(h), lib.sin(h);
    assert OnCircle(c, s) && lib.cos(-h) == c && lib.sin(-h) == -s;
    HeightElbow(c, s);
    HeightShoulder(c, s);
    HeightBoth(c, s);
  }

  lemma Folded(c: real, s: real, f: real)
    requires OnCircle(c, s)
    ensures Times(c, Times(c, f)) - Times(s, Times(-s, f)) == f
  {
    assert c * (c * f) - s * (-s * f) == (c * c + s * s) * f;
  }

  /** The measured and the predicted height, whichever is less. */
  function WitnessFloor(lib: Library, h: real): real { Min(BentHeight(lib, 0.0, h), BentHeight(lib, h, -h)) }

  /** With the program's floor check on the arm's own frames, within its joint limits: measurement and prediction are
      above the floor, the tick lets the command through, and the state it then holds is below the floor. */
  lemma HeldMayViolate(lib: Library, h: real)
    requires Circular(lib) && Mirrored(lib) && Tilts(lib, h)
    ensures var c, s, solve := WitnessConfig(h), WitnessSim(h), WitnessSolve(h);
      && c.lower == Limits(-LIMIT) && c.upper == Limits(LIMIT) && SimWithin(c, s) && Solves(solve)
      && var low := FloorCheck(lib, Link6Floor(WitnessFloor(lib, h)));
      && !low(MeasuredOf(c, s).q) && !low(PredictedOf(c, s, solve).q) && !Triggers(c, s, Open(solve, low))
      && HeldPose(c, s, solve, low).Some? && low(HeldPose(c, s, solve, low).value)
  {
    hide Circular, WitnessConfig, FloorCheck, HeldPose, Triggers, MeasuredOf, PredictedOf, BentHeight, Times, LinkFrame, ControlLoop.Guarded;
    var c, s, solve, z := WitnessConfig(h), WitnessSim(h), WitnessSolve(h), WitnessFloor(lib, h);
    WitnessConfigIs(h);
    WitnessPrediction(h);
    WitnessGuarded(c, MeasuredOf(c, s), PredictedOf(c, s, solve), h);
    var low := FloorCheck(lib, Link6Floor(z));
    Link6Height(lib, 0.0, h);
    Link6Height(lib, h, -h);
    Link6Height(lib, h, 0.0);
    FloorCheckIs(lib, Bent(0.0, h), z);
    FloorCheckIs(lib, Bent(h, -h), z);
    FloorCheckIs(lib, Bent(h, 0.0), z);
    BentHeights(lib, h);
    Shortens(lib.cos(h), Upper());
    Shortens(lib.cos(h), Fore());
    HeldIsGuarded(c, s, solve, low);
  }

  lemma Shortens(c: real, x: real)
    requires c < 1.0 && x > 0.0
    ensures Times(c, x) < x
  {
    ProductSign(1.0 - c, x, (1.0 - c) * x);
    assert (1.0 - c) * x == x - c * x;
  }
}
