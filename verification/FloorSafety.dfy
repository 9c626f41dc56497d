/** The floor check: the lowest points of links, joints, sensor spheres and guard bodies. */
module FloorSafety {
  import opened LinearAlgebra
  import opened RmpConfig
  import opened Kinematics
  import opened ArmModel

  /** A guard body: a ball, or, for any other type string, a box. */
  datatype BodyObstacle = BodyObstacle(kind: string, linkName: string, mins: Point, maxs: Point, center: Point, radius: real)

  datatype Settings = Settings(gated: bool, enabled: bool, floorZ: real, minLink6Z: real, minTcpZ: real)

  datatype FloorError = UnknownLink

  const LINK_NAMES: seq<string> := [
    "base_link", "link0", "link1", "link2", "link3", "link3_5", "link4", "link5", "link6", "tcp", "tcp_rmp", "tcp_gripper" ]

  ghost predicate Sized(c: KinematicsContext) {
    |c.positions| == |c.rotations| == LINK_COUNT && |c.origins| == JOINTS
  }

  /** Minima start at infinity, here `None`. */
  function Lower(m: Option<real>, z: real): Option<real> { if m.Some? then Some(Min(m.value, z)) else Some(z) }

  predicate Below(m: Option<real>, z: real) { m.Some? && m.value < z }

  ghost predicate IsMinimum(m: Option<real>, zs: seq<real>) {
    (m.None? <==> zs == []) && (m.Some? ==> m.value in zs && forall z | z in zs :: m.value <= z)
  }

  lemma LowerKeeps(m: Option<real>, zs: seq<real>, z: real)
    requires IsMinimum(m, zs)
    ensures IsMinimum(Lower(m, z), zs + [z])
  {
    var after := zs + [z];
    assert after[|zs|] == z;
    if m.Some? && m.value <= z {
      var i :| 0 <= i < |zs| && zs[i] == m.value;
      assert after[i] == m.value;
    }
  }

  // ----- guard bodies

  /** `link_index_from_name`. */
  method LinkIndexFromName(name: string) returns (r: Result<nat, FloorError>)
    ensures r.Ok? <==> name in LINK_NAMES
    ensures r.Ok? ==> r.value < LINK_COUNT && LINK_NAMES[r.value] == name
  {
    for i := 0 to |LINK_NAMES|
      invariant name !in LINK_NAMES[..i]
    {
      if name == LINK_NAMES[i] { return Ok(i); }
    }
    return Err(UnknownLink);
  }

  predicate Known(b: BodyObstacle) { b.linkName == "" || b.linkName in LINK_NAMES }

  /** The frame a body is attached to; the world frame without a link name. */
  function BodyFrame(b: BodyObstacle, c: KinematicsContext): Frame
    requires Sized(c) && Known(b)
  {
    if b.linkName == "" then IdentityFrame()
    else IndexOf(b.linkName); var l :| 0 <= l < LINK_COUNT && LINK_NAMES[l] == b.linkName; Frame(c.rotations[l], c.positions[l])
  }

  lemma IndexOf(name: string)
    requires name in LINK_NAMES
    ensures exists l :: 0 <= l < LINK_COUNT && LINK_NAMES[l] == name
    ensures forall l, k :: 0 <= l < LINK_COUNT && 0 <= k < LINK_COUNT && LINK_NAMES[l] == name == LINK_NAMES[k] ==> l == k
  {
    NamesDistinct();
  }

  lemma NamesDistinct()
    ensures forall l, k :: 0 <= l < k < LINK_COUNT ==> LINK_NAMES[l] != LINK_NAMES[k]
  {
    assert |LINK_NAMES[0]| == 9 && LINK_NAMES[0][0] == 'b';
    forall l, k | 0 <= l < k < LINK_COUNT
      ensures LINK_NAMES[l] != LINK_NAMES[k]
    {
      assert |LINK_NAMES[l]| != |LINK_NAMES[k]| || LINK_NAMES[l][|LINK_NAMES[l]| - 1] != LINK_NAMES[k][|LINK_NAMES[k]| - 1];
    }
  }

  method AttachedFrame(b: BodyObstacle, c: KinematicsContext) returns (r: Result<Frame, FloorError>)
    requires Sized(c)
    ensures r.Ok? <==> Known(b)
    ensures r.Ok? ==> r.value == BodyFrame(b, c)
  {
    if b.linkName == "" { return Ok(IdentityFrame()); }
    var index := LinkIndexFromName(b.linkName);
    if index.Err? { return Err(index.error); }
    IndexOf(b.linkName);
    return Ok(Frame(c.rotations[index.value], c.positions[index.value]));
  }

  /** The height of a body point in the world. */
  function Height(f: Frame, p: Point): real { Act(f, p).z }

  function Pick(low: bool, a: real, b: real): real { if low then a else b }

  /** Corner `n` of a box, in the order of the three nested loops. */
  function Corner(b: BodyObstacle, n: nat): Point
    requires n < 8
  {
    Point(Pick(n / 4 == 0, b.mins.x, b.maxs.x), Pick(n / 2 % 2 == 0, b.mins.y, b.maxs.y), Pick(n % 2 == 0, b.mins.z, b.maxs.z))
  }

  function CornerHeights(f: Frame, b: BodyObstacle, n: nat): (r: seq<real>)
    requires n <= 8
    ensures |r| == n
  {
    seq(n, i requires 0 <= i < n => Height(f, Corner(b, i)))
  }

  /** The minimum over the eight corners. */
  method BoxMinimum(f: Frame, b: BodyObstacle) returns (m: real)
    ensures IsMinimum(Some(m), CornerHeights(f, b, 8))
  {
    hide Height, Corner, IsMinimum;
    var lowest: Option<real> := None;
    NothingYet();
    assert CornerHeights(f, b, 0) == [];
    for x := 0 to 2
      invariant IsMinimum(lowest, CornerHeights(f, b, 4 * x))
    {
      for y := 0 to 2
        invariant IsMinimum(lowest, CornerHeights(f, b, 4 * x + 2 * y))
      {
        for z := 0 to 2
          invariant IsMinimum(lowest, CornerHeights(f, b, 4 * x + 2 * y + z))
        {
          var n := 4 * x + 2 * y + z;
          var corner := Point(Pick(x == 0, b.mins.x, b.maxs.x), Pick(y == 0, b.mins.y, b.maxs.y), Pick(z == 0, b.mins.z, b.maxs.z));
          CornerBits(b, x, y, z);
          LowerKeeps(lowest, CornerHeights(f, b, n), Height(f, corner));
          assert CornerHeights(f, b, n + 1) == CornerHeights(f, b, n) + [Height(f, corner)];
          lowest := Lower(lowest, Height(f, corner));
        }
      }
    }
    SomeMinimum(lowest, CornerHeights(f, b, 8));
    m := lowest.value;
  }

  lemma NothingYet()
    ensures IsMinimum(None, [])
  {
  }

  lemma SomeMinimum(m: Option<real>, zs: seq<real>)
    requires IsMinimum(m, zs) && zs != []
    ensures m.Some?
  {
  }

  lemma CornerBits(b: BodyObstacle, x: nat, y: nat, z: nat)
    requires x < 2 && y < 2 && z < 2
    ensures Corner(b, 4 * x + 2 * y + z)
         == Point(Pick(x == 0, b.mins.x, b.maxs.x), Pick(y == 0, b.mins.y, b.maxs.y), Pick(z == 0, b.mins.z, b.maxs.z))
  {
  }

  predicate Between(t: real, a: real, b: real) { a <= t <= b || b <= t <= a }

  predicate InBox(p: Point, b: BodyObstacle) {
    Between(p.x, b.mins.x, b.maxs.x) && Between(p.y, b.mins.y, b.maxs.y) && Between(p.z, b.mins.z, b.maxs.z)
  }

  predicate InBall(p: Point, center: Point, radius: real) {
    radius >= 0.0 && Inner(Subtracted(p, center), Subtracted(p, center)) <= radius * radius
  }

  /** A linear function on an interval is smallest at an end. */
  lemma LowerEnd(r: real, t: real, a: real, b: real) returns (low: bool)
    requires Between(t, a, b)
    ensures Times(r, Pick(low, a, b)) <= Times(r, t)
  {
    hide Times;
    var ta, tb := Times(r, t - a), Times(r, t - b);
    TimesPlus(r, t, a);
    TimesPlus(r, t, b);
    low := ta >= 0.0;
    if !low {
      UpperEnd(r, t - a, t - b, ta, tb);
    }
  }

  /** Two factors of opposite sign make products of opposite sign. */
  lemma UpperEnd(r: real, x: real, y: real, rx: real, ry: real)
    requires rx == Times(r, x) && ry == Times(r, y) && rx < 0.0 && ((x >= 0.0 && y <= 0.0) || (x <= 0.0 && y >= 0.0))
    ensures ry >= 0.0
  {
    if x >= 0.0 {
      if r >= 0.0 { ProductSign(r, x, rx); } else { ProductSign(-r, -y, ry); }
    } else {
      if r <= 0.0 { ProductSign(-r, -x, rx); } else { ProductSign(r, y, ry); }
    }
  }

  lemma HeightIs(f: Frame, p: Point)
    ensures Height(f, p) == Times(f.linear.r2.x, p.x) + Times(f.linear.r2.y, p.y) + Times(f.linear.r2.z, p.z) + f.translation.z
  {
  }

  /** The eight corners are enough: no point of the rotated box is lower, and a corner reaches the minimum. */
  lemma CornersSuffice(f: Frame, b: BodyObstacle, m: real)
    requires IsMinimum(Some(m), CornerHeights(f, b, 8))
    ensures forall p | InBox(p, b) :: m <= Height(f, p)
    ensures exists p :: InBox(p, b) && Height(f, p) == m
  {
    hide Height, IsMinimum;
    forall p | InBox(p, b)
      ensures m <= Height(f, p)
    {
      LowestCorner(f, b, m, p);
    }
    var i := MinimumAt(m, CornerHeights(f, b, 8));
    CornerInBox(b, i);
    assert Height(f, Corner(b, i)) == m;
  }

  lemma MinimumAt(m: real, zs: seq<real>) returns (i: nat)
    requires IsMinimum(Some(m), zs)
    ensures i < |zs| && zs[i] == m
  {
    i :| 0 <= i < |zs| && zs[i] == m;
  }

  lemma CornerInBox(b: BodyObstacle, i: nat)
    requires i < 8
    ensures InBox(Corner(b, i), b)
  {
  }

  lemma LowestCorner(f: Frame, b: BodyObstacle, m: real, p: Point)
    requires IsMinimum(Some(m), CornerHeights(f, b, 8)) && InBox(p, b)
    ensures m <= Height(f, p)
  {
    hide Height, Times, IsMinimum, Corner;
    var r := f.linear.r2;
    var lx := LowerEnd(r.x, p.x, b.mins.x, b.maxs.x);
    var ly := LowerEnd(r.y, p.y, b.mins.y, b.maxs.y);
    var lz := LowerEnd(r.z, p.z, b.mins.z, b.maxs.z);
    var x, y, z := if lx then 0 else 1, if ly then 0 else 1, if lz then 0 else 1;
    CornerBits(b, x, y, z);
    var n := 4 * x + 2 * y + z;
    HeightIs(f, p);
    HeightIs(f, Corner(b, n));
    MinimumBelow(m, CornerHeights(f, b, 8), n);
  }

  lemma MinimumBelow(m: real, zs: seq<real>, i: nat)
    requires IsMinimum(Some(m), zs) && i < |zs|
    ensures m <= zs[i]
  {
    assert zs[i] in zs;
  }

  /** The lowest point of a ball is straight below its centre. */
  lemma BallBottom(center: Point, radius: real)
    requires radius >= 0.0
    ensures forall p | InBall(p, center, radius) :: center.z - radius <= p.z
    ensures InBall(Point(center.x, center.y, center.z - radius), center, radius)
  {
    forall p | InBall(p, center, radius)
      ensures center.z - radius <= p.z
    {
      InBallHeight(Subtracted(p, center), radius);
    }
    Straight(radius);
  }

  lemma Straight(radius: real)
    ensures Inner(Point(0.0, 0.0, -radius), Point(0.0, 0.0, -radius)) == radius * radius
  {
  }

  lemma InBallHeight(d: Point, radius: real)
    requires radius >= 0.0 && Inner(d, d) <= radius * radius
    ensures d.z >= -radius
  {
    var xx := Square(d.x);
    var yy := Square(d.y);
    var zz := Square(d.z);
    assert Inner(d, d) == xx + yy + zz;
    hide Inner, Times;
    if -d.z > radius {
      assert (-d.z) * (-d.z) == zz;
      LargerSquare(-d.z, radius, zz, radius * radius);
    }
  }

  // ----- the metrics

  /** The points a guard body occupies, in the world. */
  predicate Occupies(b: BodyObstacle, c: KinematicsContext, p: Point)
    requires Sized(c) && Known(b)
  {
    if b.kind == "ball" then InBall(p, BallCenter(b, c), b.radius)
    else InBox(p, b)
  }

  /** `body_obstacle_center_world` for a ball. */
  function BallCenter(b: BodyObstacle, c: KinematicsContext): Point
    requires Sized(c) && Known(b)
  {
    Act(BodyFrame(b, c), b.center)
  }

  /** A ball is described in the world, a box in the frame it is attached to. */
  function OccupiedHeight(b: BodyObstacle, c: KinematicsContext, p: Point): real
    requires Sized(c) && Known(b)
  {
    if b.kind == "ball" then p.z else Height(BodyFrame(b, c), p)
  }

  /** `m` is the lowest height of the body; a ball of negative radius is empty and says nothing. */
  ghost predicate LowestOf(m: real, b: BodyObstacle, c: KinematicsContext)
    requires Sized(c) && Known(b)
  {
    && (forall p | Occupies(b, c, p) :: m <= OccupiedHeight(b, c, p))
    && (b.kind != "ball" || b.radius >= 0.0 ==> exists p :: Occupies(b, c, p) && OccupiedHeight(b, c, p) == m)
  }

  /** `body_obstacle_min_z_world`: the exact minimum over the whole body. */
  method BodyMinimum(b: BodyObstacle, c: KinematicsContext) returns (r: Result<real, FloorError>)
    requires Sized(c)
    ensures r.Ok? <==> Known(b)
    ensures r.Ok? ==> LowestOf(r.value, b, c)
  {
    hide Act, InBall, InBox, BodyFrame, Height, IsMinimum, CornerHeights, LowestOf;
    var frame := AttachedFrame(b, c);
    if frame.Err? { return Err(frame.error); }
    if b.kind == "ball" {
      var z := Act(frame.value, b.center).z - b.radius;
      BallLowest(b, c);
      return Ok(z);
    }
    var m := BoxMinimum(frame.value, b);
    BoxLowest(b, c, m);
    return Ok(m);
  }

  lemma BoxLowest(b: BodyObstacle, c: KinematicsContext, m: real)
    requires Sized(c) && Known(b) && b.kind != "ball" && IsMinimum(Some(m), CornerHeights(BodyFrame(b, c), b, 8))
    ensures LowestOf(m, b, c)
  {
    hide BodyFrame, Height, InBox, IsMinimum;
    CornersSuffice(BodyFrame(b, c), b, m);
    var p :| InBox(p, b) && Height(BodyFrame(b, c), p) == m;
    assert Occupies(b, c, p) && OccupiedHeight(b, c, p) == m;
  }

  lemma BallLowest(b: BodyObstacle, c: KinematicsContext)
    requires Sized(c) && Known(b) && b.kind == "ball"
    ensures LowestOf(BallCenter(b, c).z - b.radius, b, c)
  {
    hide InBall, BallCenter;
    var center := BallCenter(b, c);
    if b.radius >= 0.0 {
      BallBottom(center, b.radius);
      var p := Point(center.x, center.y, center.z - b.radius);
      assert Occupies(b, c, p) && OccupiedHeight(b, c, p) == center.z - b.radius;
    } else {
      EmptyBall(center, b.radius);
    }
  }

  lemma EmptyBall(center: Point, radius: real)
    requires radius < 0.0
    ensures forall p :: !InBall(p, center, radius)
  {
  }

  datatype FloorSafetyMetrics = FloorSafetyMetrics(link: Option<real>, joint: Option<real>, point: Option<real>, body: Option<real>)

  function Heights(ps: seq<Point>): (r: seq<real>)
    ensures |r| == |ps|
  {
    seq(|ps|, i requires 0 <= i < |ps| => ps[i].z)
  }

  function SphereBottoms(ps: seq<ControlPoint>): (r: seq<real>)
    ensures |r| == |ps|
  {
    seq(|ps|, i requires 0 <= i < |ps| => ps[i].position.z - ps[i].radius)
  }

  predicate AllKnown(bodies: seq<BodyObstacle>) { forall i | 0 <= i < |bodies| :: Known(bodies[i]) }

  ghost predicate LowestOfAll(m: Option<real>, bodies: seq<BodyObstacle>, c: KinematicsContext)
    requires Sized(c) && AllKnown(bodies)
  {
    exists ms: seq<real> :: LowestEach(ms, bodies, c) && IsMinimum(m, ms)
  }

  ghost predicate LowestEach(ms: seq<real>, bodies: seq<BodyObstacle>, c: KinematicsContext)
    requires Sized(c) && AllKnown(bodies)
  {
    |ms| == |bodies| && forall i | 0 <= i < |bodies| :: LowestOf(ms[i], bodies[i], c)
  }

  /** `compute_floor_safety_metrics`. */
  method ComputeMetrics(c: KinematicsContext, bodies: seq<BodyObstacle>) returns (r: Result<FloorSafetyMetrics, FloorError>)
    requires Sized(c)
    ensures r.Ok? <==> AllKnown(bodies)
    ensures r.Ok? ==> IsMinimum(r.value.link, Heights(c.positions)) && IsMinimum(r.value.joint, Heights(c.origins))
    ensures r.Ok? ==> IsMinimum(r.value.point, SphereBottoms(c.points)) && LowestOfAll(r.value.body, bodies, c)
  {
    hide IsMinimum, LowestOf, Known;
    var link := MinimumHeight(c.positions);
    var joint := MinimumHeight(c.origins);
    var point: Option<real> := None;
    NothingYet();
    assert SphereBottoms(c.points)[..0] == [];
    for i := 0 to |c.points|
      invariant IsMinimum(point, SphereBottoms(c.points)[..i])
    {
      var z := c.points[i].position.z - c.points[i].radius;
      LowerKeeps(point, SphereBottoms(c.points)[..i], z);
      assert SphereBottoms(c.points)[..i] + [z] == SphereBottoms(c.points)[..i + 1];
      point := Lower(point, z);
    }
    assert SphereBottoms(c.points)[..|c.points|] == SphereBottoms(c.points);
    var body := LowestBody(bodies, c);
    if body.Err? { return Err(body.error); }
    return Ok(FloorSafetyMetrics(link, joint, point, body.value));
  }

  method MinimumHeight(ps: seq<Point>) returns (m: Option<real>)
    ensures IsMinimum(m, Heights(ps))
  {
    hide IsMinimum;
    m := None;
    NothingYet();
    assert Heights(ps)[..0] == [];
    for i := 0 to |ps|
      invariant IsMinimum(m, Heights(ps)[..i])
    {
      LowerKeeps(m, Heights(ps)[..i], ps[i].z);
      assert Heights(ps)[..i] + [ps[i].z] == Heights(ps)[..i + 1];
      m := Lower(m, ps[i].z);
    }
    assert Heights(ps)[..|ps|] == Heights(ps);
  }

  method LowestBody(bodies: seq<BodyObstacle>, c: KinematicsContext) returns (r: Result<Option<real>, FloorError>)
    requires Sized(c)
    ensures r.Ok? <==> AllKnown(bodies)
    ensures r.Ok? ==> LowestOfAll(r.value, bodies, c)
  {
    hide IsMinimum, LowestOf, Known;
    var m: Option<real> := None;
    ghost var ms: seq<real> := [];
    NothingYet();
    for i := 0 to |bodies|
      invariant AllKnown(bodies[..i]) && LowestEach(ms, bodies[..i], c) && IsMinimum(m, ms)
    {
      var z := BodyMinimum(bodies[i], c);
      if z.Err? { return Err(z.error); }
      assert bodies[..i + 1] == bodies[..i] + [bodies[i]];
      LowerKeeps(m, ms, z.value);
      ms := ms + [z.value];
      m := Lower(m, z.value);
    }
    assert bodies[..|bodies|] == bodies;
    return Ok(m);
  }

  // ----- the check

  predicate Checking(s: Settings, active: bool) { s.enabled && !(s.gated && !active) }

  ghost predicate PointLow(c: KinematicsContext, z: real)
    requires Sized(c)
  {
    || (exists l :: 0 <= l < LINK_COUNT && c.positions[l].z < z)
    || (exists j :: 0 <= j < JOINTS && c.origins[j].z < z)
    || (exists i, p :: 0 <= i < |c.points| && InBall(p, c.points[i].position, c.points[i].radius) && p.z < z)
  }

  ghost predicate BodyLow(c: KinematicsContext, bodies: seq<BodyObstacle>, z: real)
    requires Sized(c) && AllKnown(bodies)
  {
    exists i, p :: 0 <= i < |bodies| && Occupies(bodies[i], c, p) && OccupiedHeight(bodies[i], c, p) < z
  }

  /** Some point of the arm, of a sensor sphere or of a guard body is too low. */
  ghost predicate SomethingLow(s: Settings, c: KinematicsContext, bodies: seq<BodyObstacle>)
    requires Sized(c) && AllKnown(bodies)
  {
    || PointLow(c, s.floorZ) || BodyLow(c, bodies, s.floorZ)
    || c.positions[LINK6].z < s.minLink6Z || c.positions[TCP_GRIPPER].z < s.minTcpZ
  }

  predicate RealBodies(c: KinematicsContext, bodies: seq<BodyObstacle>) {
    && (forall i | 0 <= i < |c.points| :: c.points[i].radius >= 0.0)
    && (forall i | 0 <= i < |bodies| :: bodies[i].kind == "ball" ==> bodies[i].radius >= 0.0)
  }

  lemma BelowMinimum(m: Option<real>, zs: seq<real>, z: real)
    requires IsMinimum(m, zs)
    ensures Below(m, z) <==> exists i :: 0 <= i < |zs| && zs[i] < z
  {
    if i :| 0 <= i < |zs| && zs[i] < z { assert zs[i] in zs; }
    if Below(m, z) { var i :| 0 <= i < |zs| && zs[i] == m.value; }
  }

  lemma LowHeights(ps: seq<Point>, m: Option<real>, z: real)
    requires IsMinimum(m, Heights(ps))
    ensures Below(m, z) <==> exists i :: 0 <= i < |ps| && ps[i].z < z
  {
    hide IsMinimum, Below;
    BelowMinimum(m, Heights(ps), z);
    if i :| 0 <= i < |ps| && ps[i].z < z { assert Heights(ps)[i] < z; }
  }

  lemma LowSpheres(c: KinematicsContext, m: Option<real>, z: real)
    requires IsMinimum(m, SphereBottoms(c.points))
    ensures (exists i, p :: 0 <= i < |c.points| && InBall(p, c.points[i].position, c.points[i].radius) && p.z < z) ==> Below(m, z)
    ensures Below(m, z) && (forall i | 0 <= i < |c.points| :: c.points[i].radius >= 0.0) ==>
      exists i, p :: 0 <= i < |c.points| && InBall(p, c.points[i].position, c.points[i].radius) && p.z < z
  {
    hide IsMinimum, Below, InBall;
    BelowMinimum(m, SphereBottoms(c.points), z);
    if i, p :| 0 <= i < |c.points| && InBall(p, c.points[i].position, c.points[i].radius) && p.z < z {
      InBallRadius(p, c.points[i].position, c.points[i].radius);
      BallBottom(c.points[i].position, c.points[i].radius);
      assert SphereBottoms(c.points)[i] < z;
    }
    if Below(m, z) && (forall i | 0 <= i < |c.points| :: c.points[i].radius >= 0.0) {
      var i :| 0 <= i < |c.points| && SphereBottoms(c.points)[i] < z;
      BallBottom(c.points[i].position, c.points[i].radius);
    }
  }

  lemma InBallRadius(p: Point, center: Point, radius: real)
    requires InBall(p, center, radius)
    ensures radius >= 0.0
  {
  }

  lemma LowBodies(c: KinematicsContext, bodies: seq<BodyObstacle>, m: Option<real>, z: real)
    requires Sized(c) && AllKnown(bodies) && LowestOfAll(m, bodies, c)
    ensures BodyLow(c, bodies, z) ==> Below(m, z)
    ensures Below(m, z) && RealBodies(c, bodies) ==> BodyLow(c, bodies, z)
  {
    hide IsMinimum, Below, LowestOf, Occupies, OccupiedHeight, Known;
    var ms: seq<real> :| LowestEach(ms, bodies, c) && IsMinimum(m, ms);
    BelowMinimum(m, ms, z);
    if i, p :| 0 <= i < |bodies| && Occupies(bodies[i], c, p) && OccupiedHeight(bodies[i], c, p) < z {
      LowestBelow(ms[i], bodies[i], c, p);
    }
    if Below(m, z) && RealBodies(c, bodies) {
      var i :| 0 <= i < |ms| && ms[i] < z;
      var p := LowestReached(ms[i], bodies[i], c);
    }
  }

  lemma LowestBelow(m: real, b: BodyObstacle, c: KinematicsContext, p: Point)
    requires Sized(c) && Known(b) && LowestOf(m, b, c) && Occupies(b, c, p)
    ensures m <= OccupiedHeight(b, c, p)
  {
    hide Occupies, OccupiedHeight;
  }

  lemma LowestReached(m: real, b: BodyObstacle, c: KinematicsContext) returns (p: Point)
    requires Sized(c) && Known(b) && LowestOf(m, b, c) && (b.kind == "ball" ==> b.radius >= 0.0)
    ensures Occupies(b, c, p) && OccupiedHeight(b, c, p) == m
  {
    hide Occupies, OccupiedHeight;
    p :| Occupies(b, c, p) && OccupiedHeight(b, c, p) == m;
  }

  /** `violates_min_z_safety`. While it is enabled and active, a negative answer means that no point of the arm,
      of the sensor spheres or of the guard bodies is below its floor; and with radii that make sense a
      positive answer means that some point is. It throws only for a link name it does not know. */
  method ViolatesMinZSafety(s: Settings, active: bool, c: KinematicsContext, bodies: seq<BodyObstacle>) returns (r: Result<bool, FloorError>)
    requires Sized(c)
    ensures r.Ok? <==> !Checking(s, active) || AllKnown(bodies)
    ensures r.Ok? && !Checking(s, active) ==> !r.value
    ensures r.Ok? && Checking(s, active) && !r.value ==> !SomethingLow(s, c, bodies)
    ensures r.Ok? && Checking(s, active) && r.value && RealBodies(c, bodies) ==> SomethingLow(s, c, bodies)
  {
    hide IsMinimum, LowestOfAll, BodyLow, RealBodies, AllKnown, InBall;
    if s.gated && !active { return Ok(false); }
    if !s.enabled { return Ok(false); }
    var metrics := ComputeMetrics(c, bodies);
    if metrics.Err? { return Err(metrics.error); }
    var m := metrics.value;
    LowHeights(c.positions, m.link, s.floorZ);
    LowHeights(c.origins, m.joint, s.floorZ);
    LowSpheres(c, m.point, s.floorZ);
    LowBodies(c, bodies, m.body, s.floorZ);
    RealSpheres(c, bodies);
    return Ok(
      Below(m.link, s.floorZ) || Below(m.joint, s.floorZ) || Below(m.point, s.floorZ) || Below(m.body, s.floorZ) ||
      c.positions[LINK6].z < s.minLink6Z || c.positions[TCP_GRIPPER].z < s.minTcpZ);
  }

  lemma RealSpheres(c: KinematicsContext, bodies: seq<BodyObstacle>)
    ensures RealBodies(c, bodies) ==> forall i | 0 <= i < |c.points| :: c.points[i].radius >= 0.0
  {
  }
}
