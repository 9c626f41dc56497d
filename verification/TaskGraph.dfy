/** Evaluation of the task graph: native nodes from the kinematics, compiled nodes by the chain rule, each
    node from the cached geometries of its parents. */
module TaskGraph {
  import opened LinearAlgebra
  import opened RmpConfig
  import opened Elementary
  import opened TaskExpr
  import opened ChainRule
  import opened TaskMaps

  datatype GraphError =
    | MissingParentState | NoParent | UnsupportedTaskMap | UnsupportedLink | UnsupportedAxis
    | WrongPointVector | TooFewJoints | DimensionMismatch | InvalidTaskMap

  /** What the kinematics reports about one link. */
  datatype Link = Link(position: Geometry, rotation: seq<Vec>, angularJacobian: seq<Vec>,
                       angularVelocity: Vec, angularCurvature: Vec)

  datatype Context = Context(tcp: Geometry, links: map<string, Link>, points: seq<Geometry>)

  datatype Obstacle = Obstacle(center: Vec, radius: real)

  /** The parts of the robot model and the configuration that node evaluation reads. */
  datatype Robot = Robot(lower: Vec, upper: Vec, buffers: Vec, pointRadii: Vec, margin: real)

  datatype World = World(lib: Library, context: Context, robot: Robot, obstacles: seq<Obstacle>)

  ghost predicate IsPoint(g: Geometry) { Shaped(g) && |g.x| == 3 }

  ghost predicate ValidLink(l: Link) {
    && IsPoint(l.position)
    && |l.rotation| == 3 && IsMatrix(l.rotation, 3)
    && |l.angularJacobian| == 3 && IsMatrix(l.angularJacobian, JOINTS)
    && |l.angularVelocity| == 3 && |l.angularCurvature| == 3
  }

  ghost predicate ValidContext(c: Context) {
    && IsPoint(c.tcp)
    && (forall name | name in c.links :: ValidLink(c.links[name]))
    && |c.points| == SENSOR_POINTS && (forall i | 0 <= i < |c.points| :: IsPoint(c.points[i]))
  }

  ghost predicate ValidWorld(w: World) {
    && ValidContext(w.context)
    && |w.robot.lower| == |w.robot.upper| == |w.robot.buffers| == JOINTS
    && |w.robot.pointRadii| == SENSOR_POINTS
    && forall i | 0 <= i < |w.obstacles| :: |w.obstacles[i].center| == 3
  }

  // ----- native nodes

  function CrossAt(a: Vec, b: Vec, j: nat, k: nat): real
    requires |a| == |b| == 3 && j < 3 && k < 3
  {
    a[j] * b[k] - a[k] * b[j]
  }

  function Cross(a: Vec, b: Vec): (r: Vec)
    requires |a| == |b| == 3
    ensures |r| == 3
  {
    [CrossAt(a, b, 1, 2), CrossAt(a, b, 2, 0), CrossAt(a, b, 0, 1)]
  }

  function Column(m: seq<Vec>, c: nat): (r: Vec)
    requires IsMatrix(m, JOINTS) && c < JOINTS
    ensures |r| == |m|
  {
    seq(|m|, i requires 0 <= i < |m| => m[i][c])
  }

  /** The Jacobian whose columns are the columns of `m` crossed with `a`. */
  function CrossColumns(m: seq<Vec>, a: Vec): (r: seq<Vec>)
    requires |m| == 3 && IsMatrix(m, JOINTS) && |a| == 3
    ensures |r| == 3 && IsMatrix(r, JOINTS)
  {
    seq(3, i requires 0 <= i < 3 => seq(JOINTS, c requires 0 <= c < JOINTS => Cross(Column(m, c), a)[i]))
  }

  function AxisVector(a: Axis): Option<Vec> {
    match a
    case X => Some(Unit(3, 0))
    case Y => Some(Unit(3, 1))
    case Z => Some(Unit(3, 2))
    case UnknownAxis => None
  }

  function AxisGeometry(l: Link, axis: Vec): (r: Geometry)
    requires ValidLink(l) && |axis| == 3
    ensures IsPoint(r)
  {
    var world := Dots(l.rotation, axis);
    var velocity := Cross(l.angularVelocity, world);
    Geometry(world, CrossColumns(l.angularJacobian, world), velocity,
             Plus(Cross(l.angularCurvature, world), Cross(l.angularVelocity, velocity)))
  }

  /** Distances to the buffered upper and lower limit, alternating by joint. */
  function JointLimitGeometry(robot: Robot, p: Geometry): (r: Geometry)
    requires |robot.lower| == |robot.upper| == |robot.buffers| == JOINTS && Shaped(p) && |p.x| >= JOINTS
    ensures Shaped(r) && |r.x| == 12
  {
    Geometry(
      seq(12, i requires 0 <= i < 12 =>
        var j := i / 2;
        if i % 2 == 0 then robot.upper[j] - robot.buffers[j] - p.x[j] else p.x[j] - (robot.lower[j] + robot.buffers[j])),
      seq(12, i requires 0 <= i < 12 => Scale(if i % 2 == 0 then -1.0 else 1.0, Unit(JOINTS, i / 2))),
      seq(12, i requires 0 <= i < 12 => if i % 2 == 0 then -p.velocity[i / 2] else p.velocity[i / 2]),
      Zero(12))
  }

  /** `max(|delta|, 1e-9)`. */
  function CenterDistance(lib: Library, p: Vec, o: Obstacle): (d: real)
    requires |p| == |o.center|
    ensures d >= 0.000000001
  {
    Max(Norm(lib, Minus(p, o.center)), 0.000000001)
  }

  function SignedDistance(lib: Library, p: Vec, o: Obstacle, pointRadius: real, margin: real): real
    requires |p| == |o.center|
  {
    CenterDistance(lib, p, o) - (pointRadius + o.radius) - margin
  }

  function Projector(n: Vec, d: real): (r: seq<Vec>)
    requires d > 0.0
    ensures |r| == |n| && IsMatrix(r, |n|)
  {
    MatScale(1.0 / d, MatPlus(Identity(|n|), MatScale(-1.0, Outer(n, n))))
  }

  /** One row of `collision_distance`. A penetrating row keeps its Jacobian while its velocity and curvature
      are cut to zero. */
  function CollisionRow(lib: Library, p: Geometry, o: Obstacle, pointRadius: real, margin: real): (r: Geometry)
    requires IsPoint(p) && |o.center| == 3
    ensures Shaped(r) && |r.x| == 1
  {
    var d := CenterDistance(lib, p.x, o);
    var s := SignedDistance(lib, p.x, o, pointRadius, margin);
    var n := Scale(1.0 / d, Minus(p.x, o.center));
    Geometry(
      [Max(s, 0.0)],
      [Combine(p.jacobian, n, JOINTS)],
      [if s > 0.0 then Dot(n, p.velocity) else 0.0],
      [if s > 0.0 then Dot(n, p.curvature) + Form(Projector(n, d), p.velocity, p.velocity) else 0.0])
  }

  /** The rows of the first `k` points, and of point `k` for the first `o` obstacles. */
  function CollisionRows(w: World, p: Geometry, k: nat, o: nat): (r: Geometry)
    requires ValidWorld(w) && Shaped(p) && 3 * SENSOR_POINTS <= |p.x| && o <= |w.obstacles|
    requires k < SENSOR_POINTS || (k == SENSOR_POINTS && o == 0)
    ensures Shaped(r) && |r.x| == k * |w.obstacles| + o
    decreases k, o
  {
    if o > 0 then
      Append(CollisionRows(w, p, k, o - 1),
             CollisionRow(w.lib, Part(p, 3 * k, 3), w.obstacles[o - 1], w.robot.pointRadii[k], w.robot.margin))
    else if k > 0 then CollisionRows(w, p, k - 1, |w.obstacles|)
    else Empty
  }

  function CollisionGeometry(w: World, p: Geometry): (r: Geometry)
    requires ValidWorld(w) && Shaped(p) && 3 * SENSOR_POINTS <= |p.x|
    ensures Shaped(r) && |r.x| == SENSOR_POINTS * |w.obstacles|
  {
    CollisionRows(w, p, SENSOR_POINTS, 0)
  }

  function FrontOf(parents: seq<Geometry>): Result<Geometry, GraphError> {
    if parents == [] then Err(NoParent) else Ok(parents[0])
  }

  /** `evaluate_native_node`. */
  function EvaluateNative(node: RmpNode, w: World, parents: seq<Geometry>): (r: Result<Geometry, GraphError>)
    requires ValidWorld(w) && forall i | 0 <= i < |parents| :: Shaped(parents[i])
    ensures r.Ok? ==> Shaped(r.value)
  {
    match node.taskMap
    case CspaceTargetMap | IdentityMap => FrontOf(parents)
    case JointLimitMap =>
      if parents == [] then Err(NoParent)
      else if |parents[0].x| < JOINTS then Err(TooFewJoints)
      else Ok(JointLimitGeometry(w.robot, parents[0]))
    case TcpPosition => Ok(w.context.tcp)
    case LinkPosition =>
      if node.linkName in w.context.links then Ok(w.context.links[node.linkName].position) else Err(UnsupportedLink)
    case LinkOrientationAxis =>
      if node.linkName !in w.context.links then Err(UnsupportedLink)
      else (match AxisVector(node.axis)
            case None => Err(UnsupportedAxis)
            case Some(axis) => Ok(AxisGeometry(w.context.links[node.linkName], axis)))
    case ControlPoints => Ok(Stack(w.context.points))
    case CollisionDistance =>
      if parents == [] then Err(NoParent)
      else if |parents[0].x| / 3 != SENSOR_POINTS then Err(WrongPointVector)
      else Ok(CollisionGeometry(w, parents[0]))
    case _ => Err(UnsupportedTaskMap)
  }

  function ShapesOf(parents: seq<Geometry>): (r: seq<nat>)
    ensures |r| == |parents|
  {
    seq(|parents|, i requires 0 <= i < |parents| => |parents[i].x|)
  }

  /** A node and the dimensions its map was compiled for. */
  datatype Compiled = Compiled(node: RmpNode, dims: seq<nat>)

  /** `evaluate_casadi_node`: the map compiled for the inferred parent dimensions, applied to the parents. */
  function EvaluateCasadi(c: Compiled, w: World, parents: seq<Geometry>): (r: Result<Geometry, GraphError>)
    requires forall i | 0 <= i < |parents| :: Shaped(parents[i])
    ensures r.Ok? ==> Shaped(r.value)
  {
    if ShapesOf(parents) != c.dims then Err(DimensionMismatch)
    else match ApplyTaskMap(c.node, c.dims)
      case None => Err(InvalidTaskMap)
      case Some(es) => Ok(MapGeometry(es, w.lib, Stack(parents)))
  }

  type Cache = map<string, Geometry>

  ghost predicate ValidCache(cache: Cache) { forall name | name in cache :: Shaped(cache[name]) }

  /** The cached geometries of the named parents. */
  function ParentsOf(cache: Cache, names: seq<string>): (r: Option<seq<Geometry>>)
    requires ValidCache(cache)
    ensures r.Some? <==> forall name | name in names :: name in cache
    ensures r.Some? ==> |r.value| == |names| && forall i | 0 <= i < |names| :: r.value[i] == cache[names[i]]
  {
    if names == [] then Some([])
    else if names[0] !in cache then None
    else match ParentsOf(cache, names[1..])
      case None => None
      case Some(rest) => Some([cache[names[0]]] + rest)
  }

  /** `evaluate_node`. */
  function EvaluateNode(c: Compiled, w: World, cache: Cache): (r: Result<Geometry, GraphError>)
    requires ValidWorld(w) && ValidCache(cache)
    ensures r.Ok? ==> Shaped(r.value)
  {
    match ParentsOf(cache, c.node.parents)
    case None => Err(MissingParentState)
    case Some(parents) =>
      if UsesCasadi(c.node.taskMap) then EvaluateCasadi(c, w, parents) else EvaluateNative(c.node, w, parents)
  }

  function RootGeometry(q: Vec, qd: Vec): (r: Geometry)
    requires |q| == |qd| == JOINTS
    ensures Shaped(r)
  {
    Geometry(q, Identity(JOINTS), qd, Zero(JOINTS))
  }

  /** The cache after evaluating the listed nodes in order. */
  function EvaluateAll(nodes: seq<Compiled>, w: World, q: Vec, qd: Vec): (r: Result<Cache, GraphError>)
    requires ValidWorld(w) && |q| == |qd| == JOINTS
    ensures r.Ok? ==> ValidCache(r.value)
  {
    if nodes == [] then Ok(map["root" := RootGeometry(q, qd)])
    else
      var k := |nodes| - 1;
      match EvaluateAll(nodes[..k], w, q, qd)
      case Err(e) => Err(e)
      case Ok(cache) =>
        match EvaluateNode(nodes[k], w, cache)
        case Err(e) => Err(e)
        case Ok(g) => Ok(cache[nodes[k].node.name := g])
  }
}
