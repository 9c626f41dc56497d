/** The arm as a chain of offsets and turns: what frames, axes and Jacobians along it mean. */
module Kinematics {
  import opened LinearAlgebra
  import opened Derivative
  import opened Elementary

  datatype Point = Point(x: real, y: real, z: real)

  /** A 3x3 matrix by rows. */
  datatype Mat = Mat(r0: Point, r1: Point, r2: Point)

  datatype Frame = Frame(linear: Mat, translation: Point)

  datatype TurnAxis = AlongX | AlongY | AlongZ

  const ORIGIN := Point(0.0, 0.0, 0.0)

  function UnitAxis(a: TurnAxis): Point {
    match a
    case AlongX => Point(1.0, 0.0, 0.0)
    case AlongY => Point(0.0, 1.0, 0.0)
    case AlongZ => Point(0.0, 0.0, 1.0)
  }

  function Inner(u: Point, v: Point): real { Times(u.x, v.x) + Times(u.y, v.y) + Times(u.z, v.z) }

  function Added(u: Point, v: Point): Point { Point(u.x + v.x, u.y + v.y, u.z + v.z) }

  function Subtracted(u: Point, v: Point): Point { Point(u.x - v.x, u.y - v.y, u.z - v.z) }

  function CrossProduct(u: Point, v: Point): Point {
    Point(Area(u.y, u.z, v.y, v.z), Area(u.z, u.x, v.z, v.x), Area(u.x, u.y, v.x, v.y))
  }

  function Area(a: real, b: real, d: real, e: real): real { Times(a, e) - Times(b, d) }

  function MatVec(m: Mat, v: Point): Point { Point(Inner(m.r0, v), Inner(m.r1, v), Inner(m.r2, v)) }

  function ColumnsOf(m: Mat): (Point, Point, Point) {
    (Point(m.r0.x, m.r1.x, m.r2.x), Point(m.r0.y, m.r1.y, m.r2.y), Point(m.r0.z, m.r1.z, m.r2.z))
  }

  function MatTimes(a: Mat, b: Mat): Mat {
    var (c0, c1, c2) := ColumnsOf(b);
    Mat(Point(Inner(a.r0, c0), Inner(a.r0, c1), Inner(a.r0, c2)),
        Point(Inner(a.r1, c0), Inner(a.r1, c1), Inner(a.r1, c2)),
        Point(Inner(a.r2, c0), Inner(a.r2, c1), Inner(a.r2, c2)))
  }

  function IdentityMat(): Mat { Mat(UnitAxis(AlongX), UnitAxis(AlongY), UnitAxis(AlongZ)) }

  function IdentityFrame(): Frame { Frame(IdentityMat(), ORIGIN) }

  /** A frame applied to a point. */
  function Act(f: Frame, v: Point): Point { Added(MatVec(f.linear, v), f.translation) }

  function Compose(f: Frame, g: Frame): Frame { Frame(MatTimes(f.linear, g.linear), Act(f, g.translation)) }

  /** `AngleAxisd` about a coordinate axis, from the cosine and sine of the angle. */
  function TurnMat(a: TurnAxis, c: real, s: real): Mat {
    match a
    case AlongX => Mat(Point(1.0, 0.0, 0.0), Point(0.0, c, -s), Point(0.0, s, c))
    case AlongY => Mat(Point(c, 0.0, s), Point(0.0, 1.0, 0.0), Point(-s, 0.0, c))
    case AlongZ => Mat(Point(c, -s, 0.0), Point(s, c, 0.0), Point(0.0, 0.0, 1.0))
  }

  /** The facts about sine and cosine that kinematics needs. */
  ghost predicate Circular(lib: Library) {
    Standard(lib) && lib.cos(0.0) == 1.0 && lib.sin(0.0) == 0.0 && forall t :: OnCircle(lib.cos(t), lib.sin(t))
  }

  predicate OnCircle(c: real, s: real) { c * c + s * s == 1.0 }

  // ----- the chain

  datatype Segment = Offset(step: Point) | Joint(axis: TurnAxis, index: nat) | Bend(axis: TurnAxis, angle: real)

  const JOINTS: nat := 6

  ghost predicate ValidPath(path: seq<Segment>) {
    forall k | 0 <= k < |path| && path[k].Joint? :: path[k].index < JOINTS
  }

  function AngleOf(q: Vec, seg: Segment): real
    requires |q| == JOINTS && !seg.Offset? && (seg.Joint? ==> seg.index < JOINTS)
  {
    if seg.Joint? then q[seg.index] else seg.angle
  }

  function SegmentFrame(lib: Library, q: Vec, seg: Segment): Frame
    requires |q| == JOINTS && (seg.Joint? ==> seg.index < JOINTS)
  {
    if seg.Offset? then Frame(IdentityMat(), seg.step)
    else var angle := AngleOf(q, seg); Frame(TurnMat(seg.axis, lib.cos(angle), lib.sin(angle)), ORIGIN)
  }

  /** The frame at the end of a path, multiplied up from the base. */
  function FrameOf(lib: Library, q: Vec, path: seq<Segment>): Frame
    requires |q| == JOINTS && ValidPath(path)
  {
    if path == [] then IdentityFrame()
    else var k := |path| - 1; Compose(FrameOf(lib, q, path[..k]), SegmentFrame(lib, q, path[k]))
  }

  /** A vector turned by one segment. */
  function Turned(lib: Library, q: Vec, seg: Segment, v: Point): Point
    requires |q| == JOINTS && (seg.Joint? ==> seg.index < JOINTS)
  {
    if seg.Offset? then v
    else
      var angle := AngleOf(q, seg);
      TurnedBy(seg.axis, lib.cos(angle), lib.sin(angle), v)
  }

  function TurnedBy(a: TurnAxis, c: real, s: real, v: Point): Point {
    match a
    case AlongX => Point(v.x, Mix(c, v.y, -s, v.z), Mix(s, v.y, c, v.z))
    case AlongY => Point(Mix(c, v.x, s, v.z), v.y, Mix(-s, v.x, c, v.z))
    case AlongZ => Point(Mix(c, v.x, -s, v.y), Mix(s, v.x, c, v.y), v.z)
  }

  function Mix(a: real, x: real, b: real, y: real): real { Times(a, x) + Times(b, y) }

  function Moved(lib: Library, q: Vec, seg: Segment, v: Point): Point
    requires |q| == JOINTS && (seg.Joint? ==> seg.index < JOINTS)
  {
    if seg.Offset? then Added(v, seg.step) else Turned(lib, q, seg, v)
  }

  /** A point carried from the end of a path to the base, one segment at a time. */
  function ChainPoint(lib: Library, q: Vec, path: seq<Segment>, v: Point): Point
    requires |q| == JOINTS && ValidPath(path)
  {
    if path == [] then v else Moved(lib, q, path[0], ChainPoint(lib, q, path[1..], v))
  }

  /** A vector carried the same way. */
  function ChainVector(lib: Library, q: Vec, path: seq<Segment>, v: Point): Point
    requires |q| == JOINTS && ValidPath(path)
  {
    if path == [] then v else Turned(lib, q, path[0], ChainVector(lib, q, path[1..], v))
  }

  // ----- frames act as the chain does

  lemma InnerRows(r: Point, b: Mat, v: Point)
    ensures var (c0, c1, c2) := ColumnsOf(b);
      Inner(Point(Inner(r, c0), Inner(r, c1), Inner(r, c2)), v) == Inner(r, MatVec(b, v))
  {
    var x0, x1, x2 := r.x * b.r0.x, r.y * b.r1.x, r.z * b.r2.x;
    var y0, y1, y2 := r.x * b.r0.y, r.y * b.r1.y, r.z * b.r2.y;
    var z0, z1, z2 := r.x * b.r0.z, r.y * b.r1.z, r.z * b.r2.z;
    Spread(x0, x1, x2, v.x);
    Spread(y0, y1, y2, v.y);
    Spread(z0, z1, z2, v.z);
    SpreadLeft(r.x, b.r0.x, b.r0.y, b.r0.z, v);
    SpreadLeft(r.y, b.r1.x, b.r1.y, b.r1.z, v);
    SpreadLeft(r.z, b.r2.x, b.r2.y, b.r2.z, v);
  }

  lemma Spread(a: real, b: real, c: real, v: real)
    ensures (a + b + c) * v == a * v + b * v + c * v
  {
  }

  lemma SpreadLeft(r: real, a: real, b: real, c: real, v: Point)
    ensures r * Inner(Point(a, b, c), v) == r * a * v.x + r * b * v.y + r * c * v.z
  {
  }

  lemma MatTimesVec(a: Mat, b: Mat, v: Point)
    ensures MatVec(MatTimes(a, b), v) == MatVec(a, MatVec(b, v))
  {
    InnerRows(a.r0, b, v);
    InnerRows(a.r1, b, v);
    InnerRows(a.r2, b, v);
  }

  lemma InnerSum(r: Point, u: Point, v: Point)
    ensures Inner(r, Added(u, v)) == Inner(r, u) + Inner(r, v)
  {
  }

  lemma ActCompose(f: Frame, g: Frame, v: Point)
    ensures Act(Compose(f, g), v) == Act(f, Act(g, v))
  {
    hide Inner, MatTimes;
    MatTimesVec(f.linear, g.linear, v);
    var w := MatVec(g.linear, v);
    InnerSum(f.linear.r0, w, g.translation);
    InnerSum(f.linear.r1, w, g.translation);
    InnerSum(f.linear.r2, w, g.translation);
  }

  lemma SegmentActs(lib: Library, q: Vec, seg: Segment, v: Point)
    requires |q| == JOINTS && (seg.Joint? ==> seg.index < JOINTS)
    ensures Act(SegmentFrame(lib, q, seg), v) == Moved(lib, q, seg, v)
    ensures MatVec(SegmentFrame(lib, q, seg).linear, v) == Turned(lib, q, seg, v)
  {
  }

  lemma {:induction false} ChainSnoc(lib: Library, q: Vec, path: seq<Segment>, seg: Segment, v: Point)
    requires |q| == JOINTS && ValidPath(path) && (seg.Joint? ==> seg.index < JOINTS)
    ensures ValidPath(path + [seg])
    ensures ChainPoint(lib, q, path + [seg], v) == ChainPoint(lib, q, path, Moved(lib, q, seg, v))
    ensures ChainVector(lib, q, path + [seg], v) == ChainVector(lib, q, path, Turned(lib, q, seg, v))
  {
    hide Moved, Turned;
    if path == [] {
      assert [seg][1..] == [];
      assert path + [seg] == [seg];
    } else {
      assert (path + [seg])[1..] == path[1..] + [seg];
      ChainSnoc(lib, q, path[1..], seg, v);
    }
  }

  lemma IdentityActs(v: Point)
    ensures Act(IdentityFrame(), v) == v && MatVec(IdentityMat(), v) == v
  {
  }

  /** The accumulated frame of a path carries points and vectors as the segments do one by one. */
  lemma {:induction false} FrameActs(lib: Library, q: Vec, path: seq<Segment>, v: Point)
    requires |q| == JOINTS && ValidPath(path)
    ensures Act(FrameOf(lib, q, path), v) == ChainPoint(lib, q, path, v)
    ensures MatVec(FrameOf(lib, q, path).linear, v) == ChainVector(lib, q, path, v)
  {
    hide Act, MatVec, Moved, Turned, MatTimes;
    if path == [] {
      IdentityActs(v);
    } else {
      var k := |path| - 1;
      var front, seg := FrameOf(lib, q, path[..k]), path[k];
      assert path[..k] + [seg] == path;
      SegmentActs(lib, q, seg, v);
      FrameActs(lib, q, path[..k], Moved(lib, q, seg, v));
      FrameActs(lib, q, path[..k], Turned(lib, q, seg, v));
      ActCompose(front, SegmentFrame(lib, q, seg), v);
      MatTimesVec(front.linear, SegmentFrame(lib, q, seg).linear, v);
      ChainSnoc(lib, q, path[..k], seg, v);
    }
  }

  lemma FramePosition(lib: Library, q: Vec, path: seq<Segment>)
    requires |q| == JOINTS && ValidPath(path)
    ensures FrameOf(lib, q, path).translation == ChainPoint(lib, q, path, ORIGIN)
  {
    FrameActs(lib, q, path, ORIGIN);
    ActOrigin(FrameOf(lib, q, path));
  }

  lemma ActOrigin(f: Frame)
    ensures Act(f, ORIGIN) == f.translation
  {
  }

  // ----- rotations

  lemma TurnPreserves(lib: Library, q: Vec, seg: Segment, u: Point, v: Point)
    requires Circular(lib) && |q| == JOINTS && (seg.Joint? ==> seg.index < JOINTS)
    ensures Inner(Turned(lib, q, seg, u), Turned(lib, q, seg, v)) == Inner(u, v)
    ensures CrossProduct(Turned(lib, q, seg, u), Turned(lib, q, seg, v)) == Turned(lib, q, seg, CrossProduct(u, v))
  {
    hide Standard, OnCircle, TurnedBy, Inner, CrossProduct;
    if !seg.Offset? {
      var c, s := lib.cos(AngleOf(q, seg)), lib.sin(AngleOf(q, seg));
      assert OnCircle(c, s);
      TurnByPreserves(seg.axis, c, s, u, v);
    }
  }

  lemma TurnByPreserves(a: TurnAxis, c: real, s: real, u: Point, v: Point)
    requires OnCircle(c, s)
    ensures Inner(TurnedBy(a, c, s, u), TurnedBy(a, c, s, v)) == Inner(u, v)
    ensures CrossProduct(TurnedBy(a, c, s, u), TurnedBy(a, c, s, v)) == TurnedBy(a, c, s, CrossProduct(u, v))
  {
    hide Mix, OnCircle, TurnedBy, Inner, CrossProduct;
    match a {
      case AlongX => TurnXPreserves(c, s, u, v);
      case AlongY => TurnYPreserves(c, s, u, v);
      case AlongZ => TurnZPreserves(c, s, u, v);
    }
  }

  lemma TurnXPreserves(c: real, s: real, u: Point, v: Point)
    requires OnCircle(c, s)
    ensures Inner(TurnedBy(AlongX, c, s, u), TurnedBy(AlongX, c, s, v)) == Inner(u, v)
    ensures CrossProduct(TurnedBy(AlongX, c, s, u), TurnedBy(AlongX, c, s, v)) == TurnedBy(AlongX, c, s, CrossProduct(u, v))
  {
    hide Mix, OnCircle, Area, Times;
    PlanePreserves(c, s, u.y, u.z, v.y, v.z);
    PlaneCross(c, s, u.y, u.z, u.x, v.y, v.z, v.x);
  }

  lemma TurnYPreserves(c: real, s: real, u: Point, v: Point)
    requires OnCircle(c, s)
    ensures Inner(TurnedBy(AlongY, c, s, u), TurnedBy(AlongY, c, s, v)) == Inner(u, v)
    ensures CrossProduct(TurnedBy(AlongY, c, s, u), TurnedBy(AlongY, c, s, v)) == TurnedBy(AlongY, c, s, CrossProduct(u, v))
  {
    hide Mix, OnCircle, Area, Times;
    PlanePreserves(c, s, u.z, u.x, v.z, v.x);
    PlaneCross(c, s, u.z, u.x, u.y, v.z, v.x, v.y);
    MixOrder(c, s, u.x, u.z);
    MixOrder(c, s, v.x, v.z);
    MixOrder(c, s, CrossProduct(u, v).x, CrossProduct(u, v).z);
  }

  lemma TurnZPreserves(c: real, s: real, u: Point, v: Point)
    requires OnCircle(c, s)
    ensures Inner(TurnedBy(AlongZ, c, s, u), TurnedBy(AlongZ, c, s, v)) == Inner(u, v)
    ensures CrossProduct(TurnedBy(AlongZ, c, s, u), TurnedBy(AlongZ, c, s, v)) == TurnedBy(AlongZ, c, s, CrossProduct(u, v))
  {
    hide Mix, OnCircle, Area, Times;
    PlanePreserves(c, s, u.x, u.y, v.x, v.y);
    PlaneCross(c, s, u.x, u.y, u.z, v.x, v.y, v.z);
  }

  lemma MixOrder(c: real, s: real, x: real, z: real)
    ensures Mix(c, x, s, z) == Mix(s, z, c, x) && Mix(-s, x, c, z) == Mix(c, z, -s, x)
  {
  }

  /** A turn of the plane keeps inner products and areas. */
  lemma PlanePreserves(c: real, s: real, a: real, b: real, d: real, e: real)
    requires OnCircle(c, s)
    ensures var (a', b', d', e') := (Mix(c, a, -s, b), Mix(s, a, c, b), Mix(c, d, -s, e), Mix(s, d, c, e));
      Times(a', d') + Times(b', e') == Times(a, d) + Times(b, e) && Area(a', b', d', e') == Area(a, b, d, e)
  {
    MixMinus(c, s, a, b);
    MixMinus(c, s, d, e);
    PlaneTurn(c, s, a, b, d, e);
  }

  lemma MixMinus(c: real, s: real, a: real, b: real)
    ensures Mix(c, a, -s, b) == c * a - s * b && Mix(s, a, c, b) == s * a + c * b
  {
  }

  lemma PlaneTurn(c: real, s: real, a: real, b: real, d: real, e: real)
    requires OnCircle(c, s)
    ensures var (a', b', d', e') := (c * a - s * b, s * a + c * b, c * d - s * e, s * d + c * e);
      Times(a', d') + Times(b', e') == Times(a, d) + Times(b, e) && Area(a', b', d', e') == Area(a, b, d, e)
  {
    var a', b', d', e' := c * a - s * b, s * a + c * b, c * d - s * e, s * d + c * e;
    assert a' * d' + b' * e' == (c * c + s * s) * (a * d + b * e);
    assert a' * e' - b' * d' == (c * c + s * s) * (a * e - b * d);
  }

  /** The two remaining components of the cross product of two turned vectors. */
  lemma PlaneCross(c: real, s: real, a: real, b: real, f: real, d: real, e: real, g: real)
    ensures var (a', b', d', e') := (Mix(c, a, -s, b), Mix(s, a, c, b), Mix(c, d, -s, e), Mix(s, d, c, e));
      && Area(b', f, e', g) == Mix(c, Area(b, f, e, g), -s, Area(f, a, g, d))
      && Area(f, a', g, d') == Mix(s, Area(b, f, e, g), c, Area(f, a, g, d))
  {
  }

  lemma {:induction false} ChainPreserves(lib: Library, q: Vec, path: seq<Segment>, u: Point, v: Point)
    requires Circular(lib) && |q| == JOINTS && ValidPath(path)
    ensures Inner(ChainVector(lib, q, path, u), ChainVector(lib, q, path, v)) == Inner(u, v)
    ensures CrossProduct(ChainVector(lib, q, path, u), ChainVector(lib, q, path, v)) == ChainVector(lib, q, path, CrossProduct(u, v))
  {
    hide Turned, Inner, CrossProduct, Circular;
    if path != [] {
      var rest := path[1..];
      ChainPreserves(lib, q, rest, u, v);
      TurnPreserves(lib, q, path[0], ChainVector(lib, q, rest, u), ChainVector(lib, q, rest, v));
    }
  }

  /** A proper rotation: it keeps every inner product and every cross product. */
  ghost predicate ProperRotation(m: Mat) {
    && (forall u, v :: Inner(MatVec(m, u), MatVec(m, v)) == Inner(u, v))
    && (forall u, v :: CrossProduct(MatVec(m, u), MatVec(m, v)) == MatVec(m, CrossProduct(u, v)))
  }

  lemma FrameIsProper(lib: Library, q: Vec, path: seq<Segment>)
    requires Circular(lib) && |q| == JOINTS && ValidPath(path)
    ensures ProperRotation(FrameOf(lib, q, path).linear)
  {
    hide Inner, CrossProduct, MatVec, Circular, FrameOf, ChainVector;
    var m := FrameOf(lib, q, path).linear;
    forall u, v
      ensures Inner(MatVec(m, u), MatVec(m, v)) == Inner(u, v)
      ensures CrossProduct(MatVec(m, u), MatVec(m, v)) == MatVec(m, CrossProduct(u, v))
    {
      FrameActs(lib, q, path, u);
      FrameActs(lib, q, path, v);
      FrameActs(lib, q, path, CrossProduct(u, v));
      ChainPreserves(lib, q, path, u, v);
    }
  }

  /** In coordinates: the columns are orthonormal and right-handed. */
  ghost predicate OrthonormalColumns(m: Mat) {
    var (c0, c1, c2) := ColumnsOf(m);
    && Inner(c0, c0) == Inner(c1, c1) == Inner(c2, c2) == 1.0 && Inner(c0, c1) == Inner(c1, c2) == Inner(c2, c0) == 0.0
    && CrossProduct(c0, c1) == c2
  }

  lemma ProperAt(m: Mat, u: Point, v: Point)
    requires ProperRotation(m)
    ensures Inner(MatVec(m, u), MatVec(m, v)) == Inner(u, v)
    ensures CrossProduct(MatVec(m, u), MatVec(m, v)) == MatVec(m, CrossProduct(u, v))
  {
    hide Inner, MatVec, CrossProduct;
  }

  lemma InnerAxis(r: Point)
    ensures Inner(r, UnitAxis(AlongX)) == r.x && Inner(r, UnitAxis(AlongY)) == r.y && Inner(r, UnitAxis(AlongZ)) == r.z
  {
  }

  lemma CrossAxes(u: Point, v: Point)
    requires u == Point(1.0, 0.0, 0.0) && v == Point(0.0, 1.0, 0.0)
    ensures CrossProduct(u, v) == Point(0.0, 0.0, 1.0)
  {
  }

  lemma AxesAre(m: Mat)
    ensures var (x, y, z) := (UnitAxis(AlongX), UnitAxis(AlongY), UnitAxis(AlongZ));
      && (MatVec(m, x), MatVec(m, y), MatVec(m, z)) == ColumnsOf(m) && CrossProduct(x, y) == z
      && Inner(x, x) == Inner(y, y) == Inner(z, z) == 1.0 && Inner(x, y) == Inner(y, z) == Inner(z, x) == 0.0
  {
    hide Inner, CrossProduct;
    InnerAxis(m.r0);
    InnerAxis(m.r1);
    InnerAxis(m.r2);
    InnerAxis(UnitAxis(AlongX));
    InnerAxis(UnitAxis(AlongY));
    InnerAxis(UnitAxis(AlongZ));
    CrossAxes(UnitAxis(AlongX), UnitAxis(AlongY));
  }

  lemma ProperIsOrthonormal(m: Mat)
    requires ProperRotation(m)
    ensures OrthonormalColumns(m)
  {
    hide Inner, MatVec, CrossProduct, ProperRotation, UnitAxis, ColumnsOf;
    var x, y, z := UnitAxis(AlongX), UnitAxis(AlongY), UnitAxis(AlongZ);
    AxesAre(m);
    ProperAt(m, x, x);
    ProperAt(m, y, y);
    ProperAt(m, z, z);
    ProperAt(m, x, y);
    ProperAt(m, y, z);
    ProperAt(m, z, x);
  }

  // ----- reach

  function Length(lib: Library, v: Point): real { lib.sqrt(Inner(v, v)) }

  /** The sum of the lengths of the offsets. */
  function Reach(lib: Library, path: seq<Segment>): real {
    if path == [] then 0.0 else (if path[0].Offset? then Length(lib, path[0].step) else 0.0) + Reach(lib, path[1..])
  }

  lemma InnerSelf(v: Point)
    ensures Inner(v, v) >= 0.0
  {
    var x := Square(v.x);
    var y := Square(v.y);
    var z := Square(v.z);
  }

  /** Lagrange's identity gives the Cauchy-Schwarz inequality. */
  lemma CauchySchwarz(u: Point, v: Point, a: real, b: real)
    requires a >= 0.0 && b >= 0.0 && Inner(u, u) <= a * a && Inner(v, v) <= b * b
    ensures Inner(u, v) <= a * b
  {
    var w := CrossProduct(u, v);
    var uu, vv, uv, ww, p := Inner(u, u), Inner(v, v), Inner(u, v), Inner(w, w), a * b;
    Lagrange(u, v);
    InnerSelf(u);
    InnerSelf(v);
    InnerSelf(w);
    hide Inner;
    assert uv * uv <= uu * vv;
    ProductSign(a * a - uu, vv, (a * a - uu) * vv);
    ProductSign(a * a, b * b - vv, a * a * (b * b - vv));
    ProductSign(a, a, a * a);
    assert p * p == a * a * (b * b);
    assert uv * uv <= p * p;
    ProductSign(a, b, p);
    if uv > p { LargerSquare(uv, p, uv * uv, p * p); }
  }

  lemma LargerSquare(x: real, y: real, x2: real, y2: real)
    requires x2 == x * x && y2 == y * y && x > y >= 0.0
    ensures x2 > y2
  {
    ProductSign(x - y, x + y, (x - y) * (x + y));
    assert (x - y) * (x + y) == x2 - y2;
  }

  lemma Lagrange(u: Point, v: Point)
    ensures Inner(u, v) * Inner(u, v) + Inner(CrossProduct(u, v), CrossProduct(u, v)) == Inner(u, u) * Inner(v, v)
  {
  }

  lemma AddedLength(u: Point, v: Point, a: real, b: real)
    requires a >= 0.0 && b >= 0.0 && Inner(u, u) <= a * a && Inner(v, v) <= b * b
    ensures Inner(Added(u, v), Added(u, v)) <= (a + b) * (a + b)
  {
    CauchySchwarz(u, v, a, b);
    AddedInner(u, v);
    assert (a + b) * (a + b) == a * a + 2.0 * (a * b) + b * b;
  }

  lemma AddedInner(u: Point, v: Point)
    ensures Inner(Added(u, v), Added(u, v)) == Inner(u, u) + 2.0 * Inner(u, v) + Inner(v, v)
  {
  }

  /** Nothing at the end of a chain is further from the base than the offsets are long. */
  lemma {:induction false} WithinReach(lib: Library, q: Vec, path: seq<Segment>)
    requires Circular(lib) && |q| == JOINTS && ValidPath(path)
    ensures var p, r := ChainPoint(lib, q, path, ORIGIN), Reach(lib, path); r >= 0.0 && Inner(p, p) <= r * r
  {
    hide Inner, Turned, Circular;
    if path == [] {
      InnerOrigin();
    } else {
      WithinReach(lib, q, path[1..]);
      var p, r := ChainPoint(lib, q, path[1..], ORIGIN), Reach(lib, path[1..]);
      if path[0].Offset? {
        OffsetLength(lib, path[0].step);
        AddedLength(p, path[0].step, r, Length(lib, path[0].step));
        assert Length(lib, path[0].step) + r == r + Length(lib, path[0].step);
      } else {
        TurnPreserves(lib, q, path[0], p, p);
      }
    }
  }

  lemma InnerOrigin()
    ensures Inner(ORIGIN, ORIGIN) == 0.0 * 0.0
  {
  }

  lemma OffsetLength(lib: Library, v: Point)
    requires Circular(lib)
    ensures Length(lib, v) >= 0.0 && Inner(v, v) == Length(lib, v) * Length(lib, v)
  {
    hide Standard, Inner;
    InnerSelf(v);
    var s := SqrtFacts(lib, Inner(v, v));
  }

  // ----- derivatives

  ghost predicate PointRate(f: real -> Point, c: real, y: Point, d: Point) {
    Rate(XOf(f), c, y.x, d.x) && Rate(YOf(f), c, y.y, d.y) && Rate(ZOf(f), c, y.z, d.z)
  }

  function XOf(f: real -> Point): real -> real { t => f(t).x }

  function YOf(f: real -> Point): real -> real { t => f(t).y }

  function ZOf(f: real -> Point): real -> real { t => f(t).z }

  lemma CoordinatesAt(f: real -> Point, t: real)
    ensures XOf(f)(t) == f(t).x && YOf(f)(t) == f(t).y && ZOf(f)(t) == f(t).z
  {
  }

  function Scaled3(k: real, v: Point): Point { Point(Times(k, v.x), Times(k, v.y), Times(k, v.z)) }

  /** How fast the segment turns when joint `j` moves. */
  function Speed(seg: Segment, j: nat): real { if seg.Joint? && seg.index == j then 1.0 else 0.0 }

  /** The velocity of the point `v` at the end of a path when joint `j` moves. */
  function Velocity(lib: Library, q: Vec, path: seq<Segment>, v: Point, j: nat): Point
    requires |q| == JOINTS && ValidPath(path)
  {
    if path == [] then ORIGIN
    else
      var turned := Turned(lib, q, path[0], Velocity(lib, q, path[1..], v, j));
      if path[0].Offset? then turned
      else Added(Scaled3(Speed(path[0], j), CrossProduct(UnitAxis(path[0].axis), ChainPoint(lib, q, path, v))), turned)
  }

  lemma MixIs(a: real, x: real, b: real, y: real)
    ensures Mix(a, x, b, y) == Times(a, x) + Times(b, y)
  {
  }

  lemma RateMix(a: real -> real, f: real -> real, b: real -> real, g: real -> real, h: real -> real, c: real,
                a0: real, a1: real, x: real, v: real, b0: real, b1: real, y: real, w: real)
    requires Rate(a, c, a0, a1) && Rate(f, c, x, v) && Rate(b, c, b0, b1) && Rate(g, c, y, w)
    requires forall t :: h(t) == Mix(a(t), f(t), b(t), g(t))
    ensures Rate(h, c, Mix(a0, x, b0, y), Mix(a0, v, b0, w) + Mix(a1, x, b1, y))
  {
    hide Times, Rate, Mix;
    var af := RateTerm(a, f, c, a0, a1, x, v);
    var bg := RateTerm(b, g, c, b0, b1, y, w);
    var left, right := Times(a0, v) + Times(a1, x), Times(b0, w) + Times(b1, y);
    RateTerms(a, f, b, g, h, af, bg, c, Times(a0, x), left, Times(b0, y), right);
    MixRate(a0, x, a1, v, b0, y, b1, w, left, right);
  }

  lemma MixRate(a0: real, x: real, a1: real, v: real, b0: real, y: real, b1: real, w: real, left: real, right: real)
    requires left == Times(a0, v) + Times(a1, x) && right == Times(b0, w) + Times(b1, y)
    ensures Mix(a0, x, b0, y) == Times(a0, x) + Times(b0, y) && Mix(a0, v, b0, w) + Mix(a1, x, b1, y) == left + right
  {
    hide Times;
  }

  lemma RateTerm(a: real -> real, f: real -> real, c: real, a0: real, a1: real, x: real, v: real) returns (af: real -> real)
    requires Rate(a, c, a0, a1) && Rate(f, c, x, v)
    ensures Rate(af, c, Times(a0, x), Times(a0, v) + Times(a1, x)) && forall t :: af(t) == Times(a(t), f(t))
  {
    hide Times, Rate;
    af := t => Times(a(t), f(t));
    RateProduct(a, f, af, c, a0, a1, x, v);
  }

  lemma RateTerms(a: real -> real, f: real -> real, b: real -> real, g: real -> real, h: real -> real,
                  af: real -> real, bg: real -> real, c: real, x: real, v: real, y: real, w: real)
    requires Rate(af, c, x, v) && Rate(bg, c, y, w)
    requires forall t :: h(t) == Mix(a(t), f(t), b(t), g(t))
    requires forall t :: af(t) == Times(a(t), f(t))
    requires forall t :: bg(t) == Times(b(t), g(t))
    ensures Rate(h, c, x + y, v + w)
  {
    hide Times, Rate, Mix;
    forall t
      ensures h(t) == af(t) + bg(t)
    {
      MixIs(a(t), f(t), b(t), g(t));
    }
    RateSum(af, bg, h, c, x, v, y, w);
  }

  /** Cosine and sine of a segment's angle as joint `j` moves. */
  lemma TurnRates(lib: Library, q: Vec, seg: Segment, j: nat, co: real -> real, si: real -> real, neg: real -> real)
    requires Standard(lib) && |q| == JOINTS && j < JOINTS && !seg.Offset? && (seg.Joint? ==> seg.index < JOINTS)
    requires forall t :: co(t) == lib.cos(AngleOf(q[j := t], seg))
    requires forall t :: si(t) == lib.sin(AngleOf(q[j := t], seg))
    requires forall t :: neg(t) == -si(t)
    ensures var c, s, w := lib.cos(AngleOf(q, seg)), lib.sin(AngleOf(q, seg)), Speed(seg, j);
      Rate(co, q[j], c, Times(w, -s)) && Rate(si, q[j], s, Times(w, c)) && Rate(neg, q[j], -s, Times(w, -c))
  {
    hide Standard, Rate, Times;
    var c, s, w := lib.cos(AngleOf(q, seg)), lib.sin(AngleOf(q, seg)), Speed(seg, j);
    TimesOne(-s);
    TimesOne(c);
    if seg.Joint? && seg.index == j {
      LibraryRates(lib, q[j]);
      RateSame(lib.cos, co, q[j], c, -s);
      RateSame(lib.sin, si, q[j], s, c);
    } else {
      forall t
        ensures co(t) == c && si(t) == s
      {
        OtherAngle(q, seg, j, t);
      }
      RateConstant(co, q[j], c);
      RateConstant(si, q[j], s);
    }
    MinusScaled(si, neg, q[j], s, Times(w, c));
    MinusTimes(w, c);
  }

  lemma TimesOne(x: real)
    ensures Times(1.0, x) == x && Times(0.0, x) == 0.0
  {
  }

  lemma OtherAngle(q: Vec, seg: Segment, j: nat, t: real)
    requires |q| == JOINTS && j < JOINTS && !seg.Offset? && (seg.Joint? ==> seg.index < JOINTS && seg.index != j)
    ensures AngleOf(q[j := t], seg) == AngleOf(q, seg)
  {
  }

  lemma MinusTimes(w: real, c: real)
    ensures Times(w, -c) == -Times(w, c)
  {
  }

  lemma MinusScaled(f: real -> real, h: real -> real, c: real, x: real, v: real)
    requires Rate(f, c, x, v) && forall t :: h(t) == -f(t)
    ensures Rate(h, c, -x, -v)
  {
    hide Rate;
    RateScaled(f, h, -1.0, 0.0, c, x, v);
    TimesOf(-1.0, v);
  }

  lemma LibraryRates(lib: Library, x: real)
    requires Standard(lib)
    ensures Rate(lib.cos, x, lib.cos(x), -lib.sin(x)) && Rate(lib.sin, x, lib.sin(x), lib.cos(x))
  {
    RateOf(lib.cos, x, lib.cos(x), -lib.sin(x), -lib.cos(x));
    RateOf(lib.sin, x, lib.sin(x), lib.cos(x), -lib.sin(x));
  }

  lemma SpeedTerms(w: real, c: real, s: real, x: real, y: real)
    ensures Mix(Times(w, -s), x, Times(w, -c), y) == Times(w, -Mix(s, x, c, y))
    ensures Mix(Times(w, c), x, Times(w, -s), y) == Times(w, Mix(c, x, -s, y))
    ensures Mix(Times(w, -s), x, Times(w, c), y) == Times(w, Mix(-s, x, c, y))
    ensures Mix(Times(w, -c), x, Times(w, -s), y) == Times(w, -Mix(c, x, s, y))
  {
  }

  /** The rate of a turned moving point. */
  lemma TurnedRate(lib: Library, q: Vec, seg: Segment, j: nat, f: real -> Point, h: real -> Point, y: Point, d: Point)
    requires Standard(lib) && |q| == JOINTS && j < JOINTS && !seg.Offset? && (seg.Joint? ==> seg.index < JOINTS)
    requires PointRate(f, q[j], y, d) && forall t :: h(t) == Turned(lib, q[j := t], seg, f(t))
    ensures PointRate(h, q[j], Turned(lib, q, seg, y),
      Added(Scaled3(Speed(seg, j), CrossProduct(UnitAxis(seg.axis), Turned(lib, q, seg, y))), Turned(lib, q, seg, d)))
  {
    hide Standard, PointRate, Speed, AngleOf, TurnedBy, CrossProduct, Scaled3, Added, UnitAxis, Rate, Times;
    var co := t => lib.cos(AngleOf(q[j := t], seg));
    var si := t => lib.sin(AngleOf(q[j := t], seg));
    var neg := t => -si(t);
    TurnRates(lib, q, seg, j, co, si, neg);
    var c, s, w := lib.cos(AngleOf(q, seg)), lib.sin(AngleOf(q, seg)), Speed(seg, j);
    match seg.axis {
      case AlongX => TurnXRate(q[j], co, si, neg, f, h, c, s, w, y, d);
      case AlongY => TurnYRate(q[j], co, si, neg, f, h, c, s, w, y, d);
      case AlongZ => TurnZRate(q[j], co, si, neg, f, h, c, s, w, y, d);
    }
  }

  lemma TurnXIs(c: real, s: real, v: Point)
    ensures TurnedBy(AlongX, c, s, v) == Point(v.x, Mix(c, v.y, -s, v.z), Mix(s, v.y, c, v.z))
  {
  }

  lemma TurnYIs(c: real, s: real, v: Point)
    ensures TurnedBy(AlongY, c, s, v) == Point(Mix(c, v.x, s, v.z), v.y, Mix(-s, v.x, c, v.z))
  {
  }

  lemma TurnZIs(c: real, s: real, v: Point)
    ensures TurnedBy(AlongZ, c, s, v) == Point(Mix(c, v.x, -s, v.y), Mix(s, v.x, c, v.y), v.z)
  {
  }

  lemma TurnXRate(c0: real, co: real -> real, si: real -> real, neg: real -> real, f: real -> Point,
                  h: real -> Point, c: real, s: real, w: real, y: Point, d: Point)
    requires Rate(co, c0, c, Times(w, -s)) && Rate(si, c0, s, Times(w, c)) && Rate(neg, c0, -s, Times(w, -c))
    requires PointRate(f, c0, y, d) && (forall t :: neg(t) == -si(t)) && forall t :: h(t) == TurnedBy(AlongX, co(t), si(t), f(t))
    ensures PointRate(h, c0, TurnedBy(AlongX, c, s, y),
      Added(Scaled3(w, CrossProduct(UnitAxis(AlongX), TurnedBy(AlongX, c, s, y))), TurnedBy(AlongX, c, s, d)))
  {
    hide Rate, Times, Mix, CrossProduct, Scaled3, UnitAxis, TurnedBy, XOf, YOf, ZOf;
    var fx, fy, fz := XOf(f), YOf(f), ZOf(f);
    var hx, hy, hz := XOf(h), YOf(h), ZOf(h);
    forall t
      ensures hy(t) == Mix(co(t), fy(t), neg(t), fz(t)) && hz(t) == Mix(si(t), fy(t), co(t), fz(t)) && hx(t) == fx(t)
    {
      CoordinatesAt(f, t);
      CoordinatesAt(h, t);
      assert neg(t) == -si(t) && h(t) == TurnedBy(AlongX, co(t), si(t), f(t));
      TurnXIs(co(t), si(t), f(t));
    }
    TurnXIs(c, s, y);
    TurnXIs(c, s, d);
    var n := -s;
    RateMix(co, fy, neg, fz, hy, c0, c, Times(w, n), y.y, d.y, n, Times(w, -c), y.z, d.z);
    RateMix(si, fy, co, fz, hz, c0, s, Times(w, c), y.y, d.y, c, Times(w, n), y.z, d.z);
    SpeedTerms(w, c, s, y.y, y.z);
    RateSame(fx, hx, c0, y.x, d.x);
    CrossAlongX(w, TurnedBy(AlongX, c, s, y));
  }

  lemma TurnYRate(c0: real, co: real -> real, si: real -> real, neg: real -> real, f: real -> Point,
                  h: real -> Point, c: real, s: real, w: real, y: Point, d: Point)
    requires Rate(co, c0, c, Times(w, -s)) && Rate(si, c0, s, Times(w, c)) && Rate(neg, c0, -s, Times(w, -c))
    requires PointRate(f, c0, y, d) && (forall t :: neg(t) == -si(t)) && forall t :: h(t) == TurnedBy(AlongY, co(t), si(t), f(t))
    ensures PointRate(h, c0, TurnedBy(AlongY, c, s, y),
      Added(Scaled3(w, CrossProduct(UnitAxis(AlongY), TurnedBy(AlongY, c, s, y))), TurnedBy(AlongY, c, s, d)))
  {
    hide Rate, Times, Mix, CrossProduct, Scaled3, UnitAxis, TurnedBy, XOf, YOf, ZOf;
    var fx, fy, fz := XOf(f), YOf(f), ZOf(f);
    var hx, hy, hz := XOf(h), YOf(h), ZOf(h);
    forall t
      ensures hx(t) == Mix(co(t), fx(t), si(t), fz(t)) && hz(t) == Mix(neg(t), fx(t), co(t), fz(t)) && hy(t) == fy(t)
    {
      CoordinatesAt(f, t);
      CoordinatesAt(h, t);
      assert neg(t) == -si(t) && h(t) == TurnedBy(AlongY, co(t), si(t), f(t));
      TurnYIs(co(t), si(t), f(t));
    }
    TurnYIs(c, s, y);
    TurnYIs(c, s, d);
    var n := -s;
    RateMix(co, fx, si, fz, hx, c0, c, Times(w, n), y.x, d.x, s, Times(w, c), y.z, d.z);
    RateMix(neg, fx, co, fz, hz, c0, n, Times(w, -c), y.x, d.x, c, Times(w, n), y.z, d.z);
    SpeedTerms(w, c, s, y.x, y.z);
    RateSame(fy, hy, c0, y.y, d.y);
    CrossAlongY(w, TurnedBy(AlongY, c, s, y));
  }

  lemma TurnZRate(c0: real, co: real -> real, si: real -> real, neg: real -> real, f: real -> Point,
                  h: real -> Point, c: real, s: real, w: real, y: Point, d: Point)
    requires Rate(co, c0, c, Times(w, -s)) && Rate(si, c0, s, Times(w, c)) && Rate(neg, c0, -s, Times(w, -c))
    requires PointRate(f, c0, y, d) && (forall t :: neg(t) == -si(t)) && forall t :: h(t) == TurnedBy(AlongZ, co(t), si(t), f(t))
    ensures PointRate(h, c0, TurnedBy(AlongZ, c, s, y),
      Added(Scaled3(w, CrossProduct(UnitAxis(AlongZ), TurnedBy(AlongZ, c, s, y))), TurnedBy(AlongZ, c, s, d)))
  {
    hide Rate, Times, Mix, CrossProduct, Scaled3, UnitAxis, TurnedBy, XOf, YOf, ZOf;
    var fx, fy, fz := XOf(f), YOf(f), ZOf(f);
    var hx, hy, hz := XOf(h), YOf(h), ZOf(h);
    forall t
      ensures hx(t) == Mix(co(t), fx(t), neg(t), fy(t)) && hy(t) == Mix(si(t), fx(t), co(t), fy(t)) && hz(t) == fz(t)
    {
      CoordinatesAt(f, t);
      CoordinatesAt(h, t);
      assert neg(t) == -si(t) && h(t) == TurnedBy(AlongZ, co(t), si(t), f(t));
      TurnZIs(co(t), si(t), f(t));
    }
    TurnZIs(c, s, y);
    TurnZIs(c, s, d);
    var n := -s;
    RateMix(co, fx, neg, fy, hx, c0, c, Times(w, n), y.x, d.x, n, Times(w, -c), y.y, d.y);
    RateMix(si, fx, co, fy, hy, c0, s, Times(w, c), y.x, d.x, c, Times(w, n), y.y, d.y);
    SpeedTerms(w, c, s, y.x, y.y);
    RateSame(fz, hz, c0, y.z, d.z);
    CrossAlongZ(w, TurnedBy(AlongZ, c, s, y));
  }

  lemma CrossAlongX(w: real, p: Point)
    ensures Scaled3(w, CrossProduct(UnitAxis(AlongX), p)) == Point(0.0, Times(w, -p.z), Times(w, p.y))
  {
  }

  lemma CrossAlongY(w: real, p: Point)
    ensures Scaled3(w, CrossProduct(UnitAxis(AlongY), p)) == Point(Times(w, p.z), 0.0, Times(w, -p.x))
  {
  }

  lemma CrossAlongZ(w: real, p: Point)
    ensures Scaled3(w, CrossProduct(UnitAxis(AlongZ), p)) == Point(Times(w, -p.y), Times(w, p.x), 0.0)
  {
  }

  lemma RateShift(f: real -> real, h: real -> real, c: real, x: real, v: real, b: real)
    requires Rate(f, c, x, v) && forall t :: h(t) == f(t) + b
    ensures Rate(h, c, x + b, v)
  {
    hide Rate;
    forall t
      ensures h(t) == Scaled(1.0, f(t), b)
    {
    }
    RateScaled(f, h, 1.0, b, c, x, v);
    TimesOf(1.0, v);
  }

  lemma ShiftedRate(f: real -> Point, h: real -> Point, c: real, y: Point, d: Point, shift: Point)
    requires PointRate(f, c, y, d) && forall t :: h(t) == Added(f(t), shift)
    ensures PointRate(h, c, Added(y, shift), d)
  {
    hide Rate;
    RateShift(XOf(f), XOf(h), c, y.x, d.x, shift.x);
    RateShift(YOf(f), YOf(h), c, y.y, d.y, shift.y);
    RateShift(ZOf(f), ZOf(h), c, y.z, d.z, shift.z);
  }

  lemma FixedRate(f: real -> Point, c: real, y: Point)
    requires forall t :: f(t) == y
    ensures PointRate(f, c, y, ORIGIN)
  {
    hide Rate;
    RateConstant(XOf(f), c, y.x);
    RateConstant(YOf(f), c, y.y);
    RateConstant(ZOf(f), c, y.z);
  }

  /** Along a path, `Velocity` is the derivative of the carried point in joint `j`. */
  lemma {:induction false} ChainRate(lib: Library, q: Vec, path: seq<Segment>, v: Point, j: nat, f: real -> Point)
    requires Standard(lib) && |q| == JOINTS && ValidPath(path) && j < JOINTS
    requires forall t :: f(t) == ChainPoint(lib, q[j := t], path, v)
    ensures PointRate(f, q[j], ChainPoint(lib, q, path, v), Velocity(lib, q, path, v, j))
  {
    hide Standard, PointRate, Turned, CrossProduct, Scaled3;
    if path == [] {
      FixedRate(f, q[j], v);
    } else {
      var rest := t => ChainPoint(lib, q[j := t], path[1..], v);
      ChainRate(lib, q, path[1..], v, j, rest);
      var y, d := ChainPoint(lib, q, path[1..], v), Velocity(lib, q, path[1..], v, j);
      if path[0].Offset? {
        ShiftedRate(rest, f, q[j], y, d, path[0].step);
        TurnedByOffset(lib, q, path[0], d);
      } else {
        TurnedRate(lib, q, path[0], j, rest, f, y, d);
      }
    }
  }

  lemma TurnedByOffset(lib: Library, q: Vec, seg: Segment, v: Point)
    requires |q| == JOINTS && seg.Offset?
    ensures Turned(lib, q, seg, v) == v
  {
  }

  // ----- the geometric Jacobian

  ghost predicate NotIn(path: seq<Segment>, j: nat) {
    forall k | 0 <= k < |path| :: path[k].Joint? ==> path[k].index != j
  }

  lemma TurnedOrigin(lib: Library, q: Vec, seg: Segment)
    requires |q| == JOINTS && (seg.Joint? ==> seg.index < JOINTS)
    ensures Turned(lib, q, seg, ORIGIN) == ORIGIN
  {
  }

  lemma ZeroSpeed(v: Point)
    ensures Scaled3(0.0, v) == ORIGIN && Scaled3(1.0, v) == v && Added(v, ORIGIN) == v && Added(ORIGIN, v) == v && Subtracted(v, ORIGIN) == v
  {
  }

  /** A joint outside the path does not move its end. */
  lemma {:induction false} OutsideJoint(lib: Library, q: Vec, path: seq<Segment>, v: Point, j: nat)
    requires |q| == JOINTS && ValidPath(path) && NotIn(path, j)
    ensures Velocity(lib, q, path, v, j) == ORIGIN
  {
    hide Turned, CrossProduct, Scaled3;
    if path != [] {
      OutsideJoint(lib, q, path[1..], v, j);
      TurnedOrigin(lib, q, path[0]);
      if !path[0].Offset? { ZeroSpeed(CrossProduct(UnitAxis(path[0].axis), ChainPoint(lib, q, path, v))); }
    }
  }

  lemma TurnedDifference(lib: Library, q: Vec, seg: Segment, u: Point, v: Point)
    requires |q| == JOINTS && (seg.Joint? ==> seg.index < JOINTS)
    ensures Turned(lib, q, seg, Subtracted(u, v)) == Subtracted(Moved(lib, q, seg, u), Moved(lib, q, seg, v))
  {
    hide TurnedBy;
    if !seg.Offset? { TurnByDifference(seg.axis, lib.cos(AngleOf(q, seg)), lib.sin(AngleOf(q, seg)), u, v); }
  }

  lemma TurnByDifference(a: TurnAxis, c: real, s: real, u: Point, v: Point)
    ensures TurnedBy(a, c, s, Subtracted(u, v)) == Subtracted(TurnedBy(a, c, s, u), TurnedBy(a, c, s, v))
  {
    hide Mix;
    match a {
      case AlongX => MixDifference(c, s, u.y, u.z, v.y, v.z);
      case AlongY => MixDifference(c, s, u.x, u.z, v.x, v.z);
      case AlongZ => MixDifference(c, s, u.x, u.y, v.x, v.y);
    }
  }

  lemma MixDifference(c: real, s: real, x: real, y: real, x': real, y': real)
    ensures Mix(c, x - x', -s, y - y') == Mix(c, x, -s, y) - Mix(c, x', -s, y')
    ensures Mix(s, x - x', c, y - y') == Mix(s, x, c, y) - Mix(s, x', c, y')
    ensures Mix(c, x - x', s, y - y') == Mix(c, x, s, y) - Mix(c, x', s, y')
    ensures Mix(-s, x - x', c, y - y') == Mix(-s, x, c, y) - Mix(-s, x', c, y')
  {
  }

  /** A joint inside the path moves its end around the joint's axis: `axis x (end - origin)`, axis and origin
      being those of the path up to the joint. */
  lemma {:induction false} InsideJoint(lib: Library, q: Vec, pre: seq<Segment>, axis: TurnAxis, j: nat, post: seq<Segment>, v: Point)
    requires Circular(lib) && |q| == JOINTS && ValidPath(pre) && ValidPath(post) && j < JOINTS && NotIn(pre, j) && NotIn(post, j)
    ensures var path := pre + [Joint(axis, j)] + post;
      ValidPath(path) && Velocity(lib, q, path, v, j)
        == CrossProduct(ChainVector(lib, q, pre, UnitAxis(axis)), Subtracted(ChainPoint(lib, q, path, v), ChainPoint(lib, q, pre, ORIGIN)))
  {
    hide Turned, CrossProduct, Scaled3, Circular, Added, Subtracted;
    var path := pre + [Joint(axis, j)] + post;
    if pre == [] {
      assert path[1..] == post && path[0] == Joint(axis, j);
      OutsideJoint(lib, q, post, v, j);
      TurnedOrigin(lib, q, path[0]);
      ZeroSpeed(CrossProduct(UnitAxis(axis), ChainPoint(lib, q, path, v)));
      ZeroSpeed(ChainPoint(lib, q, path, v));
    } else {
      var seg, rest := pre[0], pre[1..] + [Joint(axis, j)] + post;
      assert path[1..] == rest && path[0] == seg;
      InsideJoint(lib, q, pre[1..], axis, j, post, v);
      var a, p, o := ChainVector(lib, q, pre[1..], UnitAxis(axis)), ChainPoint(lib, q, rest, v), ChainPoint(lib, q, pre[1..], ORIGIN);
      TurnPreserves(lib, q, seg, a, Subtracted(p, o));
      TurnedDifference(lib, q, seg, p, o);
      if !seg.Offset? {
        ZeroSpeed(CrossProduct(UnitAxis(seg.axis), ChainPoint(lib, q, path, v)));
        ZeroSpeed(Turned(lib, q, seg, CrossProduct(a, Subtracted(p, o))));
      }
    }
  }
}
