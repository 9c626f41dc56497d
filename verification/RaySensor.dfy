/** The simulated range sensors: rays against spheres, the nearest hit, and the range that is published. */
module RaySensor {
  import opened LinearAlgebra
  import opened RmpConfig
  import opened Elementary
  import opened Kinematics

  datatype Sphere = Sphere(center: Point, radius: real)

  datatype Ray = Ray(origin: Point, direction: Point)

  predicate UnitRay(r: Ray) { Inner(r.direction, r.direction) == 1.0 }

  function At(r: Ray, t: real): Point { Added(r.origin, Scaled3(t, r.direction)) }

  /** The ray meets the sphere's surface at distance `t`. */
  predicate Meets(r: Ray, b: Sphere, t: real) {
    var d := Subtracted(At(r, t), b.center);
    Inner(d, d) == Times(b.radius, b.radius)
  }

  /** How far ahead the centre is. */
  function Forward(r: Ray, b: Sphere): real { Inner(Subtracted(b.center, r.origin), r.direction) }

  /** `radius_sq - closest_sq`. */
  function Margin(r: Ray, b: Sphere): real {
    var oc := Subtracted(b.center, r.origin);
    Times(b.radius, b.radius) - (Inner(oc, oc) - Times(Forward(r, b), Forward(r, b)))
  }

  /** `intersect_sphere`. */
  function IntersectSphere(lib: Library, r: Ray, b: Sphere, minRange: real, limit: real): Option<real> {
    var forward := Forward(r, b);
    if forward < minRange then None
    else if Margin(r, b) < 0.0 then None
    else
      var thc := lib.sqrt(Max(Margin(r, b), 0.0));
      var hit := if forward - thc < minRange then forward + thc else forward - thc;
      if hit < minRange || hit > limit then None else Some(hit)
  }

  // ----- the roots

  lemma ShiftedInner(u: Point, d: Point, t: real)
    ensures var w := Subtracted(Scaled3(t, d), u);
      Inner(w, w) == Times(Times(t, t), Inner(d, d)) - 2.0 * Times(t, Inner(u, d)) + Inner(u, u)
  {
    hide Times;
    ShiftedSquare(t, d.x, u.x);
    ShiftedSquare(t, d.y, u.y);
    ShiftedSquare(t, d.z, u.z);
    TimesThree(Times(t, t), Times(d.x, d.x), Times(d.y, d.y), Times(d.z, d.z));
    TimesThree(t, Times(u.x, d.x), Times(u.y, d.y), Times(u.z, d.z));
  }

  lemma TimesThree(k: real, a: real, b: real, c: real)
    ensures Times(k, a + b + c) == Times(k, a) + Times(k, b) + Times(k, c)
  {
  }

  lemma ShiftedSquare(t: real, d: real, u: real)
    ensures Times(Times(t, d) - u, Times(t, d) - u) == Times(Times(t, t), Times(d, d)) - 2.0 * Times(t, Times(u, d)) + Times(u, u)
  {
  }

  lemma AheadOf(r: Ray, b: Sphere, t: real)
    ensures Subtracted(At(r, t), b.center) == Subtracted(Scaled3(t, r.direction), Subtracted(b.center, r.origin))
  {
  }

  /** The surface is met where the distance from the closest approach squares to the margin. */
  lemma MeetsAt(r: Ray, b: Sphere, t: real)
    requires UnitRay(r)
    ensures Meets(r, b, t) <==> Times(t - Forward(r, b), t - Forward(r, b)) == Margin(r, b)
  {
    hide Inner, Subtracted, Scaled3, At;
    var oc, f := Subtracted(b.center, r.origin), Forward(r, b);
    AheadOf(r, b, t);
    ShiftedInner(oc, r.direction, t);
    TimesOf(Times(t, t), 1.0);
    DifferenceSquare(t, f);
    hide Times;
  }

  lemma DifferenceSquare(t: real, f: real)
    ensures Times(t - f, t - f) == Times(t, t) - 2.0 * Times(t, f) + Times(f, f)
  {
  }

  lemma SquareRoots(x: real, h: real, m: real)
    requires h >= 0.0 && h * h == m
    ensures Times(x, x) == m <==> x == h || x == -h
  {
    assert (x - h) * (x + h) == x * x - m;
    if x != h && x != -h { NotZero(x - h, x + h, (x - h) * (x + h)); }
  }

  lemma NotZero(x: real, y: real, z: real)
    requires z == x * y && x != 0.0 && y != 0.0
    ensures z != 0.0
  {
    assert z / y == x;
  }

  lemma NoRoot(x: real, m: real)
    requires m < 0.0
    ensures Times(x, x) != m
  {
    var p := Square(x);
    TimesOf(x, x);
  }

  /** `t` is a surface point of the ray within range. */
  ghost predicate HitAt(r: Ray, b: Sphere, minRange: real, limit: real, t: real) {
    minRange <= t <= limit && Meets(r, b, t)
  }

  /** An intersection is reported exactly when the centre is at least the minimum range ahead and the ray meets
      the surface in range; the reported distance is then the first such point. */
  lemma IntersectionExact(lib: Library, r: Ray, b: Sphere, minRange: real, limit: real)
    requires Standard(lib) && UnitRay(r)
    ensures var hit := IntersectSphere(lib, r, b, minRange, limit);
      && (hit.Some? <==> Forward(r, b) >= minRange && exists t :: HitAt(r, b, minRange, limit, t))
      && (hit.Some? ==> HitAt(r, b, minRange, limit, hit.value))
      && (hit.Some? ==> forall t | HitAt(r, b, minRange, limit, t) :: hit.value <= t)
  {
    hide Standard, UnitRay, Meets, Forward, Margin;
    var f, m := Forward(r, b), Margin(r, b);
    if m < 0.0 {
      forall t
        ensures !Meets(r, b, t)
      {
        MeetsAt(r, b, t);
        NoRoot(t - f, m);
      }
    } else {
      var h := SqrtFacts(lib, m);
      forall t
        ensures Meets(r, b, t) <==> t == f + h || t == f - h
      {
        MeetsAt(r, b, t);
        SquareRoots(t - f, h, m);
      }
      Candidates(lib, r, b, minRange, limit, f, h);
    }
  }

  lemma Candidates(lib: Library, r: Ray, b: Sphere, minRange: real, limit: real, f: real, h: real)
    requires f == Forward(r, b) && Margin(r, b) >= 0.0 && h >= 0.0 && h == lib.sqrt(Margin(r, b))
    requires forall t :: Meets(r, b, t) <==> t == f + h || t == f - h
    ensures var hit := IntersectSphere(lib, r, b, minRange, limit);
      && (hit.Some? <==> f >= minRange && exists t :: HitAt(r, b, minRange, limit, t))
      && (hit.Some? ==> HitAt(r, b, minRange, limit, hit.value))
      && (hit.Some? ==> forall t | HitAt(r, b, minRange, limit, t) :: hit.value <= t)
  {
    hide Meets, Forward, Margin;
    if f >= minRange {
      var hit := if f - h < minRange then f + h else f - h;
      assert HitAt(r, b, minRange, limit, hit) <==> hit <= limit;
    }
  }

  // ----- the nearest obstacle

  /** What one ray can report: its limit or an intersection. */
  ghost predicate Candidate(lib: Library, r: Ray, obstacles: seq<Sphere>, minRange: real, limit: real, t: real) {
    t == limit || exists i :: 0 <= i < |obstacles| && IntersectSphere(lib, r, obstacles[i], minRange, limit) == Some(t)
  }

  ghost predicate NearestHit(lib: Library, r: Ray, obstacles: seq<Sphere>, minRange: real, limit: real, t: real) {
    && Candidate(lib, r, obstacles, minRange, limit, t)
    && forall u | Candidate(lib, r, obstacles, minRange, limit, u) :: t <= u
  }

  /** `nearest_hit_distance`: the least of the limit and all intersections. */
  method NearestHitDistance(lib: Library, r: Ray, obstacles: seq<Sphere>, minRange: real, limit: real) returns (t: real)
    ensures NearestHit(lib, r, obstacles, minRange, limit, t)
  {
    hide IntersectSphere;
    var best, found := limit, false;
    for i := 0 to |obstacles|
      invariant NearestHit(lib, r, obstacles[..i], minRange, limit, best) && (!found ==> best == limit)
    {
      var hit := IntersectSphere(lib, r, obstacles[i], minRange, limit);
      MoreObstacles(lib, r, obstacles, i, minRange, limit, best);
      if hit.Some? {
        best := Min(best, hit.value);
        found := true;
      }
    }
    assert obstacles[..|obstacles|] == obstacles;
    return if found then best else limit;
  }

  lemma MoreObstacles(lib: Library, r: Ray, obstacles: seq<Sphere>, i: nat, minRange: real, limit: real, best: real)
    requires i < |obstacles| && NearestHit(lib, r, obstacles[..i], minRange, limit, best)
    ensures var hit := IntersectSphere(lib, r, obstacles[i], minRange, limit);
      NearestHit(lib, r, obstacles[..i + 1], minRange, limit, if hit.Some? then Min(best, hit.value) else best)
  {
    hide IntersectSphere;
    var front, more := obstacles[..i], obstacles[..i + 1];
    assert more[i] == obstacles[i] && forall k | 0 <= k < i :: more[k] == front[k];
    forall u
      ensures Candidate(lib, r, more, minRange, limit, u)
         <==> Candidate(lib, r, front, minRange, limit, u) || IntersectSphere(lib, r, obstacles[i], minRange, limit) == Some(u)
    {
      if k :| 0 <= k < |front| && IntersectSphere(lib, r, front[k], minRange, limit) == Some(u) { assert more[k] == front[k]; }
    }
  }

  // ----- the published range

  datatype RaySample = RaySample(origin: Point, scale: real)

  datatype Sensor = Sensor(frame: Frame, samples: seq<RaySample>, minRange: real, maxRange: real)

  function Direction(s: Sensor): Point { MatVec(s.frame.linear, UnitAxis(AlongX)) }

  function SampleRay(s: Sensor, k: nat): Ray
    requires k < |s.samples|
  {
    Ray(Added(s.frame.translation, MatVec(s.frame.linear, s.samples[k].origin)), Direction(s))
  }

  function SampleLimit(s: Sensor, k: nat): real
    requires k < |s.samples|
  {
    s.maxRange * s.samples[k].scale
  }

  /** A sensor with a rotated frame sends out unit rays. */
  lemma SensorRaysAreUnit(s: Sensor, k: nat)
    requires ProperRotation(s.frame.linear) && k < |s.samples|
    ensures UnitRay(SampleRay(s, k))
  {
    hide MatVec, Inner, CrossProduct;
    ProperAt(s.frame.linear, UnitAxis(AlongX), UnitAxis(AlongX));
    InnerAxis(UnitAxis(AlongX));
  }

  /** An intersection of the first `n` samples' rays with an obstacle. */
  ghost predicate SampleHit(lib: Library, s: Sensor, n: nat, obstacles: seq<Sphere>, t: real)
    requires n <= |s.samples|
  {
    exists k, i :: 0 <= k < n && 0 <= i < |obstacles|
      && IntersectSphere(lib, SampleRay(s, k), obstacles[i], s.minRange, SampleLimit(s, k)) == Some(t)
  }

  /** What the representative range can be: the maximum range, a sample's limit, or a hit. */
  ghost predicate Reading(lib: Library, s: Sensor, n: nat, obstacles: seq<Sphere>, t: real)
    requires n <= |s.samples|
  {
    t == s.maxRange || (exists k :: 0 <= k < n && t == SampleLimit(s, k)) || SampleHit(lib, s, n, obstacles, t)
  }

  ghost predicate LeastReading(lib: Library, s: Sensor, n: nat, obstacles: seq<Sphere>, t: real)
    requires n <= |s.samples|
  {
    Reading(lib, s, n, obstacles, t) && forall u | Reading(lib, s, n, obstacles, u) :: t <= u
  }

  /** The loop of `publish_rays` over one sensor's samples. */
  method RepresentativeRange(lib: Library, s: Sensor, obstacles: seq<Sphere>) returns (range: real)
    ensures LeastReading(lib, s, |s.samples|, obstacles, range)
  {
    hide IntersectSphere, SampleRay, SampleLimit, NearestHit, LeastReading;
    range := s.maxRange;
    NoReading(lib, s, obstacles);
    for k := 0 to |s.samples|
      invariant LeastReading(lib, s, k, obstacles, range)
    {
      var hit := NearestHitDistance(lib, SampleRay(s, k), obstacles, s.minRange, SampleLimit(s, k));
      NextReading(lib, s, k, obstacles, range, hit);
      range := Min(range, hit);
    }
  }

  lemma NoReading(lib: Library, s: Sensor, obstacles: seq<Sphere>)
    ensures LeastReading(lib, s, 0, obstacles, s.maxRange)
  {
  }

  lemma NextReading(lib: Library, s: Sensor, k: nat, obstacles: seq<Sphere>, range: real, hit: real)
    requires k < |s.samples| && LeastReading(lib, s, k, obstacles, range)
    requires NearestHit(lib, SampleRay(s, k), obstacles, s.minRange, SampleLimit(s, k), hit)
    ensures LeastReading(lib, s, k + 1, obstacles, Min(range, hit))
  {
    hide IntersectSphere, SampleRay, SampleLimit, Reading, Candidate;
    var ray, limit, next := SampleRay(s, k), SampleLimit(s, k), k + 1;
    forall u
      ensures Reading(lib, s, next, obstacles, u)
         <==> Reading(lib, s, k, obstacles, u) || Candidate(lib, ray, obstacles, s.minRange, limit, u)
    {
      ReadingStep(lib, s, k, obstacles, u);
    }
    var t := Min(range, hit);
    assert Reading(lib, s, next, obstacles, t);
    assert LeastReading(lib, s, next, obstacles, t);
  }

  lemma ReadingStep(lib: Library, s: Sensor, k: nat, obstacles: seq<Sphere>, u: real)
    requires k < |s.samples|
    ensures Reading(lib, s, k + 1, obstacles, u)
       <==> Reading(lib, s, k, obstacles, u) || Candidate(lib, SampleRay(s, k), obstacles, s.minRange, SampleLimit(s, k), u)
  {
    hide IntersectSphere, SampleRay, SampleLimit;
    if Candidate(lib, SampleRay(s, k), obstacles, s.minRange, SampleLimit(s, k), u) && u != SampleLimit(s, k) {
      var i :| 0 <= i < |obstacles| && IntersectSphere(lib, SampleRay(s, k), obstacles[i], s.minRange, SampleLimit(s, k)) == Some(u);
      assert SampleHit(lib, s, k + 1, obstacles, u);
    }
    if SampleHit(lib, s, k, obstacles, u) { assert SampleHit(lib, s, k + 1, obstacles, u); }
    if SampleHit(lib, s, k + 1, obstacles, u) && !SampleHit(lib, s, k, obstacles, u) {
      var j, i :| 0 <= j < k + 1 && 0 <= i < |obstacles|
        && IntersectSphere(lib, SampleRay(s, j), obstacles[i], s.minRange, SampleLimit(s, j)) == Some(u);
      assert j == k;
    }
  }

  /** The range that goes out, clamped. */
  method PublishedRange(lib: Library, s: Sensor, obstacles: seq<Sphere>) returns (range: real)
    ensures exists t :: LeastReading(lib, s, |s.samples|, obstacles, t) && range == Clamp(t, s.minRange, s.maxRange)
    ensures s.minRange <= s.maxRange ==> s.minRange <= range <= s.maxRange
  {
    var t := RepresentativeRange(lib, s, obstacles);
    range := Clamp(t, s.minRange, s.maxRange);
  }

  // ----- when the range is what the obstacles say

  /** `t` is the least of the maximum range and all hits. */
  ghost predicate LeastHit(lib: Library, s: Sensor, obstacles: seq<Sphere>, t: real) {
    var n := |s.samples|;
    && (t == s.maxRange || SampleHit(lib, s, n, obstacles, t))
    && t <= s.maxRange && forall u | SampleHit(lib, s, n, obstacles, u) :: t <= u
  }

  /** No sample is cut short. */
  predicate FullLength(s: Sensor) { forall k | 0 <= k < |s.samples| :: SampleLimit(s, k) >= s.maxRange }

  /** A sample that meets nothing still contributes its own limit. So the representative range is the least of
      the maximum range and the hits, whatever the obstacles, if and only if no sample is shorter than the
      maximum range. */
  lemma ReadingIsHitIff(lib: Library, s: Sensor)
    ensures FullLength(s) <==>
      forall obstacles, t | LeastReading(lib, s, |s.samples|, obstacles, t) :: LeastHit(lib, s, obstacles, t)
  {
    hide IntersectSphere, SampleLimit, SampleRay, SampleHit;
    if FullLength(s) {
      forall obstacles, t | LeastReading(lib, s, |s.samples|, obstacles, t)
        ensures LeastHit(lib, s, obstacles, t)
      {
        FullReading(lib, s, obstacles, t);
      }
    }
    if !FullLength(s) {
      var t := EmptyScene(lib, s);
      assert !LeastHit(lib, s, [], t) by { EmptyHits(lib, s, |s.samples|); }
    }
  }

  lemma FullReading(lib: Library, s: Sensor, obstacles: seq<Sphere>, t: real)
    requires FullLength(s) && LeastReading(lib, s, |s.samples|, obstacles, t)
    ensures LeastHit(lib, s, obstacles, t)
  {
    hide IntersectSphere, SampleLimit, SampleRay, SampleHit;
    assert Reading(lib, s, |s.samples|, obstacles, s.maxRange);
    forall u | SampleHit(lib, s, |s.samples|, obstacles, u)
      ensures t <= u
    {
      assert Reading(lib, s, |s.samples|, obstacles, u);
    }
  }

  lemma EmptyHits(lib: Library, s: Sensor, n: nat)
    requires n <= |s.samples|
    ensures forall t :: !SampleHit(lib, s, n, [], t)
  {
  }

  /** With nothing in view the sensor reports its shortest ray, which is below the maximum range. */
  lemma EmptyScene(lib: Library, s: Sensor) returns (t: real)
    requires !FullLength(s)
    ensures LeastReading(lib, s, |s.samples|, [], t) && t < s.maxRange
  {
    hide IntersectSphere, SampleRay, SampleLimit, SampleHit;
    t := ShortestLimit(s, |s.samples|);
    EmptyHits(lib, s, |s.samples|);
    var k :| 0 <= k < |s.samples| && SampleLimit(s, k) < s.maxRange;
    assert t <= SampleLimit(s, k);
  }

  lemma {:induction false} ShortestLimit(s: Sensor, n: nat) returns (t: real)
    requires n <= |s.samples|
    ensures t == s.maxRange || exists k :: 0 <= k < n && t == SampleLimit(s, k)
    ensures t <= s.maxRange && forall k | 0 <= k < n :: t <= SampleLimit(s, k)
  {
    hide SampleLimit;
    if n == 0 { return s.maxRange; }
    var before := ShortestLimit(s, n - 1);
    t := Min(before, SampleLimit(s, n - 1));
  }

  // ----- the sample grid

  datatype Face = Face(width: real, height: real, resolution: int, edgeRatio: real, falloff: real)

  function Coordinate(n: nat, i: nat): real {
    if n <= 1 then 0.0 else -1.0 + 2.0 * (i as real / (n - 1) as real)
  }

  /** `std::hypot(y, z) / std::sqrt(2)`, clamped. */
  function Radial(lib: Library, y: real, z: real): real {
    var root := lib.sqrt(2.0);
    if root == 0.0 then 0.0 else Clamp(lib.sqrt(Times(y, y) + Times(z, z)) / root, 0.0, 1.0)
  }

  function SampleAt(lib: Library, pow: (real, real) -> real, face: Face, n: nat, i: nat, j: nat): RaySample {
    var y, z := Coordinate(n, i), Coordinate(n, j);
    RaySample(Point(0.0, y * (face.width * 0.5), z * (face.height * 0.5)),
              1.0 - (1.0 - face.edgeRatio) * pow(Radial(lib, y, z), face.falloff))
  }

  function Resolution(face: Face): (n: nat)
    ensures n >= 1
  {
    if face.resolution > 1 then face.resolution else 1
  }

  function GridRow(lib: Library, pow: (real, real) -> real, face: Face, n: nat, i: nat, m: nat): seq<RaySample> {
    seq(m, j requires j >= 0 => SampleAt(lib, pow, face, n, i, j))
  }

  /** The first `rows` rows of the grid. */
  function Grid(lib: Library, pow: (real, real) -> real, face: Face, n: nat, rows: nat): seq<RaySample> {
    if rows == 0 then [] else Grid(lib, pow, face, n, rows - 1) + GridRow(lib, pow, face, n, rows - 1, n)
  }

  /** `build_samples`. */
  method BuildSamples(lib: Library, pow: (real, real) -> real, face: Face) returns (samples: seq<RaySample>)
    ensures samples == Grid(lib, pow, face, Resolution(face), Resolution(face))
  {
    hide SampleAt;
    var n := Resolution(face);
    samples := [];
    for i := 0 to n
      invariant samples == Grid(lib, pow, face, n, i)
    {
      for j := 0 to n
        invariant samples == Grid(lib, pow, face, n, i) + GridRow(lib, pow, face, n, i, j)
      {
        samples := samples + [SampleAt(lib, pow, face, n, i, j)];
      }
    }
  }

  lemma {:induction false} GridFirst(lib: Library, pow: (real, real) -> real, face: Face, n: nat, rows: nat)
    requires n >= 1 && rows >= 1
    ensures var grid := Grid(lib, pow, face, n, rows); grid != [] && grid[0] == SampleAt(lib, pow, face, n, 0, 0)
  {
    hide SampleAt;
    if rows > 1 { GridFirst(lib, pow, face, n, rows - 1); }
  }

  lemma CornerScale(lib: Library, pow: (real, real) -> real, face: Face, n: nat)
    requires Standard(lib) && n >= 2 && pow(1.0, face.falloff) == 1.0
    ensures SampleAt(lib, pow, face, n, 0, 0).scale == face.edgeRatio
  {
    hide Standard;
    var root := SqrtFacts(lib, 2.0);
    assert 0 as real / (n - 1) as real == 0.0;
    assert Times(-1.0, -1.0) == 1.0;
    assert root / root == 1.0;
  }

  /** So a sensor whose grid has corners and an edge ratio below one does not report the maximum range when
      nothing is in view. */
  lemma GridIsCutShort(lib: Library, pow: (real, real) -> real, face: Face, s: Sensor)
    requires Standard(lib) && face.resolution >= 2 && pow(1.0, face.falloff) == 1.0 && face.edgeRatio < 1.0 && s.maxRange > 0.0
    requires s.samples == Grid(lib, pow, face, Resolution(face), Resolution(face))
    ensures !FullLength(s)
  {
    hide Standard, SampleAt, Grid;
    GridFirst(lib, pow, face, Resolution(face), Resolution(face));
    CornerScale(lib, pow, face, Resolution(face));
    var limit := SampleLimit(s, 0);
    ProductSign(s.maxRange, 1.0 - face.edgeRatio, s.maxRange * (1.0 - face.edgeRatio));
    assert limit == s.maxRange * face.edgeRatio;
  }
}
