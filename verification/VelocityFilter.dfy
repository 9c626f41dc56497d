/** The synchronized velocity filter: finite differences averaged over windows of samples, then smoothed by a
    moving average or tracked by an alpha-beta filter. */
module VelocityFilter {
  import opened LinearAlgebra

  const JOINTS: nat := 6

  const MAX_GAP: real := 0.1

  function Quotient(a: Vec, d: real): (r: Vec)
    requires d != 0.0
    ensures |r| == |a|
  {
    seq(|a|, i requires 0 <= i < |a| => a[i] / d)
  }

  // ----- window length

  /** `std::round`: halves go away from zero. */
  function Round(x: real): int { if x >= 0.0 then (x + 0.5).Floor else -((-x + 0.5).Floor) }

  function AtLeast(x: real, lo: real): real { Max(x, lo) }

  /** The constructor's window length and its flag. */
  method WindowLength(input: real, output: real, tolerance: real) returns (multiple: nat, aligned: bool)
    ensures var ratio := AtLeast(input, 1.0) / AtLeast(output, 1.0);
      && multiple == (if Round(ratio) > 1 then Round(ratio) else 1)
      && (aligned <==> Round(ratio) >= 1 && Abs(ratio - Round(ratio) as real) <= AtLeast(tolerance, 0.0))
  {
    var ratio := AtLeast(input, 1.0) / AtLeast(output, 1.0);
    RatioPositive(AtLeast(input, 1.0), AtLeast(output, 1.0));
    var rounded := Round(ratio);
    if rounded >= 1 && Abs(ratio - rounded as real) <= AtLeast(tolerance, 0.0) {
      return rounded, true;
    }
    var fallback := Round(AtLeast(ratio, 1.0));
    return if fallback > 1 then fallback else 1, false;
  }

  lemma RatioPositive(x: real, y: real)
    requires x >= 1.0 && y >= 1.0
    ensures x / y > 0.0
  {
    var r := x / y;
    assert r * y == x;
    if r <= 0.0 { ProductSign(-r, y, -(r * y)); }
  }

  // ----- the filter as a function

  datatype Settings = Settings(alpha: real, beta: real, alphaBeta: bool, multiple: nat)

  ghost predicate ValidSettings(g: Settings) { 0.0 <= g.alpha <= 1.0 && g.multiple >= 1 }

  datatype State = State(initialized: bool, ready: bool, samples: nat, position: Vec, time: real,
                         accumulated: Vec, elapsed: real, filtered: Vec, tracked: Vec, tracking: bool)

  ghost predicate ValidState(s: State) {
    |s.position| == |s.accumulated| == |s.filtered| == |s.tracked| == JOINTS
  }

  function Fresh(): State {
    State(false, false, 0, Zero(JOINTS), 0.0, Zero(JOINTS), 0.0, Zero(JOINTS), Zero(JOINTS), false)
  }

  function Restarted(position: Vec, time: real): State {
    State(true, false, 0, position, time, Zero(JOINTS), 0.0, Zero(JOINTS), Zero(JOINTS), false)
  }

  /** A full window: smooth or track, then empty the window. */
  function Closed(g: Settings, s: State): (r: State)
    requires ValidState(s) && s.samples > 0
    ensures ValidState(r)
  {
    var measured := Quotient(s.accumulated, s.samples as real);
    var span := Max(s.elapsed, EPSILON);
    var smoothed :=
      if g.alphaBeta then
        if !s.tracking then s.(tracked := s.position, filtered := measured, tracking := true)
        else
          var predicted := Plus(s.tracked, Scale(span, s.filtered));
          var residual := Minus(s.position, predicted);
          s.(tracked := Plus(predicted, Scale(g.alpha, residual)),
             filtered := Plus(s.filtered, Quotient(Scale(g.beta, residual), span)))
      else if !s.ready then s.(filtered := measured)
      else s.(filtered := Plus(Scale(g.alpha, measured), Scale(1.0 - g.alpha, s.filtered)));
    smoothed.(ready := true, accumulated := Zero(JOINTS), elapsed := 0.0, samples := 0)
  }

  predicate ValidGap(dt: real) { EPSILON < dt <= MAX_GAP }

  /** One sample taken into the window. */
  function Taken(s: State, position: Vec, time: real): (r: State)
    requires ValidState(s) && |position| == JOINTS && ValidGap(time - s.time)
    ensures ValidState(r) && r.samples > 0
  {
    var dt := time - s.time;
    s.(position := position, time := time, samples := s.samples + 1, elapsed := s.elapsed + dt,
       accumulated := Plus(s.accumulated, Quotient(Minus(position, s.position), dt)))
  }

  function Advanced(g: Settings, s: State, position: Vec, time: real): (r: State)
    requires ValidState(s) && |position| == JOINTS
    ensures ValidState(r)
  {
    if !s.initialized || !ValidGap(time - s.time) then Restarted(position, time)
    else
      var next := Taken(s, position, time);
      if next.samples >= g.multiple then Closed(g, next) else next
  }

  function Output(s: State): Vec { if s.ready then s.filtered else Zero(JOINTS) }

  // ----- the filter object

  class SynchronizedVelocityFilter {
    const settings: Settings
    var initialized: bool
    var outputInitialized: bool
    var accumulatedSamples: nat
    var previousPosition: Vec
    var previousTime: real
    var accumulatedVelocity: Vec
    var accumulatedTime: real
    var filteredVelocity: Vec
    var alphaBetaPosition: Vec
    var alphaBetaInitialized: bool

    ghost function Contents(): State
      reads this
    {
      State(initialized, outputInitialized, accumulatedSamples, previousPosition, previousTime,
            accumulatedVelocity, accumulatedTime, filteredVelocity, alphaBetaPosition, alphaBetaInitialized)
    }

    ghost predicate Valid()
      reads this
    {
      ValidSettings(settings) && ValidState(Contents()) && accumulatedSamples < settings.multiple
    }

    constructor (input: real, output: real, alpha: real, tolerance: real, alphaBeta: bool, beta: real)
      ensures Valid() && Contents() == Fresh()
      ensures settings.alphaBeta == alphaBeta && settings.alpha == Clamp(alpha, 0.0, 1.0) && settings.beta == Clamp(beta, 0.0, 1.0)
      ensures var ratio := Round(AtLeast(input, 1.0) / AtLeast(output, 1.0)); settings.multiple == if ratio > 1 then ratio else 1
    {
      var multiple, aligned := WindowLength(input, output, tolerance);
      settings := Settings(Clamp(alpha, 0.0, 1.0), Clamp(beta, 0.0, 1.0), alphaBeta, multiple);
      initialized, outputInitialized, alphaBetaInitialized := false, false, false;
      accumulatedSamples, accumulatedTime, previousTime := 0, 0.0, 0.0;
      previousPosition, accumulatedVelocity := Zero(JOINTS), Zero(JOINTS);
      filteredVelocity, alphaBetaPosition := Zero(JOINTS), Zero(JOINTS);
    }

    method Reset(position: Vec, time: real)
      requires Valid() && |position| == JOINTS
      modifies this
      ensures Valid() && Contents() == Restarted(position, time)
    {
      previousPosition, previousTime := position, time;
      accumulatedVelocity, filteredVelocity := Zero(JOINTS), Zero(JOINTS);
      accumulatedTime, alphaBetaPosition := 0.0, Zero(JOINTS);
      alphaBetaInitialized := false;
      accumulatedSamples := 0;
      initialized := true;
      outputInitialized := false;
    }

    method Update(position: Vec, time: real) returns (velocity: Vec)
      requires Valid() && |position| == JOINTS
      modifies this
      ensures Valid() && Contents() == Advanced(settings, old(Contents()), position, time) && velocity == Output(Contents())
    {
      hide Closed, Quotient, Minus, Plus, Zero;
      if !initialized {
        Reset(position, time);
        return Zero(JOINTS);
      }
      var dt := time - previousTime;
      if dt <= EPSILON || dt > MAX_GAP {
        Reset(position, time);
        return Zero(JOINTS);
      }
      var raw := Quotient(Minus(position, previousPosition), dt);
      previousPosition, previousTime := position, time;
      accumulatedVelocity := Plus(accumulatedVelocity, raw);
      accumulatedTime := accumulatedTime + dt;
      accumulatedSamples := accumulatedSamples + 1;
      if accumulatedSamples >= settings.multiple {
        CloseWindow();
      }
      if !outputInitialized {
        return Zero(JOINTS);
      }
      return filteredVelocity;
    }

    method CloseWindow()
      requires ValidSettings(settings) && ValidState(Contents()) && accumulatedSamples > 0
      modifies this
      ensures Valid() && Contents() == Closed(settings, old(Contents()))
    {
      var measured := Quotient(accumulatedVelocity, accumulatedSamples as real);
      var span := Max(accumulatedTime, EPSILON);
      if settings.alphaBeta {
        if !alphaBetaInitialized {
          alphaBetaPosition, filteredVelocity := previousPosition, measured;
          alphaBetaInitialized := true;
        } else {
          var predicted := Plus(alphaBetaPosition, Scale(span, filteredVelocity));
          var residual := Minus(previousPosition, predicted);
          alphaBetaPosition := Plus(predicted, Scale(settings.alpha, residual));
          filteredVelocity := Plus(filteredVelocity, Quotient(Scale(settings.beta, residual), span));
        }
      } else if !outputInitialized {
        filteredVelocity := measured;
      } else {
        filteredVelocity := Plus(Scale(settings.alpha, measured), Scale(1.0 - settings.alpha, filteredVelocity));
      }
      outputInitialized := true;
      accumulatedVelocity, accumulatedTime, accumulatedSamples := Zero(JOINTS), 0.0, 0;
    }
  }

  // ----- runs

  datatype Sample = Sample(position: Vec, time: real)

  /** The filter after a restart at `samples[0]` and the samples that follow. */
  function After(g: Settings, samples: seq<Sample>): (r: State)
    requires samples != [] && forall k | 0 <= k < |samples| :: |samples[k].position| == JOINTS
    ensures ValidState(r)
  {
    var k := |samples| - 1;
    if k == 0 then Restarted(samples[0].position, samples[0].time)
    else Advanced(g, After(g, samples[..k]), samples[k].position, samples[k].time)
  }

  ghost predicate Regular(samples: seq<Sample>) {
    && samples != [] && (forall k | 0 <= k < |samples| :: |samples[k].position| == JOINTS)
    && forall k | 0 < k < |samples| :: ValidGap(samples[k].time - samples[k - 1].time)
  }

  lemma RegularFront(samples: seq<Sample>)
    requires Regular(samples) && |samples| > 1
    ensures Regular(samples[..|samples| - 1])
  {
  }

  function Residue(k: nat, m: nat): nat
    requires m >= 1
  {
    k % m
  }

  lemma ResidueNext(k: nat, m: nat)
    requires m >= 1
    ensures Residue(k + 1, m) == if Residue(k, m) + 1 >= m then 0 else Residue(k, m) + 1
    ensures Residue(k, m) < m && (k < m ==> Residue(k, m) == k)
  {
    var q, r := k / m, k % m;
    assert k == m * q + r;
    if r + 1 == m {
      assert k + 1 == m * (q + 1) + 0;
      ResidueUnique(k + 1, m, q + 1, 0);
    } else {
      ResidueUnique(k + 1, m, q, r + 1);
    }
    if k < m { ResidueUnique(k, m, 0, k); }
  }

  lemma ResidueUnique(k: nat, m: nat, q: int, r: nat)
    requires m >= 1 && k == m * q + r && r < m
    ensures Residue(k, m) == r
  {
    var d := q - k / m;
    assert k == m * (k / m) + k % m;
    assert m * q - m * (k / m) == m * d;
    MultipleSize(m, d, m * d);
  }

  lemma MultipleSize(m: nat, d: int, p: int)
    requires p == m * d
    ensures (d >= 1 ==> p >= m) && (d <= -1 ==> p + m <= 0)
  {
    if d >= 1 { assert m * (d - 1) >= 0; } else if d <= -1 { assert m * (-1 - d) >= 0; }
  }

  lemma AdvancedIs(g: Settings, s: State, position: Vec, time: real)
    requires ValidSettings(g) && ValidState(s) && |position| == JOINTS && s.initialized && ValidGap(time - s.time)
    ensures var r, full := Advanced(g, s, position, time), s.samples + 1 >= g.multiple;
      && r.initialized && r.position == position && r.time == time
      && r.samples == (if full then 0 else s.samples + 1) && r.ready == (s.ready || full)
  {
  }

  /** The window holds the samples since the last multiple of the window length, so its counter stays below
      that length; output starts with the first full window. */
  lemma {:induction false} WindowCount(g: Settings, samples: seq<Sample>)
    requires ValidSettings(g) && Regular(samples)
    ensures var s, k := After(g, samples), |samples| - 1;
      && s.initialized && s.position == samples[k].position && s.time == samples[k].time
      && s.samples == Residue(k, g.multiple) && s.samples < g.multiple && (s.ready <==> k >= g.multiple)
  {
    hide Advanced, ValidGap, Residue;
    var k := |samples| - 1;
    ResidueNext(0, g.multiple);
    if k > 0 {
      RegularFront(samples);
      WindowCount(g, samples[..k]);
      ResidueNext(k - 1, g.multiple);
      LastGap(samples);
      AdvancedIs(g, After(g, samples[..k]), samples[k].position, samples[k].time);
    }
  }

  lemma LastGap(samples: seq<Sample>)
    requires Regular(samples) && |samples| > 1
    ensures ValidGap(samples[|samples| - 1].time - samples[|samples| - 2].time)
  {
  }

  // ----- constant velocity

  /** The samples of a motion from `start` at velocity `v`. */
  ghost predicate Uniform(samples: seq<Sample>, start: Vec, v: Vec) {
    |start| == |v| == JOINTS && forall k | 0 <= k < |samples| :: samples[k].position == On(start, v, samples[k].time)
  }

  function On(start: Vec, v: Vec, time: real): Vec
    requires |start| == |v|
  {
    Plus(start, Scale(time, v))
  }

  /** The state a motion at constant velocity leads to; its current window began at `since`. */
  ghost predicate Steady(g: Settings, s: State, start: Vec, v: Vec, since: real)
    requires ValidState(s) && |start| == |v| == JOINTS
  {
    && s.position == On(start, v, s.time) && s.accumulated == Scale(s.samples as real, v) && s.elapsed == s.time - since
    && s.elapsed >= 0.0 && (s.samples > 0 ==> s.elapsed > EPSILON)
    && (s.ready ==> s.filtered == v) && (g.alphaBeta ==> s.tracking == s.ready && (s.ready ==> s.tracked == On(start, v, since)))
  }

  lemma DivBy(x: real, d: real, v: real)
    requires d != 0.0 && x == d * v
    ensures x / d == v
  {
    var q := x / d;
    assert q * d == x;
    assert (q - v) * d == 0.0;
    if q != v { NonZeroProduct(q - v, d, (q - v) * d); }
  }

  lemma NonZeroProduct(x: real, y: real, z: real)
    requires z == x * y && x != 0.0 && y != 0.0
    ensures z != 0.0
  {
    assert z / y == x;
  }

  lemma RawIsVelocity(start: Vec, v: Vec, from: real, to: real)
    requires |start| == |v| && to != from
    ensures Quotient(Minus(On(start, v, to), On(start, v, from)), to - from) == v
  {
    forall j | 0 <= j < |v|
      ensures Quotient(Minus(On(start, v, to), On(start, v, from)), to - from)[j] == v[j]
    {
      DivBy(On(start, v, to)[j] - On(start, v, from)[j], to - from, v[j]);
    }
  }

  lemma OneMoreOf(n: real, v: Vec)
    ensures Plus(Scale(n, v), v) == Scale(n + 1.0, v)
  {
  }

  lemma MeanOf(n: real, v: Vec)
    requires n != 0.0
    ensures Quotient(Scale(n, v), n) == v
  {
    forall j | 0 <= j < |v|
      ensures Quotient(Scale(n, v), n)[j] == v[j]
    {
      DivBy(Scale(n, v)[j], n, v[j]);
    }
  }

  lemma BlendSame(a: real, v: Vec)
    ensures Plus(Scale(a, v), Scale(1.0 - a, v)) == v
  {
    forall j | 0 <= j < |v|
      ensures Plus(Scale(a, v), Scale(1.0 - a, v))[j] == v[j]
    {
      assert a * v[j] + (1.0 - a) * v[j] == v[j];
    }
  }

  lemma OnLater(start: Vec, v: Vec, from: real, span: real)
    requires |start| == |v|
    ensures Plus(On(start, v, from), Scale(span, v)) == On(start, v, from + span)
  {
  }

  lemma NoResidual(a: real, b: real, span: real, p: Vec, v: Vec)
    requires |p| == |v| && span != 0.0
    ensures Plus(p, Scale(a, Minus(p, p))) == p && Plus(v, Quotient(Scale(b, Minus(p, p)), span)) == v
  {
    forall j | 0 <= j < |v|
      ensures Plus(v, Quotient(Scale(b, Minus(p, p)), span))[j] == v[j]
    {
      DivBy(b * (p[j] - p[j]), span, 0.0);
    }
  }

  lemma SteadyTaken(g: Settings, s: State, start: Vec, v: Vec, since: real, time: real)
    requires ValidState(s) && |start| == |v| == JOINTS && Steady(g, s, start, v, since) && ValidGap(time - s.time)
    ensures Steady(g, Taken(s, On(start, v, time), time), start, v, since)
  {
    RawIsVelocity(start, v, s.time, time);
    OneMoreOf(s.samples as real, v);
  }

  lemma SteadyClosed(g: Settings, s: State, start: Vec, v: Vec, since: real)
    requires ValidState(s) && |start| == |v| == JOINTS && Steady(g, s, start, v, since) && s.samples > 0
    ensures Steady(g, Closed(g, s), start, v, s.time) && Closed(g, s).ready
  {
    MeanOf(s.samples as real, v);
    BlendSame(g.alpha, v);
    assert Scale(0.0, v) == Zero(JOINTS);
    if g.alphaBeta && s.tracking {
      OnLater(start, v, since, s.elapsed);
      NoResidual(g.alpha, g.beta, s.elapsed, s.position, v);
    }
  }

  lemma {:induction false} SteadyRun(g: Settings, samples: seq<Sample>, start: Vec, v: Vec) returns (since: real)
    requires ValidSettings(g) && Regular(samples) && Uniform(samples, start, v)
    ensures Steady(g, After(g, samples), start, v, since)
  {
    hide Steady, Taken, Closed;
    var k := |samples| - 1;
    if k == 0 {
      SteadyStart(g, samples[0], start, v);
      return samples[0].time;
    }
    RegularFront(samples);
    since := SteadyRun(g, samples[..k], start, v);
    WindowCount(g, samples[..k]);
    var s := After(g, samples[..k]);
    SteadyTaken(g, s, start, v, since, samples[k].time);
    var next := Taken(s, samples[k].position, samples[k].time);
    if next.samples >= g.multiple {
      SteadyClosed(g, next, start, v, since);
      since := next.time;
    }
  }

  lemma SteadyStart(g: Settings, first: Sample, start: Vec, v: Vec)
    requires |start| == |v| == JOINTS && first.position == On(start, v, first.time)
    ensures Steady(g, Restarted(first.position, first.time), start, v, first.time)
  {
    assert Scale(0.0, v) == Zero(JOINTS);
  }

  /** At constant velocity, whatever the gaps and in both modes, the output is zero before the first full
      window and exactly that velocity from it on. */
  lemma ConstantVelocityExact(g: Settings, samples: seq<Sample>, start: Vec, v: Vec)
    requires ValidSettings(g) && Regular(samples) && Uniform(samples, start, v)
    ensures Output(After(g, samples)) == if |samples| - 1 >= g.multiple then v else Zero(JOINTS)
  {
    hide After;
    var since := SteadyRun(g, samples, start, v);
    WindowCount(g, samples);
  }

  // ----- the hull of the raw velocities

  /** The finite difference of joint `j` between two samples. */
  function RawVelocity(from: Sample, to: Sample, j: nat): real
    requires |from.position| == |to.position| == JOINTS && j < JOINTS && ValidGap(to.time - from.time)
  {
    (to.position[j] - from.position[j]) / (to.time - from.time)
  }

  /** Every finite difference of joint `j` lies in `[lo, hi]`. */
  ghost predicate RawWithin(samples: seq<Sample>, j: nat, lo: real, hi: real)
    requires Regular(samples) && j < JOINTS
  {
    forall k | 0 < k < |samples| :: lo <= RawVelocity(samples[k - 1], samples[k], j) <= hi
  }

  lemma MeanWithin(sum: real, n: real, lo: real, hi: real)
    requires n > 0.0 && Times(n, lo) <= sum <= Times(n, hi)
    ensures lo <= sum / n <= hi
  {
    var q := sum / n;
    assert q * n == sum;
    if q < lo { ProductSign(lo - q, n, (lo - q) * n); }
    if q > hi { ProductSign(q - hi, n, (q - hi) * n); }
  }

  lemma BlendWithin(a: real, x: real, y: real, lo: real, hi: real)
    requires 0.0 <= a <= 1.0 && lo <= x <= hi && lo <= y <= hi
    ensures lo <= a * x + (1.0 - a) * y <= hi
  {
    ProductSign(a, x - lo, a * (x - lo));
    ProductSign(1.0 - a, y - lo, (1.0 - a) * (y - lo));
    ProductSign(a, hi - x, a * (hi - x));
    ProductSign(1.0 - a, hi - y, (1.0 - a) * (hi - y));
    assert a * (x - lo) + (1.0 - a) * (y - lo) == a * x + (1.0 - a) * y - lo;
    assert a * (hi - x) + (1.0 - a) * (hi - y) == hi - (a * x + (1.0 - a) * y);
  }

  /** In moving-average mode every output from the first full window on lies, joint by joint, in the hull of the
      raw velocities since the restart. */
  lemma {:induction false} MovingAverageHull(g: Settings, samples: seq<Sample>, j: nat, lo: real, hi: real)
    requires ValidSettings(g) && !g.alphaBeta && Regular(samples) && j < JOINTS && RawWithin(samples, j, lo, hi)
    ensures Hulled(After(g, samples), j, lo, hi)
  {
    hide Advanced, ValidGap, Residue, Hulled, RawWithin;
    var k := |samples| - 1;
    if k == 0 {
      HulledStart(samples[0], j, lo, hi);
    } else {
      RegularFront(samples);
      RawFront(samples, j, lo, hi);
      MovingAverageHull(g, samples[..k], j, lo, hi);
      WindowCount(g, samples[..k]);
      LastGap(samples);
      assert samples[k - 1] == Sample(samples[k - 1].position, samples[k - 1].time);
      HulledStep(g, After(g, samples[..k]), samples[k], j, lo, hi);
    }
  }

  /** What is in the window and what is put out both lie between the bounds. */
  ghost predicate Hulled(s: State, j: nat, lo: real, hi: real)
    requires ValidState(s) && j < JOINTS
  {
    && Times(s.samples as real, lo) <= s.accumulated[j] <= Times(s.samples as real, hi)
    && (s.ready ==> lo <= Output(s)[j] <= hi)
  }

  lemma HulledStart(first: Sample, j: nat, lo: real, hi: real)
    requires |first.position| == JOINTS && j < JOINTS
    ensures Hulled(Restarted(first.position, first.time), j, lo, hi)
  {
    TimesOf(0.0, lo);
    TimesOf(0.0, hi);
  }

  lemma RawFront(samples: seq<Sample>, j: nat, lo: real, hi: real)
    requires Regular(samples) && |samples| > 1 && j < JOINTS && RawWithin(samples, j, lo, hi)
    ensures var k := |samples| - 1; Regular(samples[..k]) && RawWithin(samples[..k], j, lo, hi)
    ensures var k := |samples| - 1;
      ValidGap(samples[k].time - samples[k - 1].time) && lo <= RawVelocity(samples[k - 1], samples[k], j) <= hi
  {
    hide RawVelocity, ValidGap;
    RegularFront(samples);
    var k := |samples| - 1;
    var front := samples[..k];
    forall i | 0 < i < |front|
      ensures lo <= RawVelocity(front[i - 1], front[i], j) <= hi
    {
      assert front[i - 1] == samples[i - 1] && front[i] == samples[i];
    }
  }

  lemma HulledStep(g: Settings, s: State, next: Sample, j: nat, lo: real, hi: real)
    requires ValidSettings(g) && !g.alphaBeta && ValidState(s) && s.initialized && |next.position| == JOINTS && j < JOINTS
    requires ValidGap(next.time - s.time) && lo <= RawVelocity(Sample(s.position, s.time), next, j) <= hi
    requires Hulled(s, j, lo, hi)
    ensures Hulled(Advanced(g, s, next.position, next.time), j, lo, hi)
  {
    hide Closed, Times;
    OneMoreTimes(s.samples as real, lo);
    OneMoreTimes(s.samples as real, hi);
    TimesOf(0.0, lo);
    TimesOf(0.0, hi);
    var taken := Taken(s, next.position, next.time);
    if taken.samples >= g.multiple { ClosedWithin(g, taken, j, lo, hi); }
  }

  lemma OneMoreTimes(n: real, x: real)
    ensures Times(n + 1.0, x) == Times(n, x) + x
  {
  }

  lemma ClosedWithin(g: Settings, s: State, j: nat, lo: real, hi: real)
    requires ValidSettings(g) && !g.alphaBeta && ValidState(s) && s.samples > 0 && j < JOINTS
    requires Times(s.samples as real, lo) <= s.accumulated[j] <= Times(s.samples as real, hi)
    requires s.ready ==> lo <= s.filtered[j] <= hi
    ensures var r := Closed(g, s); r.ready && r.samples == 0 && r.accumulated[j] == 0.0 && lo <= r.filtered[j] <= hi
  {
    hide Times;
    MeanWithin(s.accumulated[j], s.samples as real, lo, hi);
    if s.ready { BlendWithin(g.alpha, s.accumulated[j] / s.samples as real, s.filtered[j], lo, hi); }
  }
}
