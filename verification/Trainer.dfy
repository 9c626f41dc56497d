/** Gradient steps and training epochs of the policy network. */
module Trainer {
  import opened LinearAlgebra
  import opened Calculus
  import opened RmpConfig
  import opened Elementary
  import opened Derivative
  import opened Network
  import opened Backprop
  import opened BackpropExact

  datatype Optimizer = Optimizer(learningRate: real, weightDecay: real, clipNorm: real)

  const NORM_FLOOR: real := 0.000000000001

  function Decayed(o: Optimizer, p: Vec, g: Vec): (r: Vec)
    requires |p| == |g|
    ensures |r| == |g|
  {
    if o.weightDecay != 0.0 then Plus(g, Scale(o.weightDecay, p)) else g
  }

  function ClipFactor(lib: Library, o: Optimizer, v: Vec): real {
    var norm := Norm(lib, v);
    if o.clipNorm > 0.0 && norm > o.clipNorm && norm > NORM_FLOOR then o.clipNorm / norm else 1.0
  }

  /** The vector the learning rate multiplies. */
  function Update(lib: Library, o: Optimizer, p: Vec, g: Vec): (r: Vec)
    requires |p| == |g|
    ensures |r| == |g|
  {
    var v := Decayed(o, p, g);
    Scale(ClipFactor(lib, o, v), v)
  }

  /** The parameters after one step. */
  function Stepped(lib: Library, o: Optimizer, p: Vec, g: Vec): (r: Vec)
    requires |p| == |g|
    ensures |r| == |p|
  {
    Minus(p, Scale(o.learningRate, Update(lib, o, p, g)))
  }

  /** `SgdOptimizer::step`. */
  method Step(lib: Library, o: Optimizer, policy: MlpResidualPolicy, gradient: Vec)
    requires policy.Valid() && |gradient| == ParameterCount(policy.shape)
    modifies policy
    ensures policy.Valid() && |Flatten(old(policy.Contents()))| == ParameterCount(policy.shape)
    ensures policy.Contents() == Unflatten(Stepped(lib, o, Flatten(old(policy.Contents())), gradient), policy.shape)
  {
    hide Flatten, Unflatten, Norm, Scale;
    var parameters := policy.Parameters();
    var adjusted := gradient;
    if o.weightDecay != 0.0 {
      adjusted := Plus(adjusted, Scale(o.weightDecay, parameters));
    }
    var factor := 1.0;
    if o.clipNorm > 0.0 {
      var norm := Norm(lib, adjusted);
      if norm > o.clipNorm && norm > NORM_FLOOR {
        factor := o.clipNorm / norm;
      }
    }
    adjusted := Scale(factor, adjusted);
    var refused := policy.SetParameters(Minus(parameters, Scale(o.learningRate, adjusted)));
  }

  // ----- what a step does

  lemma NormSquared(lib: Library, v: Vec)
    requires Standard(lib)
    ensures Norm(lib, v) >= 0.0 && Times(Norm(lib, v), Norm(lib, v)) == Dot(v, v)
  {
    hide Dot;
    SquaredLength(v);
    var s := SqrtFacts(lib, Dot(v, v));
    hide Standard;
    TimesOf(s, s);
  }

  lemma NormScale(lib: Library, k: real, v: Vec)
    requires Standard(lib) && k >= 0.0
    ensures Norm(lib, Scale(k, v)) == k * Norm(lib, v)
  {
    hide Dot, Scale, Norm, Standard, Times;
    NormSquared(lib, v);
    NormSquared(lib, Scale(k, v));
    ScaledDot(k, v, Scale(k, v));
    DotSymmetric(v, Scale(k, v));
    ScaledDot(k, v, v);
    ScaledRoot(k, Norm(lib, v), Norm(lib, Scale(k, v)), Dot(v, v));
  }

  lemma ScaledRoot(k: real, s: real, r: real, vv: real)
    requires k >= 0.0 && s >= 0.0 && r >= 0.0 && Times(s, s) == vv && Times(r, r) == Times(k, Times(k, vv))
    ensures r == k * s
  {
    var y := k * s;
    ProductSign(k, s, y);
    assert y * y == k * (k * (s * s));
    SameRoot(r, y);
  }

  lemma SameRoot(x: real, y: real)
    requires x >= 0.0 && y >= 0.0 && x * x == y * y
    ensures x == y
  {
    assert (x - y) * (x + y) == 0.0;
    if x > y { ProductSign(x - y, x + y, (x - y) * (x + y)); }
    if y > x { ProductSign(y - x, x + y, (y - x) * (x + y)); }
  }

  /** Clipping only shortens, and with a positive limit the update is at most as long as the limit, or as
      the floor below which the program does not clip. */
  lemma ClipBound(lib: Library, o: Optimizer, p: Vec, g: Vec)
    requires Standard(lib) && |p| == |g| && o.clipNorm > 0.0
    ensures 0.0 < ClipFactor(lib, o, Decayed(o, p, g)) <= 1.0
    ensures Norm(lib, Update(lib, o, p, g)) <= Max(o.clipNorm, NORM_FLOOR)
    ensures Norm(lib, Decayed(o, p, g)) > Max(o.clipNorm, NORM_FLOOR) ==> Norm(lib, Update(lib, o, p, g)) == o.clipNorm
  {
    hide Norm, Scale, Standard, Decayed;
    var v := Decayed(o, p, g);
    var norm, k := Norm(lib, v), ClipFactor(lib, o, v);
    NormScale(lib, k, v) by { FactorPositive(lib, o, v); }
    FactorPositive(lib, o, v);
    if norm > o.clipNorm && norm > NORM_FLOOR {
      FractionBelowOne(o.clipNorm, norm);
      Undone(o.clipNorm, norm, k);
    } else {
      UnitTimes(norm, k);
    }
  }

  lemma Undone(x: real, y: real, q: real)
    requires y > 0.0 && q == x / y
    ensures q * y == x
  {
  }

  lemma UnitTimes(x: real, k: real)
    requires k == 1.0
    ensures k * x == x
  {
  }

  lemma FactorPositive(lib: Library, o: Optimizer, g: Vec)
    ensures ClipFactor(lib, o, g) > 0.0
  {
    var norm := Norm(lib, g);
    if o.clipNorm > 0.0 && norm > o.clipNorm && norm > NORM_FLOOR { PositiveQuotient(o.clipNorm, norm); }
  }

  lemma FractionBelowOne(x: real, y: real)
    requires 0.0 < x < y
    ensures x / y < 1.0
  {
    var q := x / y;
    assert q * y == x;
    if q >= 1.0 { ProductSign(q - 1.0, y, (q - 1.0) * y); }
  }

  /** Loss after a step of learning rate `u` and no weight decay. */
  function LossAfter(a: Activations, o: Optimizer, p: Vec, g: Vec, t: Task, es: seq<Example>, s: Shape, u: real): real
    requires |p| == |g| == ParameterCount(s) && FitsBatch(es, t, s) && s.output > 0
  {
    BatchLoss(a, Unflatten(Stepped(a.lib, o.(learningRate := u), p, g), s), t, es, s)
  }

  /** Unless the reported gradient vanishes, every small enough step without weight decay strictly lowers the
      loss of its batch, clipped or not. */
  lemma StepDescends(a: Activations, n: Net, o: Optimizer, t: Task, es: seq<Example>, s: Shape, g: Vec) returns (limit: real)
    requires StandardActivations(a) && Fits(n, s) && FitsBatch(es, t, s) && s.output > 0 && o.weightDecay == 0.0
    requires BatchOffTheJump(a, n, t, es, s) && ExactBatch(a, n, t, es, s)
    requires g == Flatten(BatchGradient(a, n, t, es, Used(a), s)) && g != Zero(|g|)
    ensures limit > 0.0 && |Flatten(n)| == |g| == ParameterCount(s)
    ensures forall u | 0.0 < u <= limit :: LossAfter(a, o, Flatten(n), g, t, es, s, u) < BatchLoss(a, n, t, es, s)
  {
    hide Flatten, Unflatten, BatchGradient, Dot, Scale, BatchLoss, Rate, StandardActivations, BatchOffTheJump, ExactBatch, Fits, Norm,
      ClipFactor, Stepped, Zero;
    FlattenLength(n, s);
    FlattenLength(BatchGradient(a, n, t, es, Used(a), s), s);
    var k := ClipFactor(a.lib, o, g);
    FactorPositive(a.lib, o, g);
    var v := Scale(-k, g);
    FlatGradientExact(a, n, v, t, es, s);
    SteepestSlope(k, g);
    limit := RateDescends(FlatEntry(a, Flatten(n), v, t, es, s), BatchLoss(a, n, t, es, s), Dot(g, v));
    forall u | 0.0 < u <= limit
      ensures LossAfter(a, o, Flatten(n), g, t, es, s, u) < BatchLoss(a, n, t, es, s)
    {
      SteppedAlong(a.lib, o, Flatten(n), g, k, u);
      assert FlatEntry(a, Flatten(n), v, t, es, s)(u) == LossAfter(a, o, Flatten(n), g, t, es, s, u);
    }
  }

  lemma SteepestSlope(k: real, g: Vec)
    requires k > 0.0 && g != Zero(|g|)
    ensures Dot(g, Scale(-k, g)) < 0.0
  {
    hide Dot, Scale;
    DotScale(-k, g, g);
    SquaredLength(g);
    var x := Dot(g, g);
    ProductSign(k, x, k * x);
    assert (-k) * x == -(k * x);
  }

  lemma SteppedAlong(lib: Library, o: Optimizer, p: Vec, g: Vec, k: real, u: real)
    requires |p| == |g| && o.weightDecay == 0.0 && k == ClipFactor(lib, o, g)
    ensures Stepped(lib, o.(learningRate := u), p, g) == Plus(p, Scale(u, Scale(-k, g)))
  {
    hide Norm, Scale;
    StepAlong(p, g, k, u);
  }

  lemma StepAlong(p: Vec, g: Vec, k: real, u: real)
    requires |p| == |g|
    ensures Minus(p, Scale(u, Scale(k, g))) == Plus(p, Scale(u, Scale(-k, g)))
  {
    forall i | 0 <= i < |p|
      ensures Minus(p, Scale(u, Scale(k, g)))[i] == Plus(p, Scale(u, Scale(-k, g)))[i]
    {
      StepEntry(p[i], g[i], k, u);
    }
  }

  lemma StepEntry(p: real, g: real, k: real, u: real)
    ensures p - u * (k * g) == p + u * ((-k) * g)
  {
    assert (-k) * g == -(k * g);
  }

  // ----- an epoch

  /** The network and the accumulated loss after the batches of the first `count` samples. */
  datatype Progress = Progress(net: Net, loss: real, batches: nat)

  function Batch(es: seq<Example>, offset: nat, size: nat): seq<Example>
    requires offset <= |es|
  {
    es[offset..if offset + size < |es| then offset + size else |es|]
  }

  ghost function EpochFrom(a: Activations, o: Optimizer, p: Progress, t: Task, es: seq<Example>, offset: nat, size: nat, s: Shape): (r: Progress)
    requires Fits(p.net, s) && FitsBatch(es, t, s) && s.output > 0 && size > 0
    ensures Fits(r.net, s)
    decreases |es| - offset
  {
    if offset >= |es| then p
    else
      var batch := Batch(es, offset, size);
      FlattenLength(p.net, s);
      FlattenLength(BatchGradient(a, p.net, t, batch, Used(a), s), s);
      var next := Unflatten(Stepped(a.lib, o, Flatten(p.net), Flatten(BatchGradient(a, p.net, t, batch, Used(a), s))), s);
      EpochFrom(a, o, Progress(next, p.loss + BatchLoss(a, p.net, t, batch, s), p.batches + 1), t, es, offset + size, size, s)
  }

  /** Number of batches of `size` that cover `n` samples. */
  function BatchCount(n: nat, size: nat): nat
    requires size > 0
  {
    (n + size - 1) / size
  }

  lemma {:induction false} EpochBatches(a: Activations, o: Optimizer, p: Progress, t: Task, es: seq<Example>, offset: nat, size: nat, s: Shape)
    requires Fits(p.net, s) && FitsBatch(es, t, s) && s.output > 0 && size > 0 && offset <= |es|
    ensures EpochFrom(a, o, p, t, es, offset, size, s).batches == p.batches + BatchCount(|es| - offset, size)
    decreases |es| - offset
  {
    hide BatchGradient, BatchLoss, Stepped, Flatten, Unflatten, Fits, BatchCount;
    CountStep(|es| - offset, size);
    if offset < |es| {
      var batch := Batch(es, offset, size);
      FlattenLength(p.net, s);
      FlattenLength(BatchGradient(a, p.net, t, batch, Used(a), s), s);
      var next := Unflatten(Stepped(a.lib, o, Flatten(p.net), Flatten(BatchGradient(a, p.net, t, batch, Used(a), s))), s);
      var q := Progress(next, p.loss + BatchLoss(a, p.net, t, batch, s), p.batches + 1);
      if offset + size <= |es| {
        EpochBatches(a, o, q, t, es, offset + size, size, s);
      }
    }
  }

  lemma CountStep(n: nat, size: nat)
    requires size > 0
    ensures BatchCount(0, size) == 0
    ensures 0 < n <= size ==> BatchCount(n, size) == 1
    ensures n >= size ==> BatchCount(n, size) == 1 + BatchCount(n - size, size)
  {
    hide BatchCount;
    CountIs(0, size);
    CountIs(n, size);
    QuotientIs(size - 1, size, 0, size - 1);
    if 0 < n <= size { QuotientIs(n + size - 1, size, 1, n - 1); }
    if n >= size {
      CountIs(n - size, size);
      Shifted(n - 1, size);
    }
  }

  lemma CountIs(n: nat, size: nat)
    requires size > 0
    ensures BatchCount(n, size) == (n + size - 1) / size
  {
  }

  lemma Shifted(n: int, size: nat)
    requires size > 0 && n >= 0
    ensures (n + size) / size == 1 + n / size
  {
    var q, r := n / size, n % size;
    assert n == size * q + r;
    assert n + size == size * (q + 1) + r;
    QuotientIs(n + size, size, q + 1, r);
  }

  lemma QuotientIs(x: int, size: nat, q: int, r: int)
    requires size > 0 && x == size * q + r && 0 <= r < size
    ensures x / size == q
  {
    var p := x / size;
    assert x == size * p + x % size;
    assert size * (p - q) == r - x % size;
    NoGap(size, p - q, r - x % size);
  }

  lemma NoGap(size: int, d: int, w: int)
    requires size > 0 && size * d == w && -size < w < size
    ensures d == 0
  {
    Multiples(size, d);
  }

  lemma Multiples(size: int, d: int)
    requires size > 0
    ensures d >= 1 ==> size * d >= size
    ensures d <= -1 ==> size * d <= -size
  {
    if d >= 1 {
      assert size * (d - 1) >= 0;
    } else if d <= -1 {
      assert size * (-d - 1) >= 0;
    }
  }

  /** Every sample is used once and in order: the batches put end to end are the samples. */
  lemma {:induction false} BatchesCover(es: seq<Example>, offset: nat, size: nat)
    requires size > 0 && offset <= |es|
    ensures Batches(es, offset, size) == es[offset..]
    decreases |es| - offset
  {
    if offset < |es| {
      var end := if offset + size < |es| then offset + size else |es|;
      BatchesCover(es, end, size);
      assert es[offset..] == es[offset..end] + es[end..];
    }
  }

  function Batches(es: seq<Example>, offset: nat, size: nat): seq<Example>
    requires size > 0 && offset <= |es|
    decreases |es| - offset
  {
    if offset == |es| then []
    else Batch(es, offset, size) + Batches(es, if offset + size < |es| then offset + size else |es|, size)
  }

  datatype TrainError = ZeroBatchSize

  /** `train_epoch`: the mean of the losses measured before each step. */
  method TrainEpoch(a: Activations, o: Optimizer, policy: MlpResidualPolicy, t: Task, es: seq<Example>, size: nat)
    returns (r: Result<real, TrainError>)
    requires policy.Valid() && FitsBatch(es, t, policy.shape) && policy.shape.output > 0
    modifies policy
    ensures policy.Valid()
    ensures es == [] ==> r == Ok(0.0) && policy.Contents() == old(policy.Contents())
    ensures es != [] && size == 0 ==> r == Err(ZeroBatchSize) && policy.Contents() == old(policy.Contents())
    ensures es != [] && size > 0 ==>
      var p := EpochFrom(a, o, Progress(old(policy.Contents()), 0.0, 0), t, es, 0, size, policy.shape);
      p.batches > 0 && r == Ok(p.loss / p.batches as real) && policy.Contents() == p.net
  {
    hide BatchGradient, BatchLoss, Stepped, Flatten, Unflatten, Fits, BatchCount, EpochFrom, FitsBatch, Batch;
    if es == [] {
      return Ok(0.0);
    }
    if size == 0 {
      return Err(ZeroBatchSize);
    }
    ghost var start := Progress(policy.Contents(), 0.0, 0);
    EpochBatches(a, o, start, t, es, 0, size, policy.shape);
    CountStep(|es|, size);
    var accumulated, batches, offset := 0.0, 0, 0;
    while offset < |es|
      invariant policy.Valid()
      invariant EpochFrom(a, o, Progress(policy.Contents(), accumulated, batches), t, es, offset, size, policy.shape)
             == EpochFrom(a, o, start, t, es, 0, size, policy.shape)
      decreases |es| - offset
    {
      var batch := Batch(es, offset, size);
      EpochStep(a, o, Progress(policy.Contents(), accumulated, batches), t, es, offset, size, policy.shape);
      var stats := SupervisedBatchStats(a, policy.Contents(), t, batch, policy.shape);
      Step(a.lib, o, policy, stats.gradient);
      accumulated := accumulated + stats.loss;
      batches := batches + 1;
      offset := offset + size;
    }
    PositiveCount(|es|, size);
    EpochEnd(a, o, Progress(policy.Contents(), accumulated, batches), t, es, offset, size, policy.shape);
    return Ok(accumulated / batches as real);
  }

  lemma EpochStep(a: Activations, o: Optimizer, p: Progress, t: Task, es: seq<Example>, offset: nat, size: nat, s: Shape)
    requires Fits(p.net, s) && FitsBatch(es, t, s) && s.output > 0 && size > 0 && offset < |es|
    ensures FitsBatch(Batch(es, offset, size), t, s)
    ensures var batch := Batch(es, offset, size);
      var g := Flatten(BatchGradient(a, p.net, t, batch, Used(a), s));
      && |Flatten(p.net)| == |g| == ParameterCount(s)
      && Fits(Unflatten(Stepped(a.lib, o, Flatten(p.net), g), s), s)
      && EpochFrom(a, o, p, t, es, offset, size, s)
         == EpochFrom(a, o, Progress(Unflatten(Stepped(a.lib, o, Flatten(p.net), g), s), p.loss + BatchLoss(a, p.net, t, batch, s), p.batches + 1),
                      t, es, offset + size, size, s)
  {
    hide BatchGradient, BatchLoss, Stepped, Flatten, Unflatten, Fits;
    FlattenLength(p.net, s);
    FlattenLength(BatchGradient(a, p.net, t, Batch(es, offset, size), Used(a), s), s);
  }

  lemma EpochEnd(a: Activations, o: Optimizer, p: Progress, t: Task, es: seq<Example>, offset: nat, size: nat, s: Shape)
    requires Fits(p.net, s) && FitsBatch(es, t, s) && s.output > 0 && size > 0 && offset >= |es|
    ensures EpochFrom(a, o, p, t, es, offset, size, s) == p
  {
  }

  lemma PositiveCount(n: nat, size: nat)
    requires n > 0 && size > 0
    ensures BatchCount(n, size) > 0
  {
    assert (n - 1 + size) / size >= 1 by { Shifted(n - 1, size); }
  }
}
