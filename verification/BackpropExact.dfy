/** Backpropagation is the adjoint of the derivative of the reported loss. */
module BackpropExact {
  import opened LinearAlgebra
  import opened Calculus
  import opened Elementary
  import opened TaskExpr
  import opened Derivative
  import opened Network
  import opened Backprop

  ghost predicate StandardActivations(a: Activations) {
    && Standard(a.lib)
    && forall x :: Smooth(SoftLog(a), x, SoftLog(a)(x), Sigmoid(a.lib, x),
                          Times(Sigmoid(a.lib, x), 1.0 - Sigmoid(a.lib, x)))
  }

  // ----- moving along a direction in parameter space

  function Along(n: Net, m: Net, ghost s: Shape, t: real): (r: Net)
    requires Fits(n, s) && Fits(m, s)
    ensures Fits(r, s)
  {
    ScaledFits(m, s, t);
    NetPlus(n, NetScale(t, m), s)
  }

  lemma {:induction false} CombineAlong(w: seq<Vec>, v: seq<Vec>, t: real, x: Vec, n: nat)
    requires |w| == |v| == |x| && IsMatrix(w, n) && IsMatrix(v, n)
    ensures Combine(MatPlus(w, MatScale(t, v)), x, n) == Plus(Combine(w, x, n), Scale(t, Combine(v, x, n)))
  {
    if w == [] {
      forall i | 0 <= i < n
        ensures Zero(n)[i] == Plus(Zero(n), Scale(t, Zero(n)))[i]
      {
      }
    } else {
      var m := MatPlus(w, MatScale(t, v));
      assert m[1..] == MatPlus(w[1..], MatScale(t, v[1..]));
      CombineAlong(w[1..], v[1..], t, x[1..], n);
      ColumnAlong(w[0], v[0], t, x[0], Combine(w[1..], x[1..], n), Combine(v[1..], x[1..], n));
    }
  }

  lemma ColumnAlong(w: Vec, v: Vec, t: real, x: real, p: Vec, q: Vec)
    requires |w| == |v| == |p| == |q|
    ensures Plus(Scale(x, Plus(w, Scale(t, v))), Plus(p, Scale(t, q)))
         == Plus(Plus(Scale(x, w), p), Scale(t, Plus(Scale(x, v), q)))
  {
    forall i | 0 <= i < |w|
      ensures Plus(Scale(x, Plus(w, Scale(t, v))), Plus(p, Scale(t, q)))[i]
           == Plus(Plus(Scale(x, w), p), Scale(t, Plus(Scale(x, v), q)))[i]
    {
      ColumnEntry(w[i], v[i], t, x, p[i], q[i]);
    }
  }

  lemma ColumnEntry(w: real, v: real, t: real, x: real, p: real, q: real)
    ensures x * (w + t * v) + (p + t * q) == (x * w + p) + t * (x * v + q)
  {
    assert x * (w + t * v) == x * w + t * (x * v);
    assert t * (x * v + q) == t * (x * v) + t * q;
  }

  // ----- forward differentiation

  /** The derivative of the preactivation. */
  function DPreactivation(m: Net, x: Vec, ghost s: Shape): (d: Vec)
    requires Fits(m, s) && |x| == s.input
    ensures |d| == s.hidden
  {
    Preactivation(m, x, s)
  }

  function DHidden(h: Vec, dz: Vec): (d: Vec)
    requires |h| == |dz|
    ensures |d| == |h|
  {
    HiddenGradient(dz, h)
  }

  /** The derivative of the raw output. */
  function DRaw(n: Net, m: Net, h: Vec, dh: Vec, ghost s: Shape): (d: Vec)
    requires Fits(n, s) && Fits(m, s) && |h| == |dh| == s.hidden
    ensures |d| == s.output
  {
    Plus(Plus(Combine(n.w2, dh, |n.b2|), Combine(m.w2, h, |n.b2|)), m.b2)
  }

  function ZEntry(n: Net, m: Net, x: Vec, ghost s: Shape, i: nat): real -> real
    requires Fits(n, s) && Fits(m, s) && |x| == s.input && i < s.hidden
  {
    t => Preactivation(Along(n, m, s, t), x, s)[i]
  }

  lemma ZRate(n: Net, m: Net, x: Vec, s: Shape, i: nat)
    requires Fits(n, s) && Fits(m, s) && |x| == s.input && i < s.hidden
    ensures Rate(ZEntry(n, m, x, s, i), 0.0, Preactivation(n, x, s)[i], DPreactivation(m, x, s)[i])
  {
    hide Rate;
    forall t
      ensures ZEntry(n, m, x, s, i)(t) == Line(Preactivation(n, x, s)[i], DPreactivation(m, x, s)[i], t)
    {
      ZAlong(n, m, x, s, i, t);
    }
    RateLine(ZEntry(n, m, x, s, i), Preactivation(n, x, s)[i], DPreactivation(m, x, s)[i]);
  }

  lemma ZAlong(n: Net, m: Net, x: Vec, s: Shape, i: nat, t: real)
    requires Fits(n, s) && Fits(m, s) && |x| == s.input && i < s.hidden
    ensures Preactivation(Along(n, m, s, t), x, s)[i] == Line(Preactivation(n, x, s)[i], DPreactivation(m, x, s)[i], t)
  {
    hide Combine;
    CombineAlong(n.w1, m.w1, t, x, s.hidden);
    var p, q, b, c := Combine(n.w1, x, s.hidden)[i], Combine(m.w1, x, s.hidden)[i], n.b1[i], m.b1[i];
    assert Preactivation(Along(n, m, s, t), x, s)[i] == (p + t * q) + (b + t * c);
    LineParts(p, q, b, c, t);
  }

  lemma LineParts(p: real, q: real, b: real, c: real, t: real)
    ensures (p + t * q) + (b + t * c) == Line(p + b, q + c, t)
  {
  }

  function HEntry(a: Activations, n: Net, m: Net, x: Vec, ghost s: Shape, i: nat): real -> real
    requires Fits(n, s) && Fits(m, s) && |x| == s.input && i < s.hidden
  {
    t => Hidden(a, Along(n, m, s, t), x, s)[i]
  }

  lemma HRate(a: Activations, n: Net, m: Net, x: Vec, s: Shape, i: nat)
    requires StandardActivations(a) && Fits(n, s) && Fits(m, s) && |x| == s.input && i < s.hidden
    ensures Rate(HEntry(a, n, m, x, s, i), 0.0, Hidden(a, n, x, s)[i],
                 DHidden(Hidden(a, n, x, s), DPreactivation(m, x, s))[i])
  {
    hide Rate, StandardActivations, Fits, Preactivation, Along, Sqr, Times;
    var z, dz, h := Preactivation(n, x, s)[i], DPreactivation(m, x, s)[i], Hidden(a, n, x, s)[i];
    TanhRate(a, z);
    ZRate(n, m, x, s, i);
    HiddenAt(a, n, m, x, s, i);
    RateChain(ZEntry(n, m, x, s, i), a.lib.tanh, HEntry(a, n, m, x, s, i), 0.0, z, dz, h, 1.0 - Sqr(h));
    TimesOf(1.0 - Sqr(h), dz);
  }

  lemma HiddenAt(a: Activations, n: Net, m: Net, x: Vec, s: Shape, i: nat)
    requires Fits(n, s) && Fits(m, s) && |x| == s.input && i < s.hidden
    ensures forall t :: HEntry(a, n, m, x, s, i)(t) == a.lib.tanh(ZEntry(n, m, x, s, i)(t))
    ensures Hidden(a, n, x, s)[i] == a.lib.tanh(Preactivation(n, x, s)[i])
  {
    hide Fits, Preactivation, Along;
    forall t
      ensures HEntry(a, n, m, x, s, i)(t) == a.lib.tanh(ZEntry(n, m, x, s, i)(t))
    {
      assert HEntry(a, n, m, x, s, i)(t) == Hidden(a, Along(n, m, s, t), x, s)[i];
      assert ZEntry(n, m, x, s, i)(t) == Preactivation(Along(n, m, s, t), x, s)[i];
    }
  }

  lemma TanhRate(a: Activations, z: real)
    requires StandardActivations(a)
    ensures Rate(a.lib.tanh, z, a.lib.tanh(z), 1.0 - Sqr(a.lib.tanh(z)))
  {
    hide Rate, Standard, Smooth, Slope, Bend;
    FnSmooth(TanhFn, a.lib, z);
    RateOf(a.lib.tanh, z, a.lib.tanh(z), Slope(TanhFn, a.lib, z), Bend(TanhFn, a.lib, z));
    TanhSlope(a.lib, z);
  }

  lemma TanhSlope(lib: Library, z: real)
    ensures Slope(TanhFn, lib, z) == 1.0 - Sqr(lib.tanh(z))
  {
  }

  // ----- raw outputs: a sum of products of moving weights and moving hidden values

  /** Entry `o` of the output, summed over the first `k` hidden units. */
  function UpTo(w: seq<Vec>, h: Vec, o: nat, k: nat, ghost n: nat): real
    requires |w| == |h| && k <= |w| && IsMatrix(w, n) && o < n
  {
    if k == 0 then 0.0 else UpTo(w, h, o, k - 1, n) + Times(w[k - 1][o], h[k - 1])
  }

  lemma {:induction false} UpToIs(w: seq<Vec>, h: Vec, o: nat, k: nat, n: nat)
    requires |w| == |h| && k <= |w| && IsMatrix(w, n) && o < n
    ensures UpTo(w, h, o, k, n) == Combine(w[..k], h[..k], n)[o]
    decreases k
  {
    hide Times, Combine;
    if k == 0 {
      assert w[..0] == [] && h[..0] == [];
      NoCombine(n, o);
    } else {
      UpToIs(w, h, o, k - 1, n);
      CombineLast(w[..k], h[..k], n, o);
      assert w[..k][..k - 1] == w[..k - 1] && h[..k][..k - 1] == h[..k - 1];
      TimesOf(w[k - 1][o], h[k - 1]);
    }
  }

  lemma NoCombine(n: nat, o: nat)
    requires o < n
    ensures Combine([], [], n)[o] == 0.0
  {
  }

  function SumEntry(a: Activations, n: Net, m: Net, x: Vec, ghost s: Shape, o: nat, k: nat): real -> real
    requires Fits(n, s) && Fits(m, s) && |x| == s.input && o < s.output && k <= s.hidden
  {
    t => UpTo(Along(n, m, s, t).w2, Hidden(a, Along(n, m, s, t), x, s), o, k, s.output)
  }

  function WeightEntry(w: real, v: real): real -> real { t => Line(w, v, t) }

  function TermEntry(a: Activations, n: Net, m: Net, x: Vec, ghost s: Shape, o: nat, j: nat): real -> real
    requires Fits(n, s) && Fits(m, s) && |x| == s.input && o < s.output && j < s.hidden
  {
    t => Times(Line(n.w2[j][o], m.w2[j][o], t), Hidden(a, Along(n, m, s, t), x, s)[j])
  }

  lemma TermRate(a: Activations, n: Net, m: Net, x: Vec, s: Shape, o: nat, j: nat, h: Vec, dh: Vec)
    requires StandardActivations(a) && Fits(n, s) && Fits(m, s) && |x| == s.input && o < s.output && j < s.hidden
    requires h == Hidden(a, n, x, s) && dh == DHidden(h, DPreactivation(m, x, s))
    ensures Rate(TermEntry(a, n, m, x, s, o, j), 0.0, Times(n.w2[j][o], h[j]),
                 Times(n.w2[j][o], dh[j]) + Times(m.w2[j][o], h[j]))
  {
    hide Rate, StandardActivations, Hidden, Times, Line, DHidden, DPreactivation, Along;
    HRate(a, n, m, x, s, j);
    var w := WeightEntry(n.w2[j][o], m.w2[j][o]);
    RateLine(w, n.w2[j][o], m.w2[j][o]);
    RateProduct(w, HEntry(a, n, m, x, s, j), TermEntry(a, n, m, x, s, o, j), 0.0, n.w2[j][o], m.w2[j][o], h[j], dh[j]);
  }

  lemma {:induction false} SumRate(a: Activations, n: Net, m: Net, x: Vec, s: Shape, o: nat, k: nat, h: Vec, dh: Vec)
    requires StandardActivations(a) && Fits(n, s) && Fits(m, s) && |x| == s.input && o < s.output && k <= s.hidden
    requires h == Hidden(a, n, x, s) && dh == DHidden(h, DPreactivation(m, x, s))
    ensures Rate(SumEntry(a, n, m, x, s, o, k), 0.0, UpTo(n.w2, h, o, k, s.output),
                 UpTo(n.w2, dh, o, k, s.output) + UpTo(m.w2, h, o, k, s.output))
    decreases k
  {
    hide Rate, StandardActivations, Hidden, Times, Line, DHidden, DPreactivation, UpTo, Along, SumEntry, TermEntry;
    FitsParts(n, s);
    FitsParts(m, s);
    hide Fits;
    var f := SumEntry(a, n, m, x, s, o, k);
    if k == 0 {
      SumStart(a, n, m, x, s, o, h, dh);
      RateConstant(f, 0.0, 0.0);
    } else {
      SumRate(a, n, m, x, s, o, k - 1, h, dh);
      TermRate(a, n, m, x, s, o, k - 1, h, dh);
      forall t
        ensures f(t) == SumEntry(a, n, m, x, s, o, k - 1)(t) + TermEntry(a, n, m, x, s, o, k - 1)(t)
      {
        WeightAlong(n, m, s, t, k - 1, o);
        SumStep(a, n, m, x, s, o, k, t);
      }
      UpToStep(n.w2, h, o, k, s.output);
      UpToStep(n.w2, dh, o, k, s.output);
      UpToStep(m.w2, h, o, k, s.output);
      RateSum(SumEntry(a, n, m, x, s, o, k - 1), TermEntry(a, n, m, x, s, o, k - 1), f, 0.0,
              UpTo(n.w2, h, o, k - 1, s.output), UpTo(n.w2, dh, o, k - 1, s.output) + UpTo(m.w2, h, o, k - 1, s.output),
              Times(n.w2[k - 1][o], h[k - 1]), Times(n.w2[k - 1][o], dh[k - 1]) + Times(m.w2[k - 1][o], h[k - 1]));
    }
  }

  lemma UpToStep(w: seq<Vec>, h: Vec, o: nat, k: nat, n: nat)
    requires |w| == |h| && 0 < k <= |w| && IsMatrix(w, n) && o < n
    ensures UpTo(w, h, o, k, n) == UpTo(w, h, o, k - 1, n) + Times(w[k - 1][o], h[k - 1])
  {
  }

  lemma SumStart(a: Activations, n: Net, m: Net, x: Vec, s: Shape, o: nat, h: Vec, dh: Vec)
    requires Fits(n, s) && Fits(m, s) && |x| == s.input && o < s.output && |h| == |dh| == s.hidden
    ensures forall t :: SumEntry(a, n, m, x, s, o, 0)(t) == 0.0
    ensures UpTo(n.w2, h, o, 0, s.output) == UpTo(n.w2, dh, o, 0, s.output) == UpTo(m.w2, h, o, 0, s.output) == 0.0
  {
    hide Along, Hidden;
  }

  lemma SumStep(a: Activations, n: Net, m: Net, x: Vec, s: Shape, o: nat, k: nat, t: real)
    requires Fits(n, s) && Fits(m, s) && |x| == s.input && o < s.output && 0 < k <= s.hidden
    requires Along(n, m, s, t).w2[k - 1][o] == Line(n.w2[k - 1][o], m.w2[k - 1][o], t)
    ensures SumEntry(a, n, m, x, s, o, k)(t) == SumEntry(a, n, m, x, s, o, k - 1)(t) + TermEntry(a, n, m, x, s, o, k - 1)(t)
  {
    hide Along, Hidden, Times, Line;
  }

  lemma WeightAlong(n: Net, m: Net, s: Shape, t: real, j: nat, o: nat)
    requires Fits(n, s) && Fits(m, s) && j < s.hidden && o < s.output
    ensures Along(n, m, s, t).w2[j][o] == Line(n.w2[j][o], m.w2[j][o], t)
    ensures Along(n, m, s, t).b2[o] == Line(n.b2[o], m.b2[o], t)
  {
  }

  function REntry(a: Activations, n: Net, m: Net, x: Vec, ghost s: Shape, o: nat): real -> real
    requires Fits(n, s) && Fits(m, s) && |x| == s.input && o < s.output
  {
    t => Raw(a, Along(n, m, s, t), x, s)[o]
  }

  lemma BiasAlong(n: Net, m: Net, s: Shape, t: real, o: nat)
    requires Fits(n, s) && Fits(m, s) && o < s.output
    ensures Along(n, m, s, t).b2[o] == Line(n.b2[o], m.b2[o], t)
  {
  }

  lemma RawAt(a: Activations, n: Net, x: Vec, s: Shape, o: nat)
    requires Fits(n, s) && |x| == s.input && o < s.output
    ensures Raw(a, n, x, s)[o] == UpTo(n.w2, Hidden(a, n, x, s), o, s.hidden, s.output) + n.b2[o]
  {
    hide Combine, UpTo, Hidden;
    var h := Hidden(a, n, x, s);
    UpToIs(n.w2, h, o, s.hidden, s.output);
    assert n.w2[..s.hidden] == n.w2 && h[..s.hidden] == h;
  }

  lemma RRate(a: Activations, n: Net, m: Net, x: Vec, s: Shape, o: nat, h: Vec, dh: Vec)
    requires StandardActivations(a) && Fits(n, s) && Fits(m, s) && |x| == s.input && o < s.output
    requires h == Hidden(a, n, x, s) && dh == DHidden(h, DPreactivation(m, x, s))
    ensures Rate(REntry(a, n, m, x, s, o), 0.0, Raw(a, n, x, s)[o], DRaw(n, m, h, dh, s)[o])
  {
    hide Rate, StandardActivations, Hidden, Line, DHidden, DPreactivation, UpTo, Combine, Raw, Along;
    SumRate(a, n, m, x, s, o, s.hidden, h, dh);
    var bias := WeightEntry(n.b2[o], m.b2[o]);
    RateLine(bias, n.b2[o], m.b2[o]);
    forall t
      ensures REntry(a, n, m, x, s, o)(t) == SumEntry(a, n, m, x, s, o, s.hidden)(t) + bias(t)
    {
      RawAt(a, Along(n, m, s, t), x, s, o);
      BiasAlong(n, m, s, t, o);
    }
    RawAt(a, n, x, s, o);
    var p, q := UpTo(n.w2, dh, o, s.hidden, s.output), UpTo(m.w2, h, o, s.hidden, s.output);
    RateSum(SumEntry(a, n, m, x, s, o, s.hidden), bias, REntry(a, n, m, x, s, o), 0.0,
            UpTo(n.w2, h, o, s.hidden, s.output), p + q, n.b2[o], m.b2[o]);
    DRawAt(n, m, h, dh, s, o);
  }

  lemma DRawAt(n: Net, m: Net, h: Vec, dh: Vec, s: Shape, o: nat)
    requires Fits(n, s) && Fits(m, s) && |h| == |dh| == s.hidden && o < s.output
    ensures DRaw(n, m, h, dh, s)[o]
         == UpTo(n.w2, dh, o, s.hidden, s.output) + UpTo(m.w2, h, o, s.hidden, s.output) + m.b2[o]
  {
    hide Combine, UpTo;
    UpToIs(n.w2, dh, o, s.hidden, s.output);
    UpToIs(m.w2, h, o, s.hidden, s.output);
    assert n.w2[..s.hidden] == n.w2 && m.w2[..s.hidden] == m.w2 && h[..s.hidden] == h && dh[..s.hidden] == dh;
  }

  // ----- the loss of one slot

  lemma SoftLogRate(a: Activations, r: real)
    requires StandardActivations(a)
    ensures Rate(SoftLog(a), r, SoftLog(a)(r), Sigmoid(a.lib, r))
  {
    hide Standard, Smooth, Sigmoid, Times, SoftLog;
    RateOf(SoftLog(a), r, SoftLog(a)(r), Sigmoid(a.lib, r), Times(Sigmoid(a.lib, r), 1.0 - Sigmoid(a.lib, r)));
  }

  /** The shortcut branch has slope 1; below it the slope is the sigmoid. */
  lemma SoftplusRate(a: Activations, r: real)
    requires StandardActivations(a) && r != SHORTCUT
    ensures Rate(Softplus(a), r, Softplus(a)(r), TrueSlope(a, true, r))
  {
    hide Rate, StandardActivations, Sigmoid;
    if r < SHORTCUT {
      SoftLogRate(a, r);
      hide SoftLog;
      RateLocal(SoftLog(a), Softplus(a), r, SoftLog(a)(r), Sigmoid(a.lib, r), (SHORTCUT - r) / 2.0);
    } else {
      hide SoftLog;
      var id := x => Line(0.0, 1.0, x);
      IdentityRate(id, r);
      RateLocal(id, Softplus(a), r, r, 1.0, (r - SHORTCUT) / 2.0);
    }
  }

  lemma IdentityRate(f: real -> real, r: real)
    requires forall x :: f(x) == Line(0.0, 1.0, x)
    ensures Rate(f, r, r, 1.0)
  {
    hide Smooth;
    forall y
      ensures f(y) == Quadratic(r, 1.0, 0.0, y - r)
    {
      assert 0.0 * ((y - r) * (y - r)) == 0.0;
    }
    SmoothExact(f, r, r, 1.0, 0.0);
  }

  function SlotLoss(a: Activations, t: Task, diagonal: bool, target: real): real -> real {
    r => Sqr(SlotError(a, t, diagonal, r, target))
  }

  function ErrorOf(a: Activations, t: Task, diagonal: bool, target: real): real -> real {
    r => SlotError(a, t, diagonal, r, target)
  }

  lemma ErrorRate(a: Activations, t: Task, diagonal: bool, target: real, r: real)
    requires StandardActivations(a) && (diagonal ==> r != SHORTCUT)
    ensures Rate(ErrorOf(a, t, diagonal, target), r, SlotError(a, t, diagonal, r, target), TrueSlope(a, diagonal, r))
  {
    hide Rate, StandardActivations, Softplus, TrueSlope;
    var f := ErrorOf(a, t, diagonal, target);
    if diagonal {
      SoftplusRate(a, r);
      RateScaled(Softplus(a), f, 1.0, t.minDiag - target, r, Softplus(a)(r), TrueSlope(a, true, r));
      TimesOf(1.0, TrueSlope(a, true, r));
    } else {
      var id := x => Line(0.0, 1.0, x);
      IdentityRate(id, r);
      RateScaled(id, f, 1.0, -target, r, r, 1.0);
      TimesOf(1.0, 1.0);
      assert TrueSlope(a, false, r) == 1.0 by { NoShortcut(a, r); }
    }
  }

  lemma NoShortcut(a: Activations, r: real)
    ensures TrueSlope(a, false, r) == 1.0
  {
  }

  /** Twice the error times the slope. */
  lemma SlotLossRate(a: Activations, t: Task, diagonal: bool, target: real, r: real)
    requires StandardActivations(a) && (diagonal ==> r != SHORTCUT)
    ensures Rate(SlotLoss(a, t, diagonal, target), r, Sqr(SlotError(a, t, diagonal, r, target)),
                 2.0 * Times(SlotError(a, t, diagonal, r, target), TrueSlope(a, diagonal, r)))
  {
    hide Rate, StandardActivations, SlotError, TrueSlope, Times;
    var f, e, d := ErrorOf(a, t, diagonal, target), SlotError(a, t, diagonal, r, target), TrueSlope(a, diagonal, r);
    ErrorRate(a, t, diagonal, target, r);
    RateProduct(f, f, SlotLoss(a, t, diagonal, target), r, e, d, e, d);
    TimesOf(d, e);
  }

  // ----- the loss of one example

  function LossesEntry(a: Activations, n: Net, m: Net, t: Task, e: Example, ghost s: Shape, k: nat): real -> real
    requires Fits(n, s) && Fits(m, s) && FitsExample(e, t, s) && k <= s.output
  {
    u => SlotLosses(a, t, Raw(a, Along(n, m, s, u), e.input, s), e.target, k)
  }

  function SlotEntry(a: Activations, n: Net, m: Net, t: Task, e: Example, ghost s: Shape, i: nat): real -> real
    requires Fits(n, s) && Fits(m, s) && FitsExample(e, t, s) && i < s.output
  {
    u => SlotLoss(a, t, t.diagonal[i], e.target[i])(Raw(a, Along(n, m, s, u), e.input, s)[i])
  }

  /** No diagonal output sits exactly on the jump of the shortcut. */
  ghost predicate OffTheJump(t: Task, raw: Vec)
    requires |raw| == |t.diagonal|
  {
    forall i | 0 <= i < |raw| && t.diagonal[i] :: raw[i] != SHORTCUT
  }

  lemma SlotEntryRate(a: Activations, n: Net, m: Net, t: Task, e: Example, s: Shape, i: nat, raw: Vec, dr: Vec)
    requires StandardActivations(a) && Fits(n, s) && Fits(m, s) && FitsExample(e, t, s) && i < s.output
    requires raw == Raw(a, n, e.input, s) && OffTheJump(t, raw)
    requires dr == DRaw(n, m, Hidden(a, n, e.input, s), DHidden(Hidden(a, n, e.input, s), DPreactivation(m, e.input, s)), s)
    ensures |SlotGradients(a, t, raw, e.target, True(a))| == |dr|
    ensures Rate(SlotEntry(a, n, m, t, e, s, i), 0.0, Sqr(SlotError(a, t, t.diagonal[i], raw[i], e.target[i])),
                 Times(2.0 * SlotGradients(a, t, raw, e.target, True(a))[i], dr[i]))
  {
    hide Rate, StandardActivations, Hidden, DHidden, DPreactivation, DRaw, Raw, Along, Fits, SlotLoss, SlotError, TrueSlope, Times, Sqr;
    RRate(a, n, m, e.input, s, i, Hidden(a, n, e.input, s), DHidden(Hidden(a, n, e.input, s), DPreactivation(m, e.input, s)));
    SlotLossRate(a, t, t.diagonal[i], e.target[i], raw[i]);
    RateChain(REntry(a, n, m, e.input, s, i), SlotLoss(a, t, t.diagonal[i], e.target[i]), SlotEntry(a, n, m, t, e, s, i), 0.0,
              raw[i], dr[i], Sqr(SlotError(a, t, t.diagonal[i], raw[i], e.target[i])),
              2.0 * Times(SlotError(a, t, t.diagonal[i], raw[i], e.target[i]), TrueSlope(a, t.diagonal[i], raw[i])));
  }

  lemma DotLast(a: Vec, b: Vec, k: nat)
    requires |a| == |b| && k < |a|
    ensures Dot(a[..k + 1], b[..k + 1]) == Dot(a[..k], b[..k]) + Times(a[k], b[k])
  {
    hide Dot, Times;
    assert a[..k + 1] == a[..k] + [a[k]] && b[..k + 1] == b[..k] + [b[k]];
    DotConcat(a[..k], [a[k]], b[..k], [b[k]]);
    DotHead([a[k]], [b[k]]);
    DotZero([]);
    assert [a[k]][1..] == [] && [b[k]][1..] == [] && Zero(0) == [];
  }

  lemma TwiceTimes(x: real, y: real)
    ensures Times(2.0 * x, y) == 2.0 * Times(x, y)
  {
  }

  lemma {:induction false} LossesRate(a: Activations, n: Net, m: Net, t: Task, e: Example, s: Shape, k: nat, raw: Vec, dr: Vec)
    requires StandardActivations(a) && Fits(n, s) && Fits(m, s) && FitsExample(e, t, s) && k <= s.output
    requires raw == Raw(a, n, e.input, s) && OffTheJump(t, raw)
    requires dr == DRaw(n, m, Hidden(a, n, e.input, s), DHidden(Hidden(a, n, e.input, s), DPreactivation(m, e.input, s)), s)
    ensures Rate(LossesEntry(a, n, m, t, e, s, k), 0.0, SlotLosses(a, t, raw, e.target, k),
                 2.0 * Dot(SlotGradients(a, t, raw, e.target, True(a))[..k], dr[..k]))
    decreases k
  {
    hide Rate, StandardActivations, Hidden, DHidden, DPreactivation, DRaw, Raw, Along, Fits, SlotLoss, SlotError, TrueSlope, Times, Sqr,
      SlotGradients, Dot, OffTheJump;
    var g := SlotGradients(a, t, raw, e.target, True(a));
    var f := LossesEntry(a, n, m, t, e, s, k);
    if k == 0 {
      DotZero([]);
      assert g[..0] == [] && dr[..0] == [] && Zero(0) == [];
      RateConstant(f, 0.0, 0.0);
    } else {
      LossesRate(a, n, m, t, e, s, k - 1, raw, dr);
      SlotEntryRate(a, n, m, t, e, s, k - 1, raw, dr);
      LossesStep(a, n, m, t, e, s, k);
      DotLast(g, dr, k - 1);
      TwiceTimes(g[k - 1], dr[k - 1]);
      RateSum(LossesEntry(a, n, m, t, e, s, k - 1), SlotEntry(a, n, m, t, e, s, k - 1), f, 0.0,
              SlotLosses(a, t, raw, e.target, k - 1), 2.0 * Dot(g[..k - 1], dr[..k - 1]),
              Sqr(SlotError(a, t, t.diagonal[k - 1], raw[k - 1], e.target[k - 1])), Times(2.0 * g[k - 1], dr[k - 1]));
    }
  }

  lemma LossesStep(a: Activations, n: Net, m: Net, t: Task, e: Example, s: Shape, k: nat)
    requires Fits(n, s) && Fits(m, s) && FitsExample(e, t, s) && 0 < k <= s.output
    ensures forall u :: LossesEntry(a, n, m, t, e, s, k)(u)
                     == LossesEntry(a, n, m, t, e, s, k - 1)(u) + SlotEntry(a, n, m, t, e, s, k - 1)(u)
  {
    hide Raw, Along, Fits, SlotError, Sqr;
    forall u
      ensures LossesEntry(a, n, m, t, e, s, k)(u)
           == LossesEntry(a, n, m, t, e, s, k - 1)(u) + SlotEntry(a, n, m, t, e, s, k - 1)(u)
    {
      var raw := Raw(a, Along(n, m, s, u), e.input, s);
      assert LossesEntry(a, n, m, t, e, s, k)(u) == SlotLosses(a, t, raw, e.target, k);
      assert LossesEntry(a, n, m, t, e, s, k - 1)(u) == SlotLosses(a, t, raw, e.target, k - 1);
      assert SlotEntry(a, n, m, t, e, s, k - 1)(u) == SlotLoss(a, t, t.diagonal[k - 1], e.target[k - 1])(raw[k - 1]);
    }
  }

  // ----- the adjoint

  /** Pairing `g x^T` with a direction is pairing `g` with what the direction does to `x`. */
  lemma {:induction false} OuterPairing(g: Vec, x: Vec, v: seq<Vec>)
    requires |v| == |x| && IsMatrix(v, |g|)
    ensures ColumnsDot(OuterColumns(g, x), v) == Dot(g, Combine(v, x, |g|))
  {
    hide Dot, Scale;
    if x == [] {
      DotZero(g);
      assert OuterColumns(g, x) == [];
      assert Combine(v, x, |g|) == Zero(|g|);
    } else {
      assert OuterColumns(g, x)[1..] == OuterColumns(g, x[1..]);
      OuterPairing(g, x[1..], v[1..]);
      ScaleDot(x[0], g, v[0]);
      DotScale(x[0], g, v[0]);
      DotPlus(g, Scale(x[0], v[0]), Combine(v[1..], x[1..], |g|));
    }
  }

  /** Pairing with the hidden gradient moves the `tanh` factor to the other side. */
  lemma {:induction false} HiddenPairing(gh: Vec, h: Vec, dz: Vec)
    requires |gh| == |h| == |dz|
    ensures Dot(HiddenGradient(gh, h), dz) == Dot(gh, DHidden(h, dz))
  {
    hide Dot, Sqr, Times;
    if h == [] {
      assert HiddenGradient(gh, h) == gh && DHidden(h, dz) == dz;
    } else {
      assert HiddenGradient(gh, h)[1..] == HiddenGradient(gh[1..], h[1..]);
      assert DHidden(h, dz)[1..] == DHidden(h[1..], dz[1..]);
      HiddenPairing(gh[1..], h[1..], dz[1..]);
      DotHead(HiddenGradient(gh, h), dz);
      DotHead(gh, DHidden(h, dz));
      MoveFactor(gh[0], 1.0 - Sqr(h[0]), dz[0]);
    }
  }

  lemma MoveFactor(x: real, y: real, z: real)
    ensures Times(Times(x, y), z) == Times(x, Times(z, y))
  {
    assert x * y * z == x * (z * y);
  }

  /** Backpropagation is the transpose of forward differentiation: for every network, input, output gradient
      and direction the two inner products agree. */
  lemma PullBackAdjoint(n: Net, m: Net, x: Vec, h: Vec, g: Vec, s: Shape)
    requires Fits(n, s) && Fits(m, s) && |x| == s.input && |h| == s.hidden && |g| == s.output
    ensures NetDot(PullBack(n, x, h, g, s), m, s) == Dot(g, DRaw(n, m, h, DHidden(h, DPreactivation(m, x, s)), s))
  {
    hide Dot, Combine, HiddenGradient, DHidden, ColumnsDot, OuterColumns;
    var gh := Dots(n.w2, g);
    var gz, dz := HiddenGradient(gh, h), DPreactivation(m, x, s);
    var dh := DHidden(h, dz);
    OuterPairing(gz, x, m.w1);
    OuterPairing(g, h, m.w2);
    DotPlus(gz, Combine(m.w1, x, s.hidden), m.b1);
    HiddenPairing(gh, h, dz);
    Adjoint(n.w2, dh, g);
    DotSymmetric(Combine(n.w2, dh, s.output), g);
    DotSymmetric(dh, gh);
    DotPlus(g, Combine(n.w2, dh, s.output), Combine(m.w2, h, s.output));
    DotPlus(g, Plus(Combine(n.w2, dh, s.output), Combine(m.w2, h, s.output)), m.b2);
  }

  // ----- one example

  function ExampleEntry(a: Activations, n: Net, m: Net, t: Task, e: Example, ghost s: Shape): real -> real
    requires Fits(n, s) && Fits(m, s) && FitsExample(e, t, s)
  {
    u => ExampleLoss(a, Along(n, m, s, u), t, e, s)
  }

  /** The derivative of an example's summed squared error along any direction is `output_dim` times the inner
      product with its backpropagated gradient. */
  lemma ExampleRate(a: Activations, n: Net, m: Net, t: Task, e: Example, s: Shape)
    requires StandardActivations(a) && Fits(n, s) && Fits(m, s) && FitsExample(e, t, s) && s.output > 0
    requires OffTheJump(t, Raw(a, n, e.input, s))
    ensures Rate(ExampleEntry(a, n, m, t, e, s), 0.0, ExampleLoss(a, n, t, e, s),
                 Times(s.output as real, NetDot(ExampleGradient(a, n, t, e, True(a), s), m, s)))
  {
    hide Rate, StandardActivations, Hidden, DHidden, DPreactivation, DRaw, Along, Fits, SlotGradients, Dot, OffTheJump, SlotLosses,
      PullBack, NetDot, Times;
    var h := Hidden(a, n, e.input, s);
    var raw := Raw(a, n, e.input, s);
    var dr := DRaw(n, m, h, DHidden(h, DPreactivation(m, e.input, s)), s);
    var g := SlotGradients(a, t, raw, e.target, True(a));
    LossesRate(a, n, m, t, e, s, s.output, raw, dr);
    assert g[..s.output] == g && dr[..s.output] == dr;
    PullBackAdjoint(n, m, e.input, h, OutputGradient(a, t, raw, e.target, True(a)), s);
    ScaleDot(2.0 / s.output as real, g, dr);
    ScaleBack(s.output as real, Dot(g, dr), Dot(OutputGradient(a, t, raw, e.target, True(a)), dr));
    RateSame(LossesEntry(a, n, m, t, e, s, s.output), ExampleEntry(a, n, m, t, e, s), 0.0, ExampleLoss(a, n, t, e, s), 2.0 * Dot(g, dr));
  }

  lemma ScaleBack(o: real, x: real, y: real)
    requires o > 0.0 && y == (2.0 / o) * x
    ensures Times(o, y) == 2.0 * x
  {
    assert o * (2.0 / o) == 2.0;
    assert o * y == (o * (2.0 / o)) * x;
  }

  // ----- the batch

  lemma NetDotPlus(x: Net, y: Net, m: Net, s: Shape)
    requires Fits(x, s) && Fits(y, s) && Fits(m, s)
    ensures NetDot(NetPlus(x, y, s), m, s) == NetDot(x, m, s) + NetDot(y, m, s)
  {
    hide Flatten, NetDot, NetPlus, Dot, Fits;
    FlattenDot(x, m, s);
    FlattenDot(y, m, s);
    FlattenDot(NetPlus(x, y, s), m, s);
    FlattenPlus(x, y, s);
    DotSymmetric(Plus(Flatten(x), Flatten(y)), Flatten(m));
    DotPlus(Flatten(m), Flatten(x), Flatten(y));
    DotSymmetric(Flatten(m), Flatten(x));
    DotSymmetric(Flatten(m), Flatten(y));
  }

  lemma NetDotScale(k: real, x: Net, m: Net, s: Shape)
    requires Fits(x, s) && Fits(m, s)
    ensures Fits(NetScale(k, x), s) && NetDot(NetScale(k, x), m, s) == Times(k, NetDot(x, m, s))
  {
    hide Flatten, NetDot, NetScale, Dot, Fits, Scale, Times;
    ScaledFits(x, s, k);
    FlattenDot(x, m, s);
    FlattenDot(NetScale(k, x), m, s);
    FlattenScale(k, x);
    ScaledDot(k, Flatten(x), Flatten(m));
  }

  lemma ScaledDot(k: real, x: Vec, y: Vec)
    requires |x| == |y|
    ensures Dot(Scale(k, x), y) == Times(k, Dot(x, y))
  {
    hide Dot, Scale;
    ScaleDot(k, x, y);
  }

  lemma NetDotZero(m: Net, s: Shape)
    requires Fits(m, s)
    ensures NetDot(NetZero(s), m, s) == 0.0
  {
    hide NetDot, Fits, NetZero;
    NetDotScale(0.0, NetZero(s), m, s);
    ZeroNet(s);
    ZeroTimes(NetDot(NetZero(s), m, s));
  }

  lemma ZeroTimes(x: real)
    ensures Times(0.0, x) == 0.0
  {
  }

  lemma ZeroNet(s: Shape)
    ensures NetScale(0.0, NetZero(s)) == NetZero(s)
  {
    ZeroScaled(s.hidden);
    ZeroScaled(s.output);
    hide Scale;
    assert MatScale(0.0, ZeroMatrix(s.input, s.hidden)) == ZeroMatrix(s.input, s.hidden);
    assert MatScale(0.0, ZeroMatrix(s.hidden, s.output)) == ZeroMatrix(s.hidden, s.output);
  }

  lemma ZeroScaled(n: nat)
    ensures Scale(0.0, Zero(n)) == Zero(n)
  {
  }

  ghost predicate BatchOffTheJump(a: Activations, n: Net, t: Task, es: seq<Example>, s: Shape)
    requires Fits(n, s) && FitsBatch(es, t, s)
  {
    forall i | 0 <= i < |es| :: FitsExample(es[i], t, s) && OffTheJump(t, Raw(a, n, es[i].input, s))
  }

  function SumOfEntries(a: Activations, n: Net, m: Net, t: Task, es: seq<Example>, ghost s: Shape): real -> real
    requires Fits(n, s) && Fits(m, s) && FitsBatch(es, t, s)
  {
    u => LossSum(a, Along(n, m, s, u), t, es, s)
  }

  lemma {:induction false} SumOfRates(a: Activations, n: Net, m: Net, t: Task, es: seq<Example>, s: Shape)
    requires StandardActivations(a) && Fits(n, s) && Fits(m, s) && FitsBatch(es, t, s) && s.output > 0
    requires BatchOffTheJump(a, n, t, es, s)
    ensures Rate(SumOfEntries(a, n, m, t, es, s), 0.0, LossSum(a, n, t, es, s),
                 Times(s.output as real, NetDot(GradientSum(a, n, t, es, True(a), s), m, s)))
  {
    hide Rate, StandardActivations, Along, Fits, NetDot, Times, ExampleLoss, ExampleGradient, NetPlus, Raw, OffTheJump, FitsExample;
    var o := s.output as real;
    if es == [] {
      NetDotZero(m, s);
      TimesZero(o);
      RateConstant(SumOfEntries(a, n, m, t, es, s), 0.0, 0.0);
    } else {
      var k := |es| - 1;
      var p, q := GradientSum(a, n, t, es[..k], True(a), s), ExampleGradient(a, n, t, es[k], True(a), s);
      SumOfRates(a, n, m, t, es[..k], s);
      ExampleRate(a, n, m, t, es[k], s);
      NetDotPlus(p, q, m, s);
      TimesPlus(o, NetDot(p, m, s), NetDot(q, m, s));
      RateSum(SumOfEntries(a, n, m, t, es[..k], s), ExampleEntry(a, n, m, t, es[k], s), SumOfEntries(a, n, m, t, es, s), 0.0,
              LossSum(a, n, t, es[..k], s), Times(o, NetDot(p, m, s)), ExampleLoss(a, n, t, es[k], s), Times(o, NetDot(q, m, s)));
    }
  }

  lemma TimesZero(x: real)
    ensures Times(x, 0.0) == 0.0
  {
  }

  function BatchEntry(a: Activations, n: Net, m: Net, t: Task, es: seq<Example>, s: Shape): real -> real
    requires Fits(n, s) && Fits(m, s) && FitsBatch(es, t, s) && s.output > 0
  {
    u => BatchLoss(a, Along(n, m, s, u), t, es, s)
  }

  /** The derivative of the reported batch loss along any direction, with the true slot slopes. */
  lemma BatchRate(a: Activations, n: Net, m: Net, t: Task, es: seq<Example>, s: Shape)
    requires StandardActivations(a) && Fits(n, s) && Fits(m, s) && FitsBatch(es, t, s) && s.output > 0
    requires BatchOffTheJump(a, n, t, es, s)
    ensures Rate(BatchEntry(a, n, m, t, es, s), 0.0, BatchLoss(a, n, t, es, s),
                 NetDot(BatchGradient(a, n, t, es, True(a), s), m, s))
  {
    hide Rate, StandardActivations, Along, Fits, NetDot, Times, GradientSum, LossSum, NetScale, BatchOffTheJump, Scaled;
    if es == [] {
      NetDotZero(m, s);
      RateConstant(BatchEntry(a, n, m, t, es, s), 0.0, 0.0);
    } else {
      var o, b, g := s.output as real, BatchScale(es), GradientSum(a, n, t, es, True(a), s);
      SumOfRates(a, n, m, t, es, s);
      NetDotScale(b, g, m, s);
      ScaledIs(b / o, LossSum(a, n, t, es, s));
      forall u
        ensures BatchEntry(a, n, m, t, es, s)(u) == Scaled(b / o, SumOfEntries(a, n, m, t, es, s)(u), 0.0)
      {
        ScaledIs(b / o, SumOfEntries(a, n, m, t, es, s)(u));
      }
      RateScaled(SumOfEntries(a, n, m, t, es, s), BatchEntry(a, n, m, t, es, s), b / o, 0.0, 0.0, LossSum(a, n, t, es, s),
                 Times(o, NetDot(g, m, s)));
      CancelWidth(b, o, NetDot(g, m, s));
    }
  }

  lemma ScaledIs(k: real, x: real)
    ensures Scaled(k, x, 0.0) == Times(k, x)
  {
  }

  lemma CancelWidth(b: real, o: real, x: real)
    requires o > 0.0
    ensures Times(b / o, Times(o, x)) == Times(b, x)
  {
    assert b / o * o == b;
    assert b / o * (o * x) == (b / o * o) * x;
  }

  // ----- the gradient the program reports

  /** Above the shortcut the program's slope is wrong, which only matters where there is an error. */
  ghost predicate SlotExact(a: Activations, t: Task, diagonal: bool, raw: real, target: real) {
    diagonal && raw > SHORTCUT ==> SlotError(a, t, diagonal, raw, target) == 0.0
  }

  lemma SlotExactIff(a: Activations, t: Task, diagonal: bool, raw: real, target: real)
    requires StandardActivations(a)
    ensures Times(SlotError(a, t, diagonal, raw, target), UsedSlope(a, diagonal, raw))
         == Times(SlotError(a, t, diagonal, raw, target), TrueSlope(a, diagonal, raw))
       <==> SlotExact(a, t, diagonal, raw, target)
  {
    hide StandardActivations, Sigmoid, SlotError;
    if diagonal && raw > SHORTCUT {
      SigmoidBelowOne(a, raw);
      FactorsDiffer(SlotError(a, t, diagonal, raw, target), Sigmoid(a.lib, raw));
    }
  }

  lemma SigmoidBelowOne(a: Activations, x: real)
    requires StandardActivations(a)
    ensures 0.0 < Sigmoid(a.lib, x) < 1.0
  {
    SigmoidRange(a.lib, x);
  }

  lemma FactorsDiffer(e: real, x: real)
    requires 0.0 < x < 1.0
    ensures Times(e, x) == Times(e, 1.0) <==> e == 0.0
  {
    if e > 0.0 { ProductSign(e, 1.0 - x, e * (1.0 - x)); }
    if e < 0.0 { ProductSign(-e, 1.0 - x, -e * (1.0 - x)); }
  }

  ghost predicate ExactExample(a: Activations, n: Net, t: Task, e: Example, s: Shape)
    requires Fits(n, s) && FitsExample(e, t, s)
  {
    forall i | 0 <= i < s.output :: SlotExact(a, t, t.diagonal[i], Raw(a, n, e.input, s)[i], e.target[i])
  }

  lemma SameSlots(a: Activations, n: Net, t: Task, e: Example, s: Shape)
    requires StandardActivations(a) && Fits(n, s) && FitsExample(e, t, s)
    ensures var raw := Raw(a, n, e.input, s);
            SlotGradients(a, t, raw, e.target, Used(a)) == SlotGradients(a, t, raw, e.target, True(a)) <==> ExactExample(a, n, t, e, s)
  {
    hide StandardActivations, Raw, SlotExact, SlotError, UsedSlope, TrueSlope, Times, Fits;
    var raw := Raw(a, n, e.input, s);
    var g, h := SlotGradients(a, t, raw, e.target, Used(a)), SlotGradients(a, t, raw, e.target, True(a));
    forall i | 0 <= i < s.output
      ensures g[i] == h[i] <==> SlotExact(a, t, t.diagonal[i], raw[i], e.target[i])
    {
      SlotExactIff(a, t, t.diagonal[i], raw[i], e.target[i]);
    }
  }

  ghost predicate ExactBatch(a: Activations, n: Net, t: Task, es: seq<Example>, s: Shape)
    requires Fits(n, s) && FitsBatch(es, t, s)
  {
    forall i | 0 <= i < |es| :: FitsExample(es[i], t, s) && ExactExample(a, n, t, es[i], s)
  }

  lemma {:induction false} SameGradientSum(a: Activations, n: Net, t: Task, es: seq<Example>, s: Shape)
    requires StandardActivations(a) && Fits(n, s) && FitsBatch(es, t, s) && s.output > 0 && ExactBatch(a, n, t, es, s)
    ensures GradientSum(a, n, t, es, Used(a), s) == GradientSum(a, n, t, es, True(a), s)
  {
    hide StandardActivations, SlotGradients, ExactExample, PullBack, NetPlus, Fits, FitsExample;
    if es != [] {
      var k := |es| - 1;
      SameGradientSum(a, n, t, es[..k], s);
      SameSlots(a, n, t, es[k], s);
    }
  }

  /** For every network, batch and direction: the inner product of the direction with the gradient that
      `supervised_batch_stats` reports is the directional derivative of the loss it reports, provided every
      diagonal output above the shortcut fits its target exactly and none lies on the jump. */
  lemma GradientExact(a: Activations, n: Net, m: Net, t: Task, es: seq<Example>, s: Shape)
    requires StandardActivations(a) && Fits(n, s) && Fits(m, s) && FitsBatch(es, t, s) && s.output > 0
    requires BatchOffTheJump(a, n, t, es, s) && ExactBatch(a, n, t, es, s)
    ensures Rate(BatchEntry(a, n, m, t, es, s), 0.0, BatchLoss(a, n, t, es, s),
                 NetDot(BatchGradient(a, n, t, es, Used(a), s), m, s))
  {
    hide Rate, StandardActivations, Fits, NetDot, GradientSum, BatchOffTheJump, ExactBatch, NetScale, BatchEntry;
    BatchRate(a, n, m, t, es, s);
    SameGradientSum(a, n, t, es, s);
  }

  /** The loss as a function of the step along a flat direction, as the optimizer moves. */
  function FlatEntry(a: Activations, p: Vec, v: Vec, t: Task, es: seq<Example>, s: Shape): real -> real
    requires |p| == |v| == ParameterCount(s) && FitsBatch(es, t, s) && s.output > 0
  {
    u => BatchLoss(a, Unflatten(Plus(p, Scale(u, v)), s), t, es, s)
  }

  /** The same for the flat parameter vector and the flat gradient. */
  lemma FlatGradientExact(a: Activations, n: Net, v: Vec, t: Task, es: seq<Example>, s: Shape)
    requires StandardActivations(a) && Fits(n, s) && |v| == ParameterCount(s) && FitsBatch(es, t, s) && s.output > 0
    requires BatchOffTheJump(a, n, t, es, s) && ExactBatch(a, n, t, es, s)
    ensures |Flatten(n)| == |Flatten(BatchGradient(a, n, t, es, Used(a), s))| == ParameterCount(s)
    ensures Rate(FlatEntry(a, Flatten(n), v, t, es, s), 0.0, BatchLoss(a, n, t, es, s),
                 Dot(Flatten(BatchGradient(a, n, t, es, Used(a), s)), v))
  {
    hide Rate, StandardActivations, Fits, NetDot, BatchGradient, BatchOffTheJump, ExactBatch, Flatten, Unflatten, Dot, BatchLoss, Scale,
      NetPlus, NetScale;
    var m := Unflatten(v, s);
    FlattenUnflatten(v, s);
    FlattenLength(n, s);
    FlattenLength(BatchGradient(a, n, t, es, Used(a), s), s);
    GradientExact(a, n, m, t, es, s);
    FlattenDot(BatchGradient(a, n, t, es, Used(a), s), m, s);
    forall u
      ensures FlatEntry(a, Flatten(n), v, t, es, s)(u) == BatchEntry(a, n, m, t, es, s)(u)
    {
      UnflattenAlong(n, m, s, u);
    }
    RateSame(BatchEntry(a, n, m, t, es, s), FlatEntry(a, Flatten(n), v, t, es, s), 0.0, BatchLoss(a, n, t, es, s),
             NetDot(BatchGradient(a, n, t, es, Used(a), s), m, s));
  }

  // ----- exactly when the reported gradient is right

  /** The direction that moves output bias `j` alone. */
  function BiasDirection(s: Shape, j: nat): (m: Net)
    requires j < s.output
    ensures Fits(m, s)
  {
    NetZero(s).(b2 := Unit(s.output, j))
  }

  lemma {:induction false} ColumnsDotZero(a: seq<Vec>, n: nat)
    requires IsMatrix(a, n)
    ensures ColumnsDot(a, ZeroMatrix(|a|, n)) == 0.0
  {
    hide Dot;
    if a != [] {
      assert ZeroMatrix(|a|, n)[1..] == ZeroMatrix(|a| - 1, n);
      ColumnsDotZero(a[1..], n);
      DotZero(a[0]);
    }
  }

  lemma BiasPairing(g: Net, s: Shape, j: nat)
    requires Fits(g, s) && j < s.output
    ensures NetDot(g, BiasDirection(s, j), s) == g.b2[j]
  {
    hide Dot, ColumnsDot;
    ColumnsDotZero(g.w1, s.hidden);
    ColumnsDotZero(g.w2, s.output);
    DotZero(g.b1);
    DotUnit(g.b2, j);
  }

  lemma SingleGradient(a: Activations, n: Net, t: Task, e: Example, slope: (bool, real) -> real, s: Shape)
    requires Fits(n, s) && FitsExample(e, t, s) && s.output > 0
    ensures FitsBatch([e], t, s)
    ensures BatchGradient(a, n, t, [e], slope, s).b2 == OutputGradient(a, t, Raw(a, n, e.input, s), e.target, slope)
  {
    hide OutputGradient, Hidden, Fits, Scale;
    var g := OutputGradient(a, t, Raw(a, n, e.input, s), e.target, slope);
    assert [e][..0] == [];
    ZeroPlusVec(g);
    ScaleByOne(g);
    assert BatchScale([e]) == 1.0;
    SingleSum(a, n, t, e, slope, s);
  }

  lemma SingleSum(a: Activations, n: Net, t: Task, e: Example, slope: (bool, real) -> real, s: Shape)
    requires Fits(n, s) && FitsExample(e, t, s) && s.output > 0 && FitsBatch([e], t, s)
    ensures var g := OutputGradient(a, t, Raw(a, n, e.input, s), e.target, slope);
            GradientSum(a, n, t, [e], slope, s).b2 == Plus(Zero(s.output), g)
  {
    hide OutputGradient, Hidden, Fits;
    assert [e][..0] == [];
  }

  lemma ZeroPlusVec(g: Vec)
    ensures Plus(Zero(|g|), g) == g
  {
  }

  lemma ScaleByOne(g: Vec)
    ensures Scale(1.0, g) == g
  {
  }

  lemma ScaleCancels(k: real, x: Vec, y: Vec, j: nat)
    requires k > 0.0 && |x| == |y| && j < |x| && Scale(k, x)[j] == Scale(k, y)[j]
    ensures x[j] == y[j]
  {
    ScaleAt(k, x, j);
    ScaleAt(k, y, j);
    FactorCancels(k, x[j], y[j]);
  }

  lemma FactorCancels(k: real, x: real, y: real)
    requires k > 0.0 && Times(k, x) == Times(k, y)
    ensures x == y
  {
    if x > y { ProductSign(k, x - y, k * (x - y)); }
    if y > x { ProductSign(k, y - x, k * (y - x)); }
  }

  /** The reported gradient of one example is the derivative of its loss in every direction. */
  ghost predicate GradientRight(a: Activations, n: Net, t: Task, e: Example, s: Shape)
    requires Fits(n, s) && FitsExample(e, t, s) && s.output > 0 && FitsBatch([e], t, s)
  {
    forall m | Fits(m, s) ::
      Rate(BatchEntry(a, n, m, t, [e], s), 0.0, BatchLoss(a, n, t, [e], s), NetDot(BatchGradient(a, n, t, [e], Used(a), s), m, s))
  }

  /** For a single example off the jump, the reported gradient is right exactly when every diagonal output
      above the shortcut already meets its target. */
  lemma GradientRightIff(a: Activations, n: Net, t: Task, e: Example, s: Shape)
    requires StandardActivations(a) && Fits(n, s) && FitsExample(e, t, s) && s.output > 0
    requires OffTheJump(t, Raw(a, n, e.input, s))
    ensures FitsBatch([e], t, s)
    ensures GradientRight(a, n, t, e, s) <==> ExactExample(a, n, t, e, s)
  {
    hide Rate, StandardActivations, Fits, NetDot, BatchGradient, BatchLoss, BatchEntry, Raw, ExactExample, OffTheJump, FitsExample;
    assert FitsBatch([e], t, s);
    assert BatchOffTheJump(a, n, t, [e], s);
    if ExactExample(a, n, t, e, s) {
      assert ExactBatch(a, n, t, [e], s);
      forall m | Fits(m, s)
        ensures Rate(BatchEntry(a, n, m, t, [e], s), 0.0, BatchLoss(a, n, t, [e], s), NetDot(BatchGradient(a, n, t, [e], Used(a), s), m, s))
      {
        GradientExact(a, n, m, t, [e], s);
      }
    }
    if GradientRight(a, n, t, e, s) {
      RightIsExact(a, n, t, e, s);
    }
  }

  /** The reported gradient of a batch is the derivative of its loss in every direction. */
  ghost predicate BatchRight(a: Activations, n: Net, t: Task, es: seq<Example>, s: Shape)
    requires Fits(n, s) && FitsBatch(es, t, s) && s.output > 0
  {
    forall m | Fits(m, s) ::
      Rate(BatchEntry(a, n, m, t, es, s), 0.0, BatchLoss(a, n, t, es, s), NetDot(BatchGradient(a, n, t, es, Used(a), s), m, s))
  }

  /** For every batch off the jump, the reported gradient is right if and only if it is the one computed with the true
      slopes: errors above the shortcut may only cancel over the batch. */
  lemma BatchRightIff(a: Activations, n: Net, t: Task, es: seq<Example>, s: Shape)
    requires StandardActivations(a) && Fits(n, s) && FitsBatch(es, t, s) && s.output > 0 && BatchOffTheJump(a, n, t, es, s)
    ensures BatchRight(a, n, t, es, s) <==> BatchGradient(a, n, t, es, Used(a), s) == BatchGradient(a, n, t, es, True(a), s)
  {
    hide Rate, StandardActivations, Fits, FitsBatch, NetDot, BatchGradient, BatchLoss, BatchEntry, BatchOffTheJump;
    var g, h := BatchGradient(a, n, t, es, Used(a), s), BatchGradient(a, n, t, es, True(a), s);
    forall m | Fits(m, s)
      ensures Rate(BatchEntry(a, n, m, t, es, s), 0.0, BatchLoss(a, n, t, es, s), NetDot(h, m, s))
    {
      BatchRate(a, n, m, t, es, s);
    }
    if BatchRight(a, n, t, es, s) {
      forall m | Fits(m, s)
        ensures NetDot(g, m, s) == NetDot(h, m, s)
      {
        RateUnique(BatchEntry(a, n, m, t, es, s), 0.0, BatchLoss(a, n, t, es, s), NetDot(g, m, s), BatchLoss(a, n, t, es, s), NetDot(h, m, s));
      }
      SamePairings(g, h, s);
    }
  }

  /** Networks that pair alike with every direction are the same. */
  lemma SamePairings(g: Net, h: Net, s: Shape)
    requires Fits(g, s) && Fits(h, s) && forall m | Fits(m, s) :: NetDot(g, m, s) == NetDot(h, m, s)
    ensures g == h
  {
    hide Fits, NetDot, Flatten, Unflatten, Dot, ParameterCount;
    FlattenLength(g, s);
    FlattenLength(h, s);
    var x, y := Flatten(g), Flatten(h);
    forall j | 0 <= j < |x|
      ensures x[j] == y[j]
    {
      var v := Unit(|x|, j);
      var m := Unflatten(v, s);
      FlattenUnflatten(v, s);
      FlattenDot(g, m, s);
      FlattenDot(h, m, s);
      DotUnit(x, j);
      DotUnit(y, j);
    }
    assert x == y;
    UnflattenFlatten(g, s);
    UnflattenFlatten(h, s);
  }

  lemma RightIsExact(a: Activations, n: Net, t: Task, e: Example, s: Shape)
    requires StandardActivations(a) && Fits(n, s) && FitsExample(e, t, s) && s.output > 0 && FitsBatch([e], t, s)
    requires BatchOffTheJump(a, n, t, [e], s) && GradientRight(a, n, t, e, s)
    ensures ExactExample(a, n, t, e, s)
  {
    hide Rate, StandardActivations, Fits, NetDot, BatchGradient, BatchLoss, BatchEntry, Raw, ExactExample, BatchOffTheJump,
      SlotGradients, FitsBatch, GradientRight;
    var raw := Raw(a, n, e.input, s);
    var g, h := SlotGradients(a, t, raw, e.target, Used(a)), SlotGradients(a, t, raw, e.target, True(a));
    forall j | 0 <= j < s.output
      ensures g[j] == h[j]
    {
      RightSlot(a, n, t, e, s, j, raw);
    }
    assert g == h;
    SameSlots(a, n, t, e, s);
  }

  lemma RightSlot(a: Activations, n: Net, t: Task, e: Example, s: Shape, j: nat, raw: Vec)
    requires StandardActivations(a) && Fits(n, s) && FitsExample(e, t, s) && s.output > 0 && FitsBatch([e], t, s)
    requires BatchOffTheJump(a, n, t, [e], s) && GradientRight(a, n, t, e, s) && j < s.output && raw == Raw(a, n, e.input, s)
    ensures SlotGradients(a, t, raw, e.target, Used(a))[j] == SlotGradients(a, t, raw, e.target, True(a))[j]
  {
    hide Rate, StandardActivations, Fits, NetDot, BatchGradient, BatchLoss, BatchEntry, Raw, BatchOffTheJump, SlotGradients, Scale,
      FitsBatch, BiasDirection;
    var m := BiasDirection(s, j);
    SingleGradient(a, n, t, e, Used(a), s);
    SingleGradient(a, n, t, e, True(a), s);
    BatchRate(a, n, m, t, [e], s);
    RateUnique(BatchEntry(a, n, m, t, [e], s), 0.0, BatchLoss(a, n, t, [e], s), NetDot(BatchGradient(a, n, t, [e], Used(a), s), m, s),
               BatchLoss(a, n, t, [e], s), NetDot(BatchGradient(a, n, t, [e], True(a), s), m, s));
    BiasPairing(BatchGradient(a, n, t, [e], Used(a), s), s, j);
    BiasPairing(BatchGradient(a, n, t, [e], True(a), s), s, j);
    PositiveQuotient(2.0, s.output as real);
    ScaleCancels(2.0 / s.output as real, SlotGradients(a, t, raw, e.target, Used(a)), SlotGradients(a, t, raw, e.target, True(a)), j);
  }

  lemma {:induction false} ZeroColumns(cols: nat, n: nat, h: Vec)
    requires |h| == cols
    ensures Combine(ZeroMatrix(cols, n), h, n) == Zero(n)
  {
    if cols > 0 {
      assert ZeroMatrix(cols, n)[1..] == ZeroMatrix(cols - 1, n);
      ZeroColumns(cols - 1, n, h[1..]);
      forall i | 0 <= i < n
        ensures Plus(Scale(h[0], Zero(n)), Zero(n))[i] == 0.0
      {
        ScaleAt(h[0], Zero(n), i);
        TimesOf(h[0], 0.0);
      }
    }
  }

  /** A network whose weights are zero and whose one diagonal output is its bias of 21: above the shortcut,
      with a target it misses, the reported gradient is not the derivative. */
  lemma ShortcutCounterexample(a: Activations, s: Shape, minDiag: real)
    requires StandardActivations(a) && s.output == 2 && minDiag >= 0.0
    ensures var n, t := NetZero(s).(b2 := [0.0, 21.0]), Task([false, true], minDiag);
            !GradientRight(a, n, t, Example(Zero(s.input), [0.0, 0.0]), s)
  {
    var n, t, e := NetZero(s).(b2 := [0.0, 21.0]), Task([false, true], minDiag), Example(Zero(s.input), [0.0, 0.0]);
    hide StandardActivations, GradientRight, Hidden;
    var raw := Raw(a, n, e.input, s);
    ZeroColumns(s.hidden, 2, Hidden(a, n, e.input, s));
    assert raw == [0.0, 21.0];
    GradientRightIff(a, n, t, e, s);
    assert !SlotExact(a, t, t.diagonal[1], raw[1], e.target[1]);
  }
}
