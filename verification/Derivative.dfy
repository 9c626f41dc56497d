/** First derivatives, for functions that have a second one as well. */
module Derivative {
  import opened LinearAlgebra
  import opened Calculus

  /** `f` has value `y` and derivative `d` at `c`. */
  ghost predicate Rate(f: real -> real, c: real, y: real, d: real) { exists b :: Smooth(f, c, y, d, b) }

  lemma RateOf(f: real -> real, c: real, y: real, d: real, b: real)
    requires Smooth(f, c, y, d, b)
    ensures Rate(f, c, y, d)
  {
  }

  /** A derivative is unique. */
  lemma RateUnique(f: real -> real, c: real, y: real, d: real, z: real, e: real)
    requires Rate(f, c, y, d) && Rate(f, c, z, e)
    ensures y == z && d == e
  {
    hide Smooth;
    var b1 :| Smooth(f, c, y, d, b1);
    var b2 :| Smooth(f, c, z, e, b2);
    SmoothUnique(f, c, y, d, b1, z, e, b2);
  }

  lemma RateConstant(f: real -> real, c: real, y: real)
    requires forall t :: f(t) == y
    ensures Rate(f, c, y, 0.0)
  {
    hide Smooth;
    SmoothConstant(f, c, y);
  }

  /** `y + t d`. */
  function Line(y: real, d: real, t: real): real { y + t * d }

  lemma RateLine(f: real -> real, y: real, d: real)
    requires forall t :: f(t) == Line(y, d, t)
    ensures Rate(f, 0.0, y, d)
  {
    hide Smooth;
    forall t
      ensures f(t) == Quadratic(y, d, 0.0, t - 0.0)
    {
      LineIs(y, d, t);
    }
    SmoothExact(f, 0.0, y, d, 0.0);
  }

  lemma LineIs(y: real, d: real, t: real)
    ensures Line(y, d, t) == Quadratic(y, d, 0.0, t - 0.0)
  {
    assert 0.0 * (t * t) == 0.0;
  }

  lemma RateSum(f: real -> real, g: real -> real, h: real -> real, c: real, x: real, v: real, y: real, w: real)
    requires Rate(f, c, x, v) && Rate(g, c, y, w) && forall t :: h(t) == f(t) + g(t)
    ensures Rate(h, c, x + y, v + w)
  {
    hide Smooth;
    var a :| Smooth(f, c, x, v, a);
    var b :| Smooth(g, c, y, w, b);
    SmoothSum(f, g, h, c, x, v, a, y, w, b, x + y, v + w, a + b);
  }

  lemma RateProduct(f: real -> real, g: real -> real, h: real -> real, c: real, x: real, v: real, y: real, w: real)
    requires Rate(f, c, x, v) && Rate(g, c, y, w) && forall t :: h(t) == Times(f(t), g(t))
    ensures Rate(h, c, Times(x, y), Times(x, w) + Times(v, y))
  {
    hide Smooth, Times;
    var a :| Smooth(f, c, x, v, a);
    var b :| Smooth(g, c, y, w, b);
    TimesOf(x, y);
    TimesOf(x, w);
    TimesOf(v, y);
    forall t
      ensures h(t) == f(t) * g(t)
    {
      TimesOf(f(t), g(t));
    }
    SmoothProduct(f, g, h, c, x, v, a, y, w, b, Times(x, y), Times(x, w) + Times(v, y), x * b + 2.0 * (v * w) + a * y);
  }

  lemma RateChain(f: real -> real, phi: real -> real, h: real -> real, c: real, x: real, v: real, y: real, d: real)
    requires Rate(f, c, x, v) && Rate(phi, x, y, d) && forall t :: h(t) == phi(f(t))
    ensures Rate(h, c, y, Times(d, v))
  {
    hide Smooth;
    var a :| Smooth(f, c, x, v, a);
    var b :| Smooth(phi, x, y, d, b);
    SmoothCompose(f, phi, h, c, x, v, a, y, d, b, Times(d, v), d * a + b * (v * v));
  }

  /** `k f + b`. */
  function Scaled(k: real, y: real, b: real): real { k * y + b }

  lemma RateScaled(f: real -> real, h: real -> real, k: real, b: real, c: real, x: real, v: real)
    requires Rate(f, c, x, v) && forall t :: h(t) == Scaled(k, f(t), b)
    ensures Rate(h, c, Scaled(k, x, b), Times(k, v))
  {
    hide Smooth;
    var a :| Smooth(f, c, x, v, a);
    SmoothAffine(f, h, k, b, c, x, v, a, Scaled(k, x, b), Times(k, v), k * a);
  }

  lemma RateSame(f: real -> real, h: real -> real, c: real, x: real, v: real)
    requires Rate(f, c, x, v) && forall t :: h(t) == f(t)
    ensures Rate(h, c, x, v)
  {
    hide Smooth;
    RateScaled(f, h, 1.0, 0.0, c, x, v);
    TimesOf(1.0, v);
  }

  /** A derivative depends only on the function near the point. */
  lemma RateLocal(f: real -> real, h: real -> real, c: real, y: real, d: real, width: real)
    requires Rate(f, c, y, d) && width > 0.0 && forall t | Abs(t - c) <= width :: h(t) == f(t)
    ensures Rate(h, c, y, d)
  {
    hide Taylor2, Quadratic, Cube, Abs;
    var b :| Smooth(f, c, y, d, b);
    var rho, k :| Taylor2(f, c, y, d, b, rho, k);
    TaylorBounds(f, c, y, d, b, rho, k);
    var r := Min(rho, width);
    forall t | Abs(t - c) <= r
      ensures Abs(h(t) - Quadratic(y, d, b, t - c)) <= k * Cube(t - c)
    {
      TaylorAt(f, c, y, d, b, rho, k, t);
    }
    SmoothIntro(h, c, y, d, b, r, k);
  }

  /** The difference quotient over the step `h`. */
  function DifferenceQuotient(f: real -> real, c: real, y: real, h: real): real
    requires h != 0.0
  {
    (f(c + h) - y) / h
  }

  /** The difference quotient of a function with that derivative is off by at most a multiple of the step. */
  lemma RateQuotient(f: real -> real, c: real, y: real, d: real) returns (rho: real, k: real)
    requires Rate(f, c, y, d)
    ensures rho > 0.0 && k >= 0.0
    ensures forall h | h != 0.0 && Abs(h) <= rho :: Abs(DifferenceQuotient(f, c, y, h) - d) <= Times(k, Abs(h))
  {
    hide Taylor2, Quadratic, Cube, DifferenceQuotient, Times;
    var b :| Smooth(f, c, y, d, b);
    var r, e :| Taylor2(f, c, y, d, b, r, e);
    TaylorBounds(f, c, y, d, b, r, e);
    AbsNonNegative(b);
    rho, k := Min(r, 1.0), Abs(b) / 2.0 + e;
    forall h | h != 0.0 && Abs(h) <= rho
      ensures Abs(DifferenceQuotient(f, c, y, h) - d) <= Times(k, Abs(h))
    {
      QuotientAt(f, c, y, d, b, r, e, k, h);
    }
  }

  lemma QuotientIs(f: real -> real, c: real, y: real, h: real)
    requires h != 0.0
    ensures DifferenceQuotient(f, c, y, h) * h == f(c + h) - y
  {
    var rise := f(c + h) - y;
    assert rise / h * h == rise;
  }

  lemma QuotientAt(f: real -> real, c: real, y: real, d: real, b: real, r: real, e: real, k: real, h: real)
    requires Taylor2(f, c, y, d, b, r, e) && e >= 0.0 && k == Abs(b) / 2.0 + e && h != 0.0 && Abs(h) <= r && Abs(h) <= 1.0
    ensures Abs(DifferenceQuotient(f, c, y, h) - d) <= Times(k, Abs(h))
  {
    hide Taylor2, Quadratic, Cube, DifferenceQuotient, Times;
    var rise, q := f(c + h) - y, DifferenceQuotient(f, c, y, h);
    QuotientIs(f, c, y, h);
    TimesOf(k, Abs(h));
    var x := c + h;
    assert x - c == h;
    TaylorAt(f, c, y, d, b, r, e, x);
    QuadraticSplit(y, d, b, h);
    QuotientError(h, rise, q, d, b, e, k, f(x) - Quadratic(y, d, b, h));
  }

  lemma QuotientError(h: real, rise: real, q: real, d: real, b: real, e: real, k: real, rest: real)
    requires h != 0.0 && Abs(h) <= 1.0 && q * h == rise && k == Abs(b) / 2.0 + e && e >= 0.0
    requires rest == rise - Drift(d, b, h) && Abs(rest) <= e * Cube(h)
    ensures Abs(q - d) <= k * Abs(h)
  {
    var s := Abs(h);
    var s2 := s * s;
    var s3 := s2 * s;
    hide Abs;
    AbsPositive(h);
    SmallPowers(s, s2, s3);
    AbsProduct(h, h, h * h, s, s, s2);
    CubeIsPower(h, s, s2, s3);
    MulLe(e, s3, s2, e * s3, e * s2);
    var bend := b * (h * h) / 2.0;
    AbsProduct(b, h * h, 2.0 * bend, Abs(b), s2, Abs(b) * s2);
    QuotientTimes(q, rise, h, d, b, rest, bend);
    var w := bend + rest;
    RestBound(bend, rest, w, Abs(b) * s2, e * s2);
    assert k * s2 == Abs(b) * s2 / 2.0 + e * s2;
    AbsTimes(q - d, h, w);
    CancelStep(Abs(q - d), s, s2, k, Abs(w));
  }

  lemma QuadraticSplit(y: real, d: real, b: real, h: real)
    ensures Quadratic(y, d, b, h) == y + Drift(d, b, h)
  {
  }

  lemma RestBound(bend: real, rest: real, w: real, bound: real, error: real)
    requires w == bend + rest && Abs(2.0 * bend) <= bound && Abs(rest) <= error
    ensures Abs(w) <= bound / 2.0 + error
  {
  }

  lemma AbsPositive(h: real)
    requires h != 0.0
    ensures Abs(h) > 0.0
  {
  }

  lemma CubeIsPower(h: real, s: real, s2: real, s3: real)
    requires s == Abs(h) && s2 == s * s && s3 == s2 * s
    ensures Cube(h) == s3
  {
  }

  lemma QuotientTimes(q: real, rise: real, h: real, d: real, b: real, rest: real, bend: real)
    requires q * h == rise && rest == rise - Drift(d, b, h) && bend == b * (h * h) / 2.0
    ensures bend + rest == (q - d) * h
  {
    assert (q - d) * h == q * h - d * h;
  }

  lemma CancelStep(x: real, s: real, s2: real, k: real, w: real)
    requires s > 0.0 && s2 == s * s && w == x * s && w <= k * s2
    ensures x <= k * s
  {
    var ks := k * s;
    assert k * s2 == ks * s;
    if x > ks { ProductSign(x - ks, s, (x - ks) * s); }
  }

  /** A negative derivative means strict decrease for all small enough steps. */
  lemma RateDescends(f: real -> real, y: real, d: real) returns (limit: real)
    requires Rate(f, 0.0, y, d) && d < 0.0
    ensures limit > 0.0 && forall t | 0.0 < t <= limit :: f(t) < y
  {
    hide Taylor2, Quadratic, Cube;
    var b :| Smooth(f, 0.0, y, d, b);
    var rho, k :| Taylor2(f, 0.0, y, d, b, rho, k);
    TaylorBounds(f, 0.0, y, d, b, rho, k);
    var m := Abs(b) + k + 1.0;
    PositiveQuotient(-d, m);
    limit := Min(Min(rho, 1.0), -d / m);
    forall t | 0.0 < t <= limit
      ensures f(t) < y
    {
      TaylorAt(f, 0.0, y, d, b, rho, k, t);
      StepDown(f(t), y, d, b, k, m, t);
    }
  }

  lemma StepDown(ft: real, y: real, d: real, b: real, k: real, m: real, t: real)
    requires d < 0.0 && k >= 0.0 && m == Abs(b) + k + 1.0 && 0.0 < t <= 1.0 && t <= -d / m
    requires Abs(ft - Quadratic(y, d, b, t)) <= k * Cube(t)
    ensures ft < y
  {
    var t2 := t * t;
    AbsNonNegative(b);
    StepScaled(m, d, t, t2, m * t2, d * t);
    NamedStep(ft, y, d, b, k, m, t, Quadratic(y, d, b, t), k * Cube(t), t2, k * t2, b * t2, Abs(b) * t2, m * t2, d * t);
  }

  lemma NamedStep(ft: real, y: real, d: real, b: real, k: real, m: real, t: real, z: real, kc: real, t2: real,
                  kt: real, bt: real, at: real, mt: real, dt: real)
    requires k >= 0.0 && m == Abs(b) + k + 1.0 && 0.0 < t <= 1.0 && mt <= -dt
    requires z == Quadratic(y, d, b, t) && kc == k * Cube(t) && Abs(ft - z) <= kc
    requires t2 == t * t && kt == k * t2 && bt == b * t2 && at == Abs(b) * t2 && mt == m * t2 && dt == d * t
    ensures ft < y
  {
    hide Cube, Abs, Quadratic;
    AbsNonNegative(b);
    CubicPart(k, t, kc, t2, kt);
    Magnified(b, t2, bt);
    ProductSign(Abs(b), t2, at);
    Distributed(Abs(b), k, t2, m, mt, at, kt);
    QuadraticIs(y, d, b, t, t2, z, dt, bt);
    StepSum(ft, y, z, dt, bt, kc, kt, at, t2, mt);
  }

  lemma CubicPart(k: real, t: real, kc: real, t2: real, kt: real)
    requires k >= 0.0 && 0.0 < t <= 1.0 && kc == k * Cube(t) && t2 == t * t && kt == k * t2
    ensures kc <= kt && t2 > 0.0
  {
    hide Cube;
    var t3 := t2 * t;
    SmallPowers(t, t2, t3);
    ProductSign(t, t, t2);
    SelfAbs(t);
    CubeIs(t, t, t2, t3);
    MulLe(k, Cube(t), t2, kc, kt);
  }

  lemma SelfAbs(t: real)
    requires t > 0.0
    ensures t == Abs(t)
  {
  }

  lemma QuadraticIs(y: real, d: real, b: real, t: real, t2: real, z: real, dt: real, bt: real)
    requires t2 == t * t && z == Quadratic(y, d, b, t) && dt == d * t && bt == b * t2
    ensures z == y + dt + bt / 2.0
  {
  }

  lemma StepScaled(m: real, d: real, t: real, t2: real, mt2: real, dt: real)
    requires m > 0.0 && 0.0 < t <= -d / m && t2 == t * t && mt2 == m * t2 && dt == d * t
    ensures mt2 <= -dt
  {
    var e := -d / m;
    assert e * m == -d;
    MulLe(m, t, e, m * t, m * e);
    MulLe(t, m * t, -d, t * (m * t), t * (-d));
    assert t * (m * t) == mt2;
  }

  lemma Distributed(a: real, k: real, t2: real, m: real, mt: real, at: real, kt: real)
    requires m == a + k + 1.0 && mt == m * t2 && at == a * t2 && kt == k * t2
    ensures mt == at + kt + t2
  {
  }

  lemma StepSum(ft: real, y: real, z: real, dt: real, bt: real, kc: real, kt: real, at: real, t2: real, mt: real)
    requires Abs(ft - z) <= kc && z == y + dt + bt / 2.0 && kc <= kt && bt <= at && at >= 0.0 && t2 > 0.0
    requires mt == at + kt + t2 && mt <= -dt
    ensures ft < y
  {
  }

  lemma Magnified(b: real, s: real, bs: real)
    requires s >= 0.0 && bs == b * s
    ensures bs <= Abs(b) * s
  {
    MulLe(s, b, Abs(b), s * b, s * Abs(b));
  }
}
