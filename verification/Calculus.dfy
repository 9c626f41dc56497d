/** Taylor expansions of real functions with an explicit local remainder bound. They say what it means
    for a number to be the velocity, the acceleration or the gradient of something the program computes. */
module Calculus {
  import opened LinearAlgebra

  function Cube(x: real): (r: real)
    ensures r >= 0.0
  {
    Abs(x) * Abs(x) * Abs(x)
  }

  /** `f` is within `k |y - c|^3` of the quadratic `f0 + d1 (y - c) + d2 (y - c)^2 / 2` near `c`. */
  ghost predicate Taylor2(f: real -> real, c: real, f0: real, d1: real, d2: real, rho: real, k: real) {
    && rho > 0.0 && k >= 0.0
    && forall y :: Abs(y - c) <= rho ==> Abs(f(y) - Quadratic(f0, d1, d2, y - c)) <= k * Cube(y - c)
  }

  function Drift(d1: real, d2: real, h: real): real {
    d1 * h + d2 * (h * h) / 2.0
  }

  function Quadratic(f0: real, d1: real, d2: real, h: real): real {
    f0 + Drift(d1, d2, h)
  }

  /** `f` has a second-order Taylor expansion at `c` with value `f0`, coefficients `d1` and `d2`, and a remainder of third
      order. Then `d1` and `d2` are its first and second derivative; the expansion says more than derivatives at a point. */
  ghost predicate Smooth(f: real -> real, c: real, f0: real, d1: real, d2: real) {
    exists rho, k :: Taylor2(f, c, f0, d1, d2, rho, k)
  }

  // ----- bounds (every product is named, so that the solver sees linear facts)

  lemma AbsSum(x: real, y: real)
    ensures Abs(x + y) <= Abs(x) + Abs(y)
  {
  }

  lemma AbsNonNegative(a: real)
    ensures Abs(a) >= 0.0
  {
  }

  lemma AbsProduct(x: real, y: real, z: real, xMax: real, yMax: real, zMax: real)
    requires Abs(x) <= xMax && Abs(y) <= yMax && z == x * y && zMax == xMax * yMax
    ensures Abs(z) <= zMax
  {
    AbsTimes(x, y, z);
    hide Abs;
    AbsNonNegative(x);
    AbsNonNegative(y);
    ProductWithin(Abs(x), Abs(y), Abs(z), xMax, yMax, zMax);
  }

  lemma AbsTimes(x: real, y: real, z: real)
    requires z == x * y
    ensures Abs(z) == Abs(x) * Abs(y)
  {
    var sx, sy := if x >= 0.0 then 1.0 else -1.0, if y >= 0.0 then 1.0 else -1.0;
    ProductSign(sx * x, sy * y, (sx * x) * (sy * y));
  }

  lemma ProductWithin(a: real, b: real, p: real, aMax: real, bMax: real, pMax: real)
    requires 0.0 <= a <= aMax && 0.0 <= b <= bMax && p == a * b && pMax == aMax * bMax
    ensures 0.0 <= p <= pMax
  {
    var slackA, slackB := aMax - a, bMax - b;
    ProductSign(a, b, p);
    ProductSign(slackA, b, slackA * b);
    ProductSign(aMax, slackB, aMax * slackB);
    assert pMax - p == aMax * slackB + slackA * b;
  }

  /** The powers of a number between 0 and 1 decrease. */
  lemma SmallPowers(s: real, s2: real, s3: real)
    requires 0.0 <= s <= 1.0 && s2 == s * s && s3 == s2 * s
    ensures 0.0 <= s3 <= s2 <= s
  {
    ProductSign(s, 1.0 - s, s * (1.0 - s));
    ProductSign(s, s, s2);
    ProductSign(s2, 1.0 - s, s2 * (1.0 - s));
    ProductSign(s2, s, s3);
  }

  lemma MulLe(k: real, x: real, y: real, kx: real, ky: real)
    requires k >= 0.0 && x <= y && kx == k * x && ky == k * y
    ensures kx <= ky
  {
    ProductSign(k, y - x, k * (y - x));
  }

  /** With `h` the step, `s == |h|` and `s2`, `s3` its powers: the displacement `d` of a quadratic with
      a cubic error is linear in the step, up to second order. */
  lemma InnerBounds(h: real, s: real, s2: real, s3: real, v: real, a: real, k: real, d: real,
                    vh: real, x: real, e: real, q: real, m: real)
    requires s == Abs(h) && s <= 1.0 && s2 == s * s && s3 == s2 * s && k >= 0.0
    requires vh == v * h && x == a * (h * h) / 2.0 && d == vh + x + e && Abs(e) <= k * s3
    requires q == Abs(a) / 2.0 + k && m == Abs(v) + q
    ensures Abs(d - vh) <= q * s2
    ensures Abs(d) <= m * s
    ensures Abs(d + vh) <= (Abs(v) + m) * s
  {
    hide Abs;
    var hh, aa, va := h * h, Abs(a), Abs(v);
    var as2, ks2, ks3, vs := aa * s2, k * s2, k * s3, va * s;
    SmallPowers(s, s2, s3);
    AbsProduct(h, h, hh, s, s, s2);
    HalfProduct(a, h, hh, x);
    AbsProduct(a, hh, 2.0 * x, aa, s2, as2);
    AbsProduct(v, h, vh, va, s, vs);
    MulLe(k, s3, s2, ks3, ks2);
    AbsNonNegative(a);
    InnerProducts(aa, k, va, q, m, s, s2, as2, ks2, vs);
    InnerSums(x, vh, e, d, as2 / 2.0, ks2, vs);
  }

  lemma HalfProduct(a: real, h: real, hh: real, x: real)
    requires hh == h * h && x == a * (h * h) / 2.0
    ensures 2.0 * x == a * hh
  {
  }

  lemma InnerProducts(aa: real, k: real, va: real, q: real, m: real, s: real, s2: real, as2: real, ks2: real, vs: real)
    requires aa >= 0.0 && k >= 0.0 && 0.0 <= s2 <= s && q == aa / 2.0 + k && m == va + q
    requires as2 == aa * s2 && ks2 == k * s2 && vs == va * s
    ensures q * s2 == as2 / 2.0 + ks2 && m * s >= vs + as2 / 2.0 + ks2 && (va + m) * s >= 2.0 * vs + as2 / 2.0 + ks2
  {
    var qs2, qs := q * s2, q * s;
    MulLe(q, s2, s, qs2, qs);
    assert qs2 == as2 / 2.0 + ks2;
    assert m * s == vs + qs;
    assert (va + m) * s == vs + m * s;
  }

  lemma InnerSums(x: real, vh: real, e: real, d: real, bx: real, be: real, bv: real)
    requires d == vh + x + e && Abs(2.0 * x) <= 2.0 * bx && Abs(e) <= be && Abs(vh) <= bv
    ensures Abs(d - vh) <= bx + be && Abs(d) <= bv + bx + be && Abs(d + vh) <= 2.0 * bv + bx + be
  {
  }

  function ErrorBound(av: real, q: real, k: real, ad1: real, aw: real, kp: real, m: real): real {
    kp * (m * m * m) + ad1 * k + aw * (q * (av + m))
  }

  /** `InnerBounds` for the displacement of a function with a Taylor expansion. */
  lemma Displacement(h: real, s: real, s2: real, s3: real, v: real, a: real, k: real, d: real, vh: real, e: real, q: real, m: real)
    requires s == Abs(h) && s <= 1.0 && s2 == s * s && s3 == s2 * s && k >= 0.0
    requires e == d - Drift(v, a, h) && Abs(e) <= k * s3 && vh == v * h
    requires q == Abs(a) / 2.0 + k && m == Abs(v) + q
    ensures Abs(d - vh) <= q * s2
    ensures Abs(d) <= m * s
    ensures Abs(d + vh) <= (Abs(v) + m) * s
  {
    InnerBounds(h, s, s2, s3, v, a, k, d, vh, a * (h * h) / 2.0, e, q, m);
  }

  lemma ComposeError(h: real, s: real, s2: real, s3: real, v: real, a: real, k: real, d: real, e: real, vh: real,
                     q: real, m: real, p: real, d1: real, d2: real, kp: real, y: real, bound: real, v2: real, a2: real)
    requires s2 == s * s && s3 == s2 * s && k >= 0.0 && kp >= 0.0
    requires e == d - Drift(v, a, h) && vh == v * h && Abs(e) <= k * s3
    requires q == Abs(a) / 2.0 + k && m == Abs(v) + q
    requires Abs(d - vh) <= q * s2 && Abs(d) <= m * s && Abs(d + vh) <= (Abs(v) + m) * s
    requires Abs(y - Quadratic(p, d1, d2, d)) <= kp * Cube(d)
    requires bound == ErrorBound(Abs(v), q, k, Abs(d1), Abs(d2 / 2.0), kp, m)
    requires v2 == d1 * v && a2 == d1 * a + d2 * (v * v)
    ensures Abs(y - Quadratic(p, v2, a2, h)) <= bound * s3
  {
    hide Abs, Cube, Quadratic, ErrorBound, Drift;
    var r, w, x, z := y - Quadratic(p, d1, d2, d), d2 / 2.0, d - vh, d + vh;
    var g := x * z;
    var t1, t2, l := d1 * e, w * g, y - Quadratic(p, v2, a2, h);
    NamedSplit(h, v, a, d, p, d1, d2, y, e, vh, x, z, g, w, r, t1, t2, v2, a2, l);
    AbsNonNegative(v);
    AbsNonNegative(a);
    CombineErrors(s, s2, s3, x, z, g, d, e, Abs(v), q, k, d1, w, kp, r, m, t1, t2, bound);
  }

  lemma CombineErrors(s: real, s2: real, s3: real, x: real, y: real, g: real, d: real, e: real, av: real, q: real,
                      k: real, d1: real, w: real, kp: real, r: real, m: real, t1: real, t2: real, bound: real)
    requires s2 == s * s && s3 == s2 * s && k >= 0.0 && kp >= 0.0 && m == av + q && m >= 0.0
    requires Abs(e) <= k * s3 && Abs(r) <= kp * Cube(d) && g == x * y
    requires Abs(x) <= q * s2 && Abs(d) <= m * s && Abs(y) <= (av + m) * s
    requires bound == ErrorBound(av, q, k, Abs(d1), Abs(w), kp, m) && t1 == d1 * e && t2 == w * g
    ensures Abs(r + t1 + t2) <= bound * s3
  {
    hide Abs, Cube;
    var n := av + m;
    var b1, b2, b3 := Abs(d1) * k, Abs(w) * (q * n), kp * (m * m * m);
    LinearTerm(d1, e, t1, k, s3, b1);
    MiddleTerm(s, s2, s3, x, y, g, q, n);
    LinearTerm(w, g, t2, q * n, s3, b2);
    OuterTerm(d, m, s, s2, s3, kp, r, b3);
    SumErrors(r, t1, t2, b3, b1, b2, s3, bound);
  }

  lemma SumErrors(x: real, y: real, z: real, bx: real, by': real, bz: real, c: real, bound: real)
    requires Abs(x) <= bx * c && Abs(y) <= by' * c && Abs(z) <= bz * c && bound == bx + by' + bz
    ensures Abs(x + y + z) <= bound * c
  {
    hide Abs;
    assert bound * c == bx * c + by' * c + bz * c;
    SumBounds(x, y, z, bx * c, by' * c, bz * c);
  }

  lemma SumBounds(x: real, y: real, z: real, bx: real, by': real, bz: real)
    requires Abs(x) <= bx && Abs(y) <= by' && Abs(z) <= bz
    ensures Abs(x + y + z) <= bx + by' + bz
  {
  }

  lemma LinearTerm(d: real, e: real, de: real, k: real, c: real, b: real)
    requires Abs(e) <= k * c && de == d * e && b == Abs(d) * k
    ensures Abs(de) <= b * c
  {
    hide Abs;
    AbsProduct(d, e, de, Abs(d), k * c, Abs(d) * (k * c));
    assert Abs(d) * (k * c) == b * c;
  }

  lemma MiddleTerm(s: real, s2: real, s3: real, x: real, y: real, g: real, q: real, n: real)
    requires s2 == s * s && s3 == s2 * s && g == x * y && Abs(x) <= q * s2 && Abs(y) <= n * s
    ensures Abs(g) <= q * n * s3
  {
    hide Abs;
    AbsProduct(x, y, g, q * s2, n * s, q * s2 * (n * s));
    assert q * s2 * (n * s) == q * n * s3;
  }

  lemma OuterTerm(d: real, m: real, s: real, s2: real, s3: real, kp: real, r: real, b: real)
    requires Abs(r) <= kp * Cube(d) && s2 == s * s && s3 == s2 * s
    requires kp >= 0.0 && m >= 0.0 && Abs(d) <= m * s && b == kp * (m * m * m)
    ensures Abs(r) <= b * s3
  {
    var ms := m * s;
    CubeBound(d, ms, ms * ms * ms);
    hide Abs, Cube;
    var m3 := m * m * m;
    var p := m3 * s3;
    CubeOfProduct(m, s, s2, s3, ms, m3, p);
    MulLe(kp, Cube(d), p, kp * Cube(d), kp * p);
    Regroup(kp, m3, s3, p, b);
  }

  lemma CubeOfProduct(m: real, s: real, s2: real, s3: real, ms: real, m3: real, p: real)
    requires s2 == s * s && s3 == s2 * s && ms == m * s && m3 == m * m * m && p == m3 * s3
    ensures ms * ms * ms == p
  {
  }

  lemma Regroup(x: real, y: real, z: real, yz: real, xy: real)
    requires yz == y * z && xy == x * y
    ensures x * yz == xy * z
  {
  }

  lemma CubeBound(d: real, b: real, b3: real)
    requires Abs(d) <= b && b3 == b * b * b
    ensures Cube(d) <= b3
  {
    var ad := Abs(d);
    var ad2 := ad * ad;
    ProductSign(ad, ad, ad2);
    ProductSign(b - ad, ad, (b - ad) * ad);
    ProductSign(b, b - ad, b * (b - ad));
    var b2 := b * b;
    assert ad2 <= b2;
    ProductSign(b2 - ad2, ad, (b2 - ad2) * ad);
    ProductSign(b2, b - ad, b2 * (b - ad)) by { ProductSign(b, b, b2); }
  }

  lemma SplitError(h: real, v: real, a: real, d: real, p: real, d1: real, d2: real, y: real)
    ensures y - Quadratic(p, d1 * v, d1 * a + d2 * (v * v), h)
         == y - Quadratic(p, d1, d2, d) + d1 * (d - Drift(v, a, h)) + d2 / 2.0 * ((d - v * h) * (d + v * h))
  {
  }

  lemma NamedSplit(h: real, v: real, a: real, d: real, p: real, d1: real, d2: real, y: real, e: real, vh: real,
                   x: real, z: real, g: real, w: real, r: real, t1: real, t2: real, v2: real, a2: real, l: real)
    requires e == d - Drift(v, a, h) && vh == v * h && x == d - vh && z == d + vh && g == x * z
    requires w == d2 / 2.0 && r == y - Quadratic(p, d1, d2, d) && t1 == d1 * e && t2 == w * g
    requires v2 == d1 * v && a2 == d1 * a + d2 * (v * v) && l == y - Quadratic(p, v2, a2, h)
    ensures l == r + t1 + t2
  {
    hide Drift, Quadratic;
    SplitError(h, v, a, d, p, d1, d2, y);
    NamedProduct(d1, e, t1, d1, d - Drift(v, a, h));
    NamedProduct(x, z, g, d - v * h, d + v * h);
    NamedProduct(w, g, t2, d2 / 2.0, (d - v * h) * (d + v * h));
  }

  lemma NamedProduct(x: real, y: real, p: real, x2: real, y2: real)
    requires p == x * y && x == x2 && y == y2
    ensures p == x2 * y2
  {
  }

  // ----- smooth functions are closed under composition and arithmetic

  lemma TaylorAt(f: real -> real, c: real, f0: real, d1: real, d2: real, rho: real, k: real, y: real)
    requires Taylor2(f, c, f0, d1, d2, rho, k) && Abs(y - c) <= rho
    ensures Abs(f(y) - Quadratic(f0, d1, d2, y - c)) <= k * Cube(y - c)
  {
  }

  lemma SmoothIntro(f: real -> real, c: real, f0: real, d1: real, d2: real, rho: real, k: real)
    requires rho > 0.0 && k >= 0.0
    requires forall y :: Abs(y - c) <= rho ==> Abs(f(y) - Quadratic(f0, d1, d2, y - c)) <= k * Cube(y - c)
    ensures Smooth(f, c, f0, d1, d2)
  {
    hide Quadratic, Cube, Abs;
    assert Taylor2(f, c, f0, d1, d2, rho, k);
  }

  lemma TaylorBounds(f: real -> real, c: real, f0: real, d1: real, d2: real, rho: real, k: real)
    requires Taylor2(f, c, f0, d1, d2, rho, k)
    ensures rho > 0.0 && k >= 0.0
  {
  }

  lemma PositiveQuotient(x: real, y: real)
    requires x > 0.0 && y > 0.0
    ensures x / y > 0.0
  {
  }

  lemma StepBound(m: real, s: real, rho: real, limit: real)
    requires m >= 0.0 && 0.0 <= s <= rho && rho <= limit / (m + 1.0)
    ensures m * s <= limit
  {
    ProductSign(m + 1.0, rho - s, (m + 1.0) * (rho - s));
    assert (m + 1.0) * (limit / (m + 1.0)) == limit;
    ProductSign(m + 1.0, limit / (m + 1.0) - rho, (m + 1.0) * (limit / (m + 1.0) - rho));
    assert (m + 1.0) * s == m * s + s;
    assert (m + 1.0) * (limit / (m + 1.0) - rho) == limit - (m + 1.0) * rho;
    assert (m + 1.0) * (rho - s) == (m + 1.0) * rho - (m + 1.0) * s;
  }

  lemma ComposeAt(f: real -> real, phi: real -> real, c: real, x: real, v: real, a: real,
                  p: real, d1: real, d2: real, rho1: real, k1: real, rho2: real, k2: real,
                  q: real, m: real, rho: real, bound: real, y: real, v2: real, a2: real)
    requires Taylor2(f, c, x, v, a, rho1, k1) && Taylor2(phi, x, p, d1, d2, rho2, k2)
    requires v2 == d1 * v && a2 == d1 * a + d2 * (v * v)
    requires q == Abs(a) / 2.0 + k1 && m == Abs(v) + q
    requires rho <= rho1 && rho <= 1.0 && rho <= rho2 / (m + 1.0)
    requires bound == ErrorBound(Abs(v), q, k1, Abs(d1), Abs(d2 / 2.0), k2, m) && Abs(y - c) <= rho
    ensures Abs(phi(f(y)) - Quadratic(p, v2, a2, y - c)) <= bound * Cube(y - c)
  {
    hide Abs, Cube, Quadratic, Drift, Taylor2, ErrorBound;
    var t, d := y - c, f(y) - x;
    var s := Abs(t);
    var s2 := s * s;
    var s3 := s2 * s;
    CubeIs(t, s, s2, s3);
    TaylorBounds(f, c, x, v, a, rho1, k1);
    TaylorBounds(phi, x, p, d1, d2, rho2, k2);
    TaylorAt(f, c, x, v, a, rho1, k1, y);
    DisplacementBound(d, t, x, v, a, f(y), k1, s3);
    AbsNonNegative(a);
    AbsNonNegative(v);
    AbsNonNegative(t);
    var vh, e := v * t, d - Drift(v, a, t);
    Displacement(t, s, s2, s3, v, a, k1, d, vh, e, q, m);
    StepBound(m, s, rho, rho2);
    TaylorAt(phi, x, p, d1, d2, rho2, k2, f(y));
    ComposeError(t, s, s2, s3, v, a, k1, d, e, vh, q, m, p, d1, d2, k2, phi(f(y)), bound, v2, a2);
  }

  lemma CubeIs(t: real, s: real, s2: real, s3: real)
    requires s == Abs(t) && s2 == s * s && s3 == s2 * s
    ensures Cube(t) == s3
  {
  }

  lemma DisplacementBound(d: real, t: real, x: real, v: real, a: real, y: real, k: real, s3: real)
    requires d == y - x && Abs(y - Quadratic(x, v, a, t)) <= k * Cube(t) && s3 == Cube(t)
    ensures Abs(d - Drift(v, a, t)) <= k * s3
  {
  }

  lemma BoundNonNegative(av: real, q: real, k: real, ad1: real, aw: real, kp: real, m: real)
    requires av >= 0.0 && q >= 0.0 && k >= 0.0 && ad1 >= 0.0 && aw >= 0.0 && kp >= 0.0 && m >= 0.0
    ensures ErrorBound(av, q, k, ad1, aw, kp, m) >= 0.0
  {
    var m2 := m * m;
    ProductSign(m, m, m2);
    ProductSign(m2, m, m2 * m);
    ProductSign(kp, m2 * m, kp * (m2 * m));
    ProductSign(ad1, k, ad1 * k);
    ProductSign(q, av + m, q * (av + m));
    ProductSign(aw, q * (av + m), aw * (q * (av + m)));
  }

  /** The chain rule to second order. */
  lemma SmoothCompose(f: real -> real, phi: real -> real, h: real -> real, c: real, x: real, v: real, a: real,
                      p: real, d1: real, d2: real, v2: real, a2: real)
    requires Smooth(f, c, x, v, a) && Smooth(phi, x, p, d1, d2)
    requires forall y :: h(y) == phi(f(y))
    requires v2 == d1 * v && a2 == d1 * a + d2 * (v * v)
    ensures Smooth(h, c, p, v2, a2)
  {
    hide Quadratic, Cube, ErrorBound, Taylor2, Abs;
    var rho1, k1 :| Taylor2(f, c, x, v, a, rho1, k1);
    var rho2, k2 :| Taylor2(phi, x, p, d1, d2, rho2, k2);
    TaylorBounds(f, c, x, v, a, rho1, k1);
    TaylorBounds(phi, x, p, d1, d2, rho2, k2);
    var q := Abs(a) / 2.0 + k1;
    var m := Abs(v) + q;
    PositiveQuotient(rho2, m + 1.0);
    var rho := Min(Min(rho1, 1.0), rho2 / (m + 1.0));
    var bound := ErrorBound(Abs(v), q, k1, Abs(d1), Abs(d2 / 2.0), k2, m);
    AbsNonNegative(v);
    AbsNonNegative(a);
    AbsNonNegative(d1);
    AbsNonNegative(d2 / 2.0);
    BoundNonNegative(Abs(v), q, k1, Abs(d1), Abs(d2 / 2.0), k2, m);
    forall y | Abs(y - c) <= rho
      ensures Abs(h(y) - Quadratic(p, v2, a2, y - c)) <= bound * Cube(y - c)
    {
      ComposeAt(f, phi, c, x, v, a, p, d1, d2, rho1, k1, rho2, k2, q, m, rho, bound, y, v2, a2);
    }
    SmoothIntro(h, c, p, v2, a2, rho, bound);
  }

  /** A function that is exactly quadratic around `c`. */
  lemma SmoothExact(f: real -> real, c: real, f0: real, d1: real, d2: real)
    requires forall y :: f(y) == Quadratic(f0, d1, d2, y - c)
    ensures Smooth(f, c, f0, d1, d2)
  {
    assert Taylor2(f, c, f0, d1, d2, 1.0, 0.0);
  }

  lemma SmoothConstant(f: real -> real, c: real, r: real)
    requires forall y :: f(y) == r
    ensures Smooth(f, c, r, 0.0, 0.0)
  {
    SmoothExact(f, c, r, 0.0, 0.0);
  }

  lemma SmoothAffine(f: real -> real, h: real -> real, r: real, b: real, c: real, x: real, v: real, a: real,
                     x2: real, v2: real, a2: real)
    requires Smooth(f, c, x, v, a) && forall y :: h(y) == r * f(y) + b
    requires x2 == r * x + b && v2 == r * v && a2 == r * a
    ensures Smooth(h, c, x2, v2, a2)
  {
    var phi := u => r * u + b;
    forall u
      ensures phi(u) == Quadratic(x2, r, 0.0, u - x)
    {
      assert r * u == r * x + r * (u - x);
    }
    SmoothExact(phi, x, x2, r, 0.0);
    SmoothCompose(f, phi, h, c, x, v, a, x2, r, 0.0, v2, a2);
  }

  lemma SmoothSum(f: real -> real, g: real -> real, h: real -> real, c: real,
                  x: real, v: real, a: real, y: real, w: real, b: real, x2: real, v2: real, a2: real)
    requires Smooth(f, c, x, v, a) && Smooth(g, c, y, w, b) && forall u :: h(u) == f(u) + g(u)
    requires x2 == x + y && v2 == v + w && a2 == a + b
    ensures Smooth(h, c, x2, v2, a2)
  {
    hide Quadratic, Cube, Taylor2, Abs;
    var rho1, k1 :| Taylor2(f, c, x, v, a, rho1, k1);
    var rho2, k2 :| Taylor2(g, c, y, w, b, rho2, k2);
    TaylorBounds(f, c, x, v, a, rho1, k1);
    TaylorBounds(g, c, y, w, b, rho2, k2);
    var rho := Min(rho1, rho2);
    forall u | Abs(u - c) <= rho
      ensures Abs(h(u) - Quadratic(x2, v2, a2, u - c)) <= (k1 + k2) * Cube(u - c)
    {
      TaylorAt(f, c, x, v, a, rho1, k1, u);
      TaylorAt(g, c, y, w, b, rho2, k2, u);
      QuadraticSum(x, v, a, y, w, b, u - c);
      SumAt(f(u) - Quadratic(x, v, a, u - c), g(u) - Quadratic(y, w, b, u - c), k1, k2, Cube(u - c));
    }
    SmoothIntro(h, c, x2, v2, a2, rho, k1 + k2);
  }

  lemma SumAt(x: real, y: real, k1: real, k2: real, c: real)
    requires Abs(x) <= k1 * c && Abs(y) <= k2 * c
    ensures Abs(x + y) <= (k1 + k2) * c
  {
    hide Abs;
    assert (k1 + k2) * c == k1 * c + k2 * c;
    AbsSum(x, y);
  }

  lemma QuadraticSum(x: real, v: real, a: real, y: real, w: real, b: real, h: real)
    ensures Quadratic(x + y, v + w, a + b, h) == Quadratic(x, v, a, h) + Quadratic(y, w, b, h)
  {
  }

  lemma SmoothSquare(f: real -> real, h: real -> real, c: real, x: real, v: real, a: real,
                     x2: real, v2: real, a2: real)
    requires Smooth(f, c, x, v, a) && forall y :: h(y) == f(y) * f(y)
    requires x2 == x * x && v2 == 2.0 * x * v && a2 == 2.0 * x * a + 2.0 * (v * v)
    ensures Smooth(h, c, x2, v2, a2)
  {
    var phi := u => u * u;
    forall u
      ensures phi(u) == Quadratic(x2, 2.0 * x, 2.0, u - x)
    {
      assert u * u == x * x + 2.0 * x * (u - x) + (u - x) * (u - x);
    }
    SmoothExact(phi, x, x2, 2.0 * x, 2.0);
    SmoothCompose(f, phi, h, c, x, v, a, x2, 2.0 * x, 2.0, v2, a2);
  }

  /** The square of `x + y` minus that of `x - y`, in the three Taylor coefficients. */
  lemma Polarization(x: real, v: real, a: real, y: real, w: real, b: real)
    ensures 0.25 * ((x + y) * (x + y)) + -0.25 * ((x - y) * (x - y)) == x * y
    ensures 0.25 * (2.0 * (x + y) * (v + w)) + -0.25 * (2.0 * (x - y) * (v - w)) == x * w + v * y
    ensures 0.25 * (2.0 * (x + y) * (a + b) + 2.0 * ((v + w) * (v + w)))
          + -0.25 * (2.0 * (x - y) * (a - b) + 2.0 * ((v - w) * (v - w)))
         == x * b + 2.0 * (v * w) + a * y
  {
  }

  /** The product rule, by polarization. */
  lemma SmoothProduct(f: real -> real, g: real -> real, h: real -> real, c: real,
                      x: real, v: real, a: real, y: real, w: real, b: real, x2: real, v2: real, a2: real)
    requires Smooth(f, c, x, v, a) && Smooth(g, c, y, w, b) && forall u :: h(u) == f(u) * g(u)
    requires x2 == x * y && v2 == x * w + v * y && a2 == x * b + 2.0 * (v * w) + a * y
    ensures Smooth(h, c, x2, v2, a2)
  {
    hide Smooth;
    Polarization(x, v, a, y, w, b);
    var part := QuarterSum(f, g, c, x, v, a, y, w, b);
    var rest := QuarterDifference(f, g, c, x, v, a, y, w, b);
    forall u
      ensures h(u) == part(u) + rest(u)
    {
      Polarization(f(u), 0.0, 0.0, g(u), 0.0, 0.0);
    }
    SmoothSum(part, rest, h, c,
              0.25 * ((x + y) * (x + y)), 0.25 * (2.0 * (x + y) * (v + w)),
              0.25 * (2.0 * (x + y) * (a + b) + 2.0 * ((v + w) * (v + w))),
              -0.25 * ((x - y) * (x - y)), -0.25 * (2.0 * (x - y) * (v - w)),
              -0.25 * (2.0 * (x - y) * (a - b) + 2.0 * ((v - w) * (v - w))), x2, v2, a2);
  }

  lemma QuarterSum(f: real -> real, g: real -> real, c: real, x: real, v: real, a: real, y: real, w: real, b: real)
    returns (h: real -> real)
    requires Smooth(f, c, x, v, a) && Smooth(g, c, y, w, b)
    ensures forall u :: h(u) == 0.25 * ((f(u) + g(u)) * (f(u) + g(u)))
    ensures Smooth(h, c, 0.25 * ((x + y) * (x + y)), 0.25 * (2.0 * (x + y) * (v + w)),
                   0.25 * (2.0 * (x + y) * (a + b) + 2.0 * ((v + w) * (v + w))))
  {
    hide Smooth;
    var sum := u => f(u) + g(u);
    SmoothSum(f, g, sum, c, x, v, a, y, w, b, x + y, v + w, a + b);
    h := QuarterSquare(sum, 0.25, c, x + y, v + w, a + b, 0.25 * ((x + y) * (x + y)), 0.25 * (2.0 * (x + y) * (v + w)),
                       0.25 * (2.0 * (x + y) * (a + b) + 2.0 * ((v + w) * (v + w))));
  }

  lemma QuarterDifference(f: real -> real, g: real -> real, c: real, x: real, v: real, a: real, y: real, w: real, b: real)
    returns (h: real -> real)
    requires Smooth(f, c, x, v, a) && Smooth(g, c, y, w, b)
    ensures forall u :: h(u) == -0.25 * ((f(u) - g(u)) * (f(u) - g(u)))
    ensures Smooth(h, c, -0.25 * ((x - y) * (x - y)), -0.25 * (2.0 * (x - y) * (v - w)),
                   -0.25 * (2.0 * (x - y) * (a - b) + 2.0 * ((v - w) * (v - w))))
  {
    hide Smooth;
    var dif := u => f(u) - g(u);
    SmoothDifference(f, g, dif, c, x, v, a, y, w, b, x - y, v - w, a - b);
    h := QuarterSquare(dif, -0.25, c, x - y, v - w, a - b,
                       -0.25 * ((x - y) * (x - y)), -0.25 * (2.0 * (x - y) * (v - w)),
                       -0.25 * (2.0 * (x - y) * (a - b) + 2.0 * ((v - w) * (v - w))));
  }

  lemma SmoothDifference(f: real -> real, g: real -> real, h: real -> real, c: real,
                         x: real, v: real, a: real, y: real, w: real, b: real, x2: real, v2: real, a2: real)
    requires Smooth(f, c, x, v, a) && Smooth(g, c, y, w, b) && forall u :: h(u) == f(u) - g(u)
    requires x2 == x - y && v2 == v - w && a2 == a - b
    ensures Smooth(h, c, x2, v2, a2)
  {
    hide Smooth;
    var minus := u => -1.0 * g(u) + 0.0;
    SmoothAffine(g, minus, -1.0, 0.0, c, y, w, b, -y, -w, -b);
    SmoothSum(f, minus, h, c, x, v, a, -y, -w, -b, x2, v2, a2);
  }

  lemma QuarterSquare(f: real -> real, r: real, c: real, x: real, v: real, a: real, x2: real, v2: real, a2: real)
    returns (h: real -> real)
    requires Smooth(f, c, x, v, a)
    requires x2 == r * (x * x) && v2 == r * (2.0 * x * v) && a2 == r * (2.0 * x * a + 2.0 * (v * v))
    ensures forall u :: h(u) == r * (f(u) * f(u))
    ensures Smooth(h, c, x2, v2, a2)
  {
    hide Smooth;
    var square := u => f(u) * f(u);
    h := u => r * square(u) + 0.0;
    SmoothSquare(f, square, c, x, v, a, x * x, 2.0 * x * v, 2.0 * x * a + 2.0 * (v * v));
    SmoothAffine(square, h, r, 0.0, c, x * x, 2.0 * x * v, 2.0 * x * a + 2.0 * (v * v), x2, v2, a2);
  }

  // ----- the derivatives of a smooth function are unique

  ghost predicate Below(x: real, k: real, s: real) { Abs(x) <= k * s }

  lemma OnlyZeroIsSmall(x: real, k: real, rho: real)
    requires rho > 0.0 && k >= 0.0 && forall s | 0.0 < s <= rho :: Below(x, k, s)
    ensures x == 0.0
  {
    if x != 0.0 {
      var k1 := 2.0 * (k + 1.0);
      var s0 := Abs(x) / k1;
      PositiveQuotient(Abs(x), k1);
      var s := Min(rho, s0);
      assert Below(x, k, s);
      Halved(Abs(x), k, k1, s0, s);
    }
  }

  lemma Halved(x: real, k: real, k1: real, s0: real, s: real)
    requires x > 0.0 && k >= 0.0 && k1 == 2.0 * (k + 1.0) && s0 == x / k1 && 0.0 < s <= s0
    ensures k * s < x
  {
    MulLe(k, s, s0, k * s, k * s0);
    assert s0 * k1 == x;
    assert s0 * k1 == 2.0 * (k * s0) + 2.0 * s0;
  }

  /** Two expansions of one function, compared at the step `h`. */
  lemma GapOf(f: real -> real, c: real, f0: real, d1: real, d2: real, e1: real, e2: real,
              rho1: real, k1: real, rho2: real, k2: real, h: real, s3: real, xh: real, yh: real, m: real)
    requires Taylor2(f, c, f0, d1, d2, rho1, k1) && Taylor2(f, c, f0, e1, e2, rho2, k2)
    requires Abs(h) <= rho1 && Abs(h) <= rho2 && s3 == Cube(h)
    requires xh == (d1 - e1) * h && yh == (d2 - e2) * (h * h) && m == (k1 + k2) * s3
    ensures Abs(xh + yh / 2.0) <= m
  {
    hide *;
    var u := c + h;
    TaylorAt(f, c, f0, d1, d2, rho1, k1, u);
    TaylorAt(f, c, f0, e1, e2, rho2, k2, u);
    GapAt(f(u), f0, d1, d2, e1, e2, h, k1 * s3, k2 * s3, xh, yh, m);
  }

  lemma DerivativeGap(f: real -> real, c: real, f0: real, d1: real, d2: real, e1: real, e2: real,
                      rho1: real, k1: real, rho2: real, k2: real, s: real, x: real, y: real, k: real)
    requires Taylor2(f, c, f0, d1, d2, rho1, k1) && Taylor2(f, c, f0, e1, e2, rho2, k2)
    requires 0.0 < s && s <= rho1 && s <= rho2 && s <= 1.0
    requires x == d1 - e1 && y == d2 - e2 && k == k1 + k2
    ensures Below(x, k, s) && Below(y, 2.0 * k, s)
  {
    hide Taylor2, Cube, Below;
    var s2 := s * s;
    var s3 := s2 * s;
    var xs, ys, ks := x * s, y * s2, k * s3;
    StepCube(s, s3);
    Negated(x, y, s, s2, xs, ys);
    GapOf(f, c, f0, d1, d2, e1, e2, rho1, k1, rho2, k2, s, s3, xs, ys, ks);
    GapOf(f, c, f0, d1, d2, e1, e2, rho1, k1, rho2, k2, -s, s3, -xs, ys, ks);
    TaylorBounds(f, c, f0, d1, d2, rho1, k1);
    TaylorBounds(f, c, f0, e1, e2, rho2, k2);
    GapParts(xs, ys, ks);
    TwoSided(x, y, s, k, s2, s3, xs, ys, ks);
  }

  lemma Negated(x: real, y: real, s: real, s2: real, xs: real, ys: real)
    requires s2 == s * s && xs == x * s && ys == y * s2
    ensures ys == y * (s * s) && ys == y * ((-s) * (-s)) && -xs == x * (-s)
  {
  }

  lemma TwoSided(x: real, y: real, s: real, k: real, s2: real, s3: real, xs: real, ys: real, ks: real)
    requires 0.0 < s <= 1.0 && s2 == s * s && s3 == s2 * s && k >= 0.0
    requires xs == x * s && ys == y * s2 && ks == k * s3 && Abs(xs) <= ks && Abs(ys) <= 2.0 * ks
    ensures Below(x, k, s) && Below(y, 2.0 * k, s)
  {
    hide Abs, Below;
    SmallPowers(s, s2, s3);
    ProductSign(s, s, s2);
    var m := k * s2;
    Reassociate(k, s, s2, s3, m, ks);
    Divided(xs, x, s, m, ks);
    Divided(ys, y, s2, 2.0 * (k * s), 2.0 * ks);
    MulLe(k, s2, s, m, k * s);
    BelowIs(x, k, s);
    BelowIs(y, 2.0 * k, s);
    assert (2.0 * k) * s == 2.0 * (k * s);
  }

  lemma Reassociate(k: real, s: real, s2: real, s3: real, m: real, ks: real)
    requires s2 == s * s && s3 == s2 * s && m == k * s2 && ks == k * s3
    ensures ks == m * s && 2.0 * ks == (2.0 * (k * s)) * s2
  {
  }

  lemma BelowIs(x: real, k: real, s: real)
    ensures Below(x, k, s) == (Abs(x) <= k * s)
  {
  }

  lemma StepCube(s: real, s3: real)
    requires s > 0.0 && s3 == s * s * s
    ensures Cube(s) == s3 && Cube(-s) == s3
  {
  }

  lemma GapAt(y: real, f0: real, d1: real, d2: real, e1: real, e2: real, h: real, m1: real, m2: real,
              xh: real, yh: real, m: real)
    requires Abs(y - Quadratic(f0, d1, d2, h)) <= m1 && Abs(y - Quadratic(f0, e1, e2, h)) <= m2
    requires xh == (d1 - e1) * h && yh == (d2 - e2) * (h * h) && m == m1 + m2
    ensures Abs(xh + yh / 2.0) <= m
  {
    assert xh == d1 * h - e1 * h;
    assert yh == d2 * (h * h) - e2 * (h * h);
  }

  lemma GapParts(a: real, b: real, m: real)
    requires Abs(a + b / 2.0) <= m && Abs(-a + b / 2.0) <= m
    ensures Abs(a) <= m && Abs(b) <= 2.0 * m
  {
  }

  lemma Divided(p: real, x: real, s: real, m: real, ms: real)
    requires p == x * s && ms == m * s && s > 0.0 && Abs(p) <= ms
    ensures Abs(x) <= m
  {
    if x > m {
      ProductSign(x - m, s, (x - m) * s);
    } else if -x > m {
      ProductSign(-x - m, s, (-x - m) * s);
    }
  }

  /** A function has at most one value, slope and bend at a point. */
  lemma SmoothUnique(f: real -> real, c: real, f0: real, d1: real, d2: real, g0: real, e1: real, e2: real)
    requires Smooth(f, c, f0, d1, d2) && Smooth(f, c, g0, e1, e2)
    ensures f0 == g0 && d1 == e1 && d2 == e2
  {
    hide Below, Taylor2;
    var rho1, k1 :| Taylor2(f, c, f0, d1, d2, rho1, k1);
    var rho2, k2 :| Taylor2(f, c, g0, e1, e2, rho2, k2);
    TaylorBounds(f, c, f0, d1, d2, rho1, k1);
    TaylorBounds(f, c, g0, e1, e2, rho2, k2);
    TaylorValue(f, c, f0, d1, d2, rho1, k1);
    TaylorValue(f, c, g0, e1, e2, rho2, k2);
    var rho, x, y, k := Min(1.0, Min(rho1, rho2)), d1 - e1, d2 - e2, k1 + k2;
    var m := 2.0 * k;
    forall s | 0.0 < s <= rho
      ensures Below(x, k, s)
      ensures Below(y, m, s)
    {
      DerivativeGap(f, c, f0, d1, d2, e1, e2, rho1, k1, rho2, k2, s, x, y, k);
    }
    OnlyZeroIsSmall(x, k, rho);
    OnlyZeroIsSmall(y, m, rho);
  }

  lemma TaylorValue(f: real -> real, c: real, f0: real, d1: real, d2: real, rho: real, k: real)
    requires Taylor2(f, c, f0, d1, d2, rho, k)
    ensures f(c) == f0
  {
    TaylorAt(f, c, f0, d1, d2, rho, k, c);
    assert Quadratic(f0, d1, d2, 0.0) == f0 && Cube(0.0) == 0.0 && k * 0.0 == 0.0;
  }
}
