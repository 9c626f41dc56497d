/** The elementary functions the program takes from its libraries, with the facts the proofs use. */
module Elementary {
  import opened LinearAlgebra
  import opened Calculus

  datatype Library = Library(
    exp: real -> real,
    sqrt: real -> real,
    sin: real -> real,
    cos: real -> real,
    tanh: real -> real
  )

  /** The first two derivatives of the hyperbolic tangent, from its value. */
  function TanhSlope(y: real): real { 1.0 - y * y }

  function TanhBend(y: real): real { -2.0 * y * (1.0 - y * y) }

  ghost predicate Standard(lib: Library) {
    && (forall t :: lib.exp(t) > 0.0)
    && (forall t | t <= 0.0 :: lib.exp(t) <= 1.0)
    && (forall v | v >= 0.0 :: lib.sqrt(v) >= 0.0 && lib.sqrt(v) * lib.sqrt(v) == v)
    && (forall x :: Smooth(lib.sin, x, lib.sin(x), lib.cos(x), -lib.sin(x)))
    && (forall x :: Smooth(lib.cos, x, lib.cos(x), -lib.sin(x), -lib.cos(x)))
    && (forall x :: Smooth(lib.tanh, x, lib.tanh(x), TanhSlope(lib.tanh(x)), TanhBend(lib.tanh(x))))
  }

  /** `Eigen::VectorXd::norm`. */
  function Norm(lib: Library, v: Vec): real { lib.sqrt(Dot(v, v)) }

  /** `1 / (1 + exp(-x))`; the guard is only there to make the division total. */
  function Sigmoid(lib: Library, x: real): real {
    var y := 1.0 + lib.exp(-x);
    if y == 0.0 then 0.0 else 1.0 / y
  }

  lemma ExpFacts(lib: Library, t: real)
    requires Standard(lib)
    ensures lib.exp(t) > 0.0
    ensures t <= 0.0 ==> lib.exp(t) <= 1.0
  {
  }

  lemma SqrtFacts(lib: Library, v: real) returns (s: real)
    requires Standard(lib) && v >= 0.0
    ensures s == lib.sqrt(v) && s >= 0.0 && s * s == v
    ensures v > 0.0 ==> s > 0.0
  {
    s := lib.sqrt(v);
    assert s >= 0.0 && s * s == v;
    hide Standard;
    RootPositive(s, v);
  }

  lemma RootPositive(s: real, v: real)
    requires s >= 0.0 && s * s == v
    ensures v > 0.0 ==> s > 0.0
  {
    if s == 0.0 { NamedProduct(s, s, v, 0.0, 0.0); }
  }

  lemma SigmoidRange(lib: Library, x: real)
    requires Standard(lib)
    ensures 0.0 < Sigmoid(lib, x) < 1.0
  {
    ExpFacts(lib, -x);
    hide Standard;
    BelowOne(1.0 + lib.exp(-x));
  }

  lemma BelowOne(y: real)
    requires y > 1.0
    ensures 0.0 < 1.0 / y < 1.0
  {
    PositiveQuotient(1.0, y);
    PositiveQuotient(y - 1.0, y);
    assert (y - 1.0) / y == 1.0 - 1.0 / y;
  }

  // ----- square root, reciprocal and absolute value

  /** The error of the quadratic expansion of the square root; `p == 1 / sqrt(x)`, `w` is the increment. */
  lemma SqrtError(p: real, w: real, h: real, s: real)
    requires p * s == 1.0 && h == 2.0 * s * w + w * w
    ensures w - (h * p / 2.0 - h * h * (p * p * p) / 8.0) == p * p * (w * w) * (h * p / 2.0 + w) / 4.0
  {
    var z, q := h * p / 2.0, p * (w * w) / 2.0;
    assert z == (p * s) * w + q;
    assert w - z == -q;
    assert h * h * (p * p * p) / 8.0 == p / 2.0 * (z * z);
    assert z * z - w * w == (z - w) * (z + w) == q * (z + w);
    assert p / 2.0 * (z * z) - q == p / 2.0 * (z * z - w * w);
    assert p / 2.0 * (q * (z + w)) == p * p * (w * w) * (z + w) / 4.0;
  }

  lemma NamedSqrtError(p: real, w: real, h: real, s: real, d1: real, d2: real,
                       pp: real, w2: real, t: real, z: real, tz: real)
    requires p * s == 1.0 && h == 2.0 * s * w + w * w && d1 == p / 2.0 && d2 == -(p * p * p) / 4.0
    requires pp == p * p && w2 == w * w && t == pp * w2 && z == h * p / 2.0 + w && tz == t * z
    ensures w - Drift(d1, d2, h) == tz / 4.0
  {
    SqrtError(p, w, h, s);
    NamedProduct(pp, w2, t, p * p, w * w);
    NamedProduct(t, z, tz, p * p * (w * w), h * p / 2.0 + w);
    DriftOf(p, h, d1, d2);
  }

  lemma DriftOf(p: real, h: real, d1: real, d2: real)
    requires d1 == p / 2.0 && d2 == -(p * p * p) / 4.0
    ensures Drift(d1, d2, h) == h * p / 2.0 - h * h * (p * p * p) / 8.0
  {
    assert d1 * h == h * p / 2.0;
    assert d2 * (h * h) == -(h * h * (p * p * p)) / 4.0;
  }

  /** The increment of the square root is at most `|h| / sqrt(x)`. */
  lemma SqrtIncrement(p: real, w: real, h: real, s: real, b: real)
    requires p > 0.0 && s > 0.0 && p * s == 1.0 && s + w >= 0.0 && h == 2.0 * s * w + w * w && b == Abs(h) * p
    ensures Abs(w) <= b
  {
    var y := 2.0 * s + w;
    assert h == w * y;
    AbsScaled(w, y, h);
    DivideBound(Abs(w), y, s, p, Abs(h), b) by { AbsNonNegative(w); }
  }

  lemma AbsScaled(w: real, y: real, h: real)
    requires h == w * y && y >= 0.0
    ensures Abs(h) == Abs(w) * y
  {
    if w >= 0.0 { ProductSign(w, y, h); } else { ProductSign(-w, y, -h); }
  }

  lemma DivideBound(x: real, y: real, s: real, p: real, h: real, b: real)
    requires x >= 0.0 && y >= s && p > 0.0 && p * s == 1.0 && h == x * y && b == h * p
    ensures x <= b
  {
    var xs := x * s;
    MulLe(x, s, y, xs, h);
    MulLe(p, xs, h, p * xs, p * h);
    assert p * xs == x * (p * s);
  }

  lemma SqrtRemainder(p: real, w: real, h: real, s: real, k: real,
                      pp: real, w2: real, t: real, z: real, tz: real)
    requires p > 0.0 && s > 0.0 && p * s == 1.0 && s + w >= 0.0 && h == 2.0 * s * w + w * w
    requires k == p * p * p * p * p
    requires pp == p * p && w2 == w * w && t == pp * w2 && z == h * p / 2.0 + w && tz == t * z
    ensures Abs(tz / 4.0) <= k * Cube(h)
  {
    hide Abs, Cube;
    var b := Abs(h) * p;
    SqrtIncrement(p, w, h, s, b);
    var b2 := b * b;
    AbsProduct(w, w, w2, b, b, b2);
    HalfBound(h, p, w, b, z);
    ProductSign(p, p, pp);
    AbsIs(pp);
    var tMax := pp * b2;
    AbsProduct(pp, w2, t, pp, b2, tMax);
    var bound := tMax * (2.0 * b);
    AbsProduct(t, z, tz, tMax, 2.0 * b, bound);
    Quarter(tz, bound);
    SqrtConstant(p, h, b, k, pp, b2, tMax, bound);
  }

  lemma AbsIs(x: real)
    requires x >= 0.0
    ensures Abs(x) == x
  {
  }

  lemma HalfBound(h: real, p: real, w: real, b: real, z: real)
    requires p > 0.0 && b == Abs(h) * p && Abs(w) <= b && z == h * p / 2.0 + w
    ensures Abs(z) <= 2.0 * b
  {
    AbsProduct(h, p, h * p, Abs(h), p, b);
    AbsSum(h * p / 2.0, w);
  }

  lemma Quarter(x: real, b: real)
    requires Abs(x) <= b
    ensures Abs(x / 4.0) <= b / 2.0
  {
  }

  lemma SqrtConstant(p: real, h: real, b: real, k: real, pp: real, b2: real, tMax: real, bound: real)
    requires b == Abs(h) * p && k == p * p * p * p * p
    requires pp == p * p && b2 == b * b && tMax == pp * b2 && bound == tMax * (2.0 * b)
    ensures bound / 2.0 == k * Cube(h)
  {
    var s := Abs(h);
    assert b2 * b == s * s * s * (p * p * p);
    assert bound / 2.0 == pp * (b2 * b);
  }

  /** The square root has derivatives `1 / (2 sqrt(x))` and `-1 / (4 sqrt(x)^3)` where `x > 0`. */
  lemma SmoothSqrt(lib: Library, x: real, s: real, p: real, d1: real, d2: real)
    requires Standard(lib) && x > 0.0 && s == lib.sqrt(x) && p * s == 1.0
    requires d1 == p / 2.0 && d2 == -(p * p * p) / 4.0
    ensures Smooth(lib.sqrt, x, s, d1, d2)
  {
    hide Quadratic, Cube, Abs;
    var root := SqrtFacts(lib, x);
    var k := p * p * p * p * p;
    PositiveFactor(p, s);
    PowerPositive(p, k);
    forall u | Abs(u - x) <= x
      ensures Abs(lib.sqrt(u) - Quadratic(s, d1, d2, u - x)) <= k * Cube(u - x)
    {
      AbsBelow(u - x, x);
      var r := SqrtFacts(lib, u);
      SqrtAt(x, u, s, r, p, d1, d2, k);
    }
    hide Standard;
    SmoothIntro(lib.sqrt, x, s, d1, d2, x, k);
  }

  lemma AbsBelow(x: real, b: real)
    requires Abs(x) <= b
    ensures -b <= x <= b
  {
  }

  lemma PositiveFactor(p: real, s: real)
    requires p * s == 1.0 && s > 0.0
    ensures p > 0.0
  {
    if p <= 0.0 { ProductSign(-p, s, -(p * s)); }
  }

  lemma PowerPositive(p: real, k: real)
    requires p > 0.0 && k == p * p * p * p * p
    ensures k >= 0.0
  {
    var p2 := p * p;
    ProductSign(p, p, p2);
    ProductSign(p2, p, p2 * p);
    ProductSign(p2 * p, p, p2 * p * p);
    ProductSign(p2 * p * p, p, k);
  }

  lemma SqrtAt(x: real, u: real, s: real, r: real, p: real, d1: real, d2: real, k: real)
    requires s > 0.0 && r >= 0.0 && s * s == x && r * r == u && p > 0.0 && p * s == 1.0
    requires d1 == p / 2.0 && d2 == -(p * p * p) / 4.0 && k == p * p * p * p * p
    ensures Abs(r - Quadratic(s, d1, d2, u - x)) <= k * Cube(u - x)
  {
    hide Abs, Cube;
    var w, h := r - s, u - x;
    assert h == 2.0 * s * w + w * w;
    var pp, w2, z := p * p, w * w, h * p / 2.0 + w;
    var t := pp * w2;
    var tz := t * z;
    NamedSqrtError(p, w, h, s, d1, d2, pp, w2, t, z, tz);
    SqrtRemainder(p, w, h, s, k, pp, w2, t, z, tz);
    hide Drift;
    assert r - Quadratic(s, d1, d2, h) == tz / 4.0;
  }

  // ----- reciprocal

  function Reciprocal(u: real): real { if u == 0.0 then 0.0 else 1.0 / u }

  /** The error of the quadratic expansion of the reciprocal; `r == 1 / x`, `w == 1 / (x + h)`. */
  lemma ReciprocalError(r: real, w: real, x: real, h: real)
    requires r * x == 1.0 && w * (x + h) == 1.0
    ensures w == r - w * (r * h)
    ensures w - (r - r * r * h + r * r * r * (h * h)) == -(r * r * r * (h * h * h) * w)
  {
    assert w == w * (r * x) && r == r * (w * (x + h));
    var z := r * h;
    assert w == r - w * z;
    assert w == r - (r - w * z) * z;
    assert w == r - (r - (r - w * z) * z) * z;
  }

  lemma ReciprocalBound(r: real, w: real, z: real)
    requires w == r - w * z && Abs(z) <= 0.5
    ensures Abs(w) <= 2.0 * Abs(r)
  {
    AbsProduct(w, z, w * z, Abs(w), 0.5, Abs(w) * 0.5);
    AbsSum(r, -(w * z));
  }

  lemma ReciprocalAt(x: real, u: real, r: real, w: real, d1: real, d2: real, r3: real, k: real)
    requires r * x == 1.0 && w * u == 1.0 && Abs(u - x) <= Abs(x) / 2.0
    requires d1 == -(r * r) && d2 == 2.0 * r3 && r3 == r * r * r && k == Abs(r3) * (2.0 * Abs(r))
    ensures Abs(w - Quadratic(r, d1, d2, u - x)) <= k * Cube(u - x)
  {
    hide Abs, Cube;
    var h := u - x;
    NamedProduct(w, u, 1.0, w, x + h);
    ReciprocalError(r, w, x, h);
    var z, h3 := r * h, h * h * h;
    HalfStep(r, x, h, z);
    ReciprocalBound(r, w, z);
    var t := r3 * h3;
    var tw := t * w;
    ReciprocalRemainder(r, w, h, r3, h3, t, tw, k);
    NamedReciprocalError(r, w, h, d1, d2, r3, h3, t, tw);
    AbsNegated(tw);
  }

  lemma NamedReciprocalError(r: real, w: real, h: real, d1: real, d2: real, r3: real, h3: real, t: real, tw: real)
    requires d1 == -(r * r) && d2 == 2.0 * r3 && r3 == r * r * r && h3 == h * h * h && t == r3 * h3 && tw == t * w
    requires w - (r - r * r * h + r * r * r * (h * h)) == -(r * r * r * (h * h * h) * w)
    ensures w - Quadratic(r, d1, d2, h) == -tw
  {
    NamedProduct(r3, h3, t, r * r * r, h * h * h);
    NamedProduct(t, w, tw, r * r * r * (h * h * h), w);
    assert d1 * h == -(r * r * h);
    assert d2 * (h * h) == 2.0 * (r * r * r * (h * h));
  }

  lemma HalfStep(r: real, x: real, h: real, z: real)
    requires r * x == 1.0 && Abs(h) <= Abs(x) / 2.0 && z == r * h
    ensures Abs(z) <= 0.5
  {
    AbsExact(r, x, 1.0);
    AbsIs(1.0);
    hide Abs;
    AbsProduct(r, h, z, Abs(r), Abs(x) / 2.0, Abs(r) * (Abs(x) / 2.0));
    assert Abs(r) * (Abs(x) / 2.0) == 0.5;
  }

  lemma AbsExact(x: real, y: real, z: real)
    requires z == x * y
    ensures Abs(z) == Abs(x) * Abs(y)
  {
    if y >= 0.0 { AbsScaled(x, y, z); } else { AbsScaled(x, -y, -z); }
  }

  lemma ReciprocalRemainder(r: real, w: real, h: real, r3: real, h3: real, t: real, tw: real, k: real)
    requires Abs(w) <= 2.0 * Abs(r) && k == Abs(r3) * (2.0 * Abs(r)) && h3 == h * h * h && t == r3 * h3 && tw == t * w
    ensures Abs(tw) <= k * Cube(h)
  {
    var c := Cube(h);
    CubeAbs(h, h3);
    hide Abs, Cube;
    var ar3, wMax := Abs(r3), 2.0 * Abs(r);
    var tMax := ar3 * c;
    AbsProduct(r3, h3, t, ar3, c, tMax);
    var b := tMax * wMax;
    AbsProduct(t, w, tw, tMax, wMax, b);
    Reorder(ar3, c, wMax, tMax, b, k);
  }

  lemma Reorder(x: real, c: real, y: real, xc: real, b: real, k: real)
    requires xc == x * c && b == xc * y && k == x * y
    ensures b == k * c
  {
  }

  lemma CubeAbs(h: real, h3: real)
    requires h3 == h * h * h
    ensures Abs(h3) == Cube(h)
  {
    var h2, s := h * h, Abs(h);
    var s2 := s * s;
    AbsExact(h, h, h2);
    AbsExact(h2, h, h3);
    assert Abs(h2) == s2;
    assert Cube(h) == s2 * s;
  }

  lemma AbsNegated(x: real)
    ensures Abs(-x) == Abs(x)
  {
  }

  /** The reciprocal has derivatives `-1 / x^2` and `2 / x^3` where `x != 0`. */
  lemma SmoothReciprocal(x: real, r: real, d1: real, d2: real)
    requires x != 0.0 && r == Reciprocal(x) && d1 == -(r * r) && d2 == 2.0 * (r * r * r)
    ensures Smooth(Reciprocal, x, r, d1, d2)
  {
    hide Abs, Cube, Quadratic;
    var r3, ar := r * r * r, 2.0 * Abs(r);
    var k := Abs(r3) * ar;
    AbsNonNegative(r3);
    AbsNonNegative(r);
    ProductSign(Abs(r3), ar, k);
    AbsOfNonZero(x);
    ReciprocalOf(x);
    forall u | Abs(u - x) <= Abs(x) / 2.0
      ensures Abs(Reciprocal(u) - Quadratic(r, d1, d2, u - x)) <= k * Cube(u - x)
    {
      AwayFromZero(x, u);
      ReciprocalOf(u);
      ReciprocalAt(x, u, r, Reciprocal(u), d1, d2, r3, k);
    }
    SmoothIntro(Reciprocal, x, r, d1, d2, Abs(x) / 2.0, k);
  }

  lemma ReciprocalOf(x: real)
    requires x != 0.0
    ensures Reciprocal(x) * x == 1.0
  {
  }

  lemma AbsOfNonZero(x: real)
    requires x != 0.0
    ensures Abs(x) > 0.0
  {
  }

  lemma AwayFromZero(x: real, u: real)
    requires x != 0.0 && Abs(u - x) <= Abs(x) / 2.0
    ensures u != 0.0
  {
  }

  /** `fabs`, under a name of its own so that it can be passed as a function. */
  function Magnitude(u: real): real { if u >= 0.0 then u else -u }

  /** The absolute value has derivatives `+-1` and `0` where `x != 0`. */
  lemma SmoothMagnitude(x: real, d1: real)
    requires x != 0.0 && d1 == if x >= 0.0 then 1.0 else -1.0
    ensures Smooth(Magnitude, x, Magnitude(x), d1, 0.0)
  {
    hide Cube, Quadratic, Smooth;
    AbsOfNonZero(x);
    forall u | Abs(u - x) <= Abs(x)
      ensures Abs(Magnitude(u) - Quadratic(Magnitude(x), d1, 0.0, u - x)) <= 1.0 * Cube(u - x)
    {
      MagnitudeAt(x, u, d1, 1.0);
    }
    SmoothIntro(Magnitude, x, Magnitude(x), d1, 0.0, Abs(x), 1.0);
  }

  lemma MagnitudeAt(x: real, u: real, d1: real, k: real)
    requires Abs(u - x) <= Abs(x) && d1 == (if x >= 0.0 then 1.0 else -1.0) && k >= 0.0
    ensures Abs(Magnitude(u) - Quadratic(Magnitude(x), d1, 0.0, u - x)) <= k * Cube(u - x)
  {
    hide Cube;
    var c := Cube(u - x);
    ProductSign(k, c, k * c);
    assert 0.0 * ((u - x) * (u - x)) == 0.0;
    assert d1 * (u - x) == if x >= 0.0 then u - x else x - u;
  }

  /** `std::max(u, 0.0)`. */
  function Ramp(u: real): real { if u > 0.0 then u else 0.0 }

  lemma SmoothRamp(x: real, d1: real)
    requires x != 0.0 && d1 == if x > 0.0 then 1.0 else 0.0
    ensures Smooth(Ramp, x, Ramp(x), d1, 0.0)
  {
    hide Cube, Quadratic, Smooth;
    AbsOfNonZero(x);
    forall u | Abs(u - x) <= Abs(x)
      ensures Abs(Ramp(u) - Quadratic(Ramp(x), d1, 0.0, u - x)) <= 1.0 * Cube(u - x)
    {
      RampAt(x, u, d1, 1.0);
    }
    SmoothIntro(Ramp, x, Ramp(x), d1, 0.0, Abs(x), 1.0);
  }

  lemma RampAt(x: real, u: real, d1: real, k: real)
    requires Abs(u - x) <= Abs(x) && d1 == (if x > 0.0 then 1.0 else 0.0) && k >= 0.0
    ensures Abs(Ramp(u) - Quadratic(Ramp(x), d1, 0.0, u - x)) <= k * Cube(u - x)
  {
    hide Cube;
    var c := Cube(u - x);
    ProductSign(k, c, k * c);
    assert 0.0 * ((u - x) * (u - x)) == 0.0;
    assert d1 * (u - x) == if x > 0.0 then u - x else 0.0;
  }

  lemma SmoothSame(f: real -> real, h: real -> real, c: real, x: real, v: real, a: real)
    requires Smooth(f, c, x, v, a) && forall y :: h(y) == f(y)
    ensures Smooth(h, c, x, v, a)
  {
    hide Smooth;
    SmoothAffine(f, h, 1.0, 0.0, c, x, v, a, x, v, a);
  }
}
