/** Real vectors and matrices. A matrix is the list of its rows (a Jacobian, a metric) or, for the
    column-major weights of the learning stack, the list of its columns; `Dots` and `Combine` are the
    two ways such a list acts on a vector, and they are adjoint to each other. */
module LinearAlgebra {

  type Vec = seq<real>

  /** `std::numeric_limits<double>::epsilon()`, two to the power -52. */
  const EPSILON: real := 1.0 / 4503599627370496.0

  function Abs(x: real): (r: real)
    ensures r >= 0.0
  {
    if x >= 0.0 then x else -x
  }

  function Max(x: real, y: real): real { if x >= y then x else y }

  function Min(x: real, y: real): real { if x <= y then x else y }

  /** `std::clamp`. */
  function Clamp(x: real, lo: real, hi: real): real { if x < lo then lo else if hi < x then hi else x }

  function Zero(n: nat): (r: Vec)
    ensures |r| == n
  {
    seq(n, _ => 0.0)
  }

  function Unit(n: nat, i: nat): (r: Vec)
    ensures |r| == n
  {
    seq(n, k => if k == i then 1.0 else 0.0)
  }

  function Plus(a: Vec, b: Vec): (r: Vec)
    requires |a| == |b|
    ensures |r| == |a|
  {
    seq(|a|, i requires 0 <= i < |a| => a[i] + b[i])
  }

  function Minus(a: Vec, b: Vec): (r: Vec)
    requires |a| == |b|
    ensures |r| == |a|
  {
    seq(|a|, i requires 0 <= i < |a| => a[i] - b[i])
  }

  function Scale(k: real, a: Vec): (r: Vec)
    ensures |r| == |a|
  {
    seq(|a|, i requires 0 <= i < |a| => k * a[i])
  }

  /** A product under a name, so that the solver treats it as one value. */
  function Times(x: real, y: real): real { x * y }

  function SumOfProducts(a: Vec, b: Vec): real
    requires |a| == |b|
  {
    if a == [] then 0.0 else a[0] * b[0] + SumOfProducts(a[1..], b[1..])
  }

  function Dot(a: Vec, b: Vec): real
    requires |a| == |b|
  {
    SumOfProducts(a, b)
  }

  ghost predicate IsMatrix(m: seq<Vec>, n: nat) {
    forall i | 0 <= i < |m| :: |m[i]| == n
  }

  /** One dot product per listed vector: `M x` for the rows of `M`. */
  function Dots(m: seq<Vec>, x: Vec): (r: Vec)
    requires IsMatrix(m, |x|)
    ensures |r| == |m|
  {
    seq(|m|, i requires 0 <= i < |m| => Dot(m[i], x))
  }

  /** The weighted sum of the listed vectors: `transpose(M) w` for the rows of `M`. */
  function Combine(m: seq<Vec>, w: Vec, n: nat): (r: Vec)
    requires |m| == |w| && IsMatrix(m, n)
    ensures |r| == n
  {
    if m == [] then Zero(n) else Plus(Scale(w[0], m[0]), Combine(m[1..], w[1..], n))
  }

  lemma TimesOf(x: real, y: real)
    ensures Times(x, y) == x * y && Times(x, y) == Times(y, x)
  {
  }

  lemma TimesPlus(x: real, y: real, z: real)
    ensures Times(x, y + z) == Times(x, y) + Times(x, z) && Times(x, y - z) == Times(x, y) - Times(x, z)
  {
  }

  lemma ScaleAt(k: real, a: Vec, r: nat)
    requires r < |a|
    ensures Scale(k, a)[r] == Times(k, a[r])
  {
    TimesOf(k, a[r]);
  }

  // ----- dot products

  lemma DotHead(a: Vec, b: Vec)
    requires |a| == |b| > 0
    ensures Dot(a, b) == Times(a[0], b[0]) + Dot(a[1..], b[1..])
  {
    TimesOf(a[0], b[0]);
  }

  lemma {:induction false} DotPlus(a: Vec, b: Vec, c: Vec)
    requires |a| == |b| == |c|
    ensures Dot(a, Plus(b, c)) == Dot(a, b) + Dot(a, c)
  {
    if a != [] {
      assert Plus(b, c)[1..] == Plus(b[1..], c[1..]);
      DotPlus(a[1..], b[1..], c[1..]);
    }
  }

  lemma {:induction false} DotMinus(a: Vec, b: Vec, c: Vec)
    requires |a| == |b| == |c|
    ensures Dot(a, Minus(b, c)) == Dot(a, b) - Dot(a, c)
  {
    if a != [] {
      assert Minus(b, c)[1..] == Minus(b[1..], c[1..]);
      DotMinus(a[1..], b[1..], c[1..]);
    }
  }

  lemma ScaleTail(k: real, a: Vec)
    requires a != []
    ensures Scale(k, a)[1..] == Scale(k, a[1..])
  {
    forall i | 0 <= i < |a| - 1
      ensures Scale(k, a)[1..][i] == Scale(k, a[1..])[i]
    {
      assert Scale(k, a)[1..][i] == Scale(k, a)[i + 1] == k * a[i + 1];
    }
  }

  lemma {:induction false} DotScale(k: real, a: Vec, b: Vec)
    requires |a| == |b|
    ensures Dot(a, Scale(k, b)) == k * Dot(a, b)
  {
    if a != [] {
      ScaleTail(k, b);
      DotScale(k, a[1..], b[1..]);
      assert Dot(a, Scale(k, b)) == a[0] * (k * b[0]) + k * Dot(a[1..], b[1..]);
    }
  }

  lemma {:induction false} ScaleDot(k: real, a: Vec, b: Vec)
    requires |a| == |b|
    ensures Dot(Scale(k, a), b) == k * Dot(a, b)
  {
    if a != [] {
      ScaleTail(k, a);
      ScaleDot(k, a[1..], b[1..]);
      assert Dot(Scale(k, a), b) == (k * a[0]) * b[0] + k * Dot(a[1..], b[1..]);
    }
  }

  lemma {:induction false} DotSymmetric(a: Vec, b: Vec)
    requires |a| == |b|
    ensures Dot(a, b) == Dot(b, a)
  {
    if a != [] { DotSymmetric(a[1..], b[1..]); }
  }

  lemma {:induction false} DotZero(a: Vec)
    ensures Dot(a, Zero(|a|)) == 0.0
  {
    if a != [] {
      assert Zero(|a|)[1..] == Zero(|a| - 1);
      DotZero(a[1..]);
    }
  }

  lemma {:induction false} DotUnit(a: Vec, i: nat)
    requires i < |a|
    ensures Dot(a, Unit(|a|, i)) == a[i]
  {
    if i == 0 {
      assert Unit(|a|, 0)[1..] == Zero(|a| - 1);
      DotZero(a[1..]);
    } else {
      assert Unit(|a|, i)[1..] == Unit(|a| - 1, i - 1);
      DotUnit(a[1..], i - 1);
    }
  }

  lemma {:induction false} DotConcat(a: Vec, b: Vec, c: Vec, d: Vec)
    requires |a| == |c| && |b| == |d|
    ensures Dot(a + b, c + d) == Dot(a, c) + Dot(b, d)
  {
    if a == [] {
      assert a + b == b && c + d == d;
    } else {
      assert (a + b)[1..] == a[1..] + b && (c + d)[1..] == c[1..] + d;
      DotConcat(a[1..], b, c[1..], d);
    }
  }

  lemma ProductSign(x: real, y: real, p: real)
    requires p == x * y
    ensures x >= 0.0 && y >= 0.0 ==> p >= 0.0
    ensures x > 0.0 && y > 0.0 ==> p > 0.0
  {
  }

  /** The square of `x`, named so that its sign stays available to linear reasoning. */
  lemma Square(x: real) returns (p: real)
    ensures p == x * x && p >= 0.0
    ensures x != 0.0 ==> p > 0.0
  {
    p := x * x;
    if x >= 0.0 { ProductSign(x, x, p); } else { ProductSign(-x, -x, p); }
  }

  /** The squared length is non-negative and vanishes only at zero. */
  lemma {:induction false} SquaredLength(a: Vec)
    ensures Dot(a, a) >= 0.0
    ensures Dot(a, a) == 0.0 <==> a == Zero(|a|)
  {
    if a != [] {
      var p := Square(a[0]);
      SquaredLength(a[1..]);
      assert Zero(|a|)[1..] == Zero(|a| - 1);
      if a == Zero(|a|) {
        DotZero(a);
      } else if a[0] == 0.0 {
        assert a == [0.0] + a[1..];
        assert a[1..] != Zero(|a| - 1);
      }
    }
  }

  lemma CauchySchwarzScalars(aa: real, ab: real, bb: real, da: real, db: real, dd: real)
    requires bb > 0.0 && dd >= 0.0 && dd == bb * da - ab * db
    requires da == bb * aa - ab * ab && db == bb * ab - ab * bb
    ensures ab * ab <= aa * bb
  {
    assert db == 0.0;
    assert dd == bb * da;
    assert da >= 0.0;
  }

  /** Cauchy-Schwarz. */
  lemma CauchySchwarz(a: Vec, b: Vec)
    requires |a| == |b|
    ensures Dot(a, b) * Dot(a, b) <= Dot(a, a) * Dot(b, b)
  {
    hide Dot, Scale, Minus;
    var aa, ab, bb := Dot(a, a), Dot(a, b), Dot(b, b);
    SquaredLength(a);
    SquaredLength(b);
    if bb == 0.0 {
      DotZero(a);
    } else {
      var d := Minus(Scale(bb, a), Scale(ab, b));
      DotMinus(d, Scale(bb, a), Scale(ab, b));
      DotScale(bb, d, a);
      DotScale(ab, d, b);
      DotSymmetric(d, a);
      DotSymmetric(d, b);
      DotMinus(a, Scale(bb, a), Scale(ab, b));
      DotScale(bb, a, a);
      DotScale(ab, a, b);
      DotMinus(b, Scale(bb, a), Scale(ab, b));
      DotScale(bb, b, a);
      DotScale(ab, b, b);
      DotSymmetric(b, a);
      SquaredLength(d);
      CauchySchwarzScalars(aa, ab, bb, Dot(a, d), Dot(b, d), Dot(d, d));
    }
  }

  // ----- lists of vectors

  /** `Combine` is the transpose of `Dots`. */
  lemma {:induction false} Adjoint(m: seq<Vec>, w: Vec, x: Vec)
    requires |m| == |w| && IsMatrix(m, |x|)
    ensures Dot(Combine(m, w, |x|), x) == Dot(w, Dots(m, x))
  {
    if m == [] {
      DotZero(x);
      DotSymmetric(Zero(|x|), x);
    } else {
      var rest := Combine(m[1..], w[1..], |x|);
      Adjoint(m[1..], w[1..], x);
      assert Dots(m, x)[1..] == Dots(m[1..], x);
      DotSymmetric(Combine(m, w, |x|), x);
      DotPlus(x, Scale(w[0], m[0]), rest);
      DotScale(w[0], x, m[0]);
      DotSymmetric(x, m[0]);
      DotSymmetric(x, rest);
    }
  }

  lemma PlusPairs(a: Vec, b: Vec, c: Vec, d: Vec)
    requires |a| == |b| == |c| == |d|
    ensures Plus(Plus(a, b), Plus(c, d)) == Plus(Plus(a, c), Plus(b, d))
  {
  }

  lemma {:induction false} CombinePlus(m: seq<Vec>, a: Vec, b: Vec, n: nat)
    requires |m| == |a| == |b| && IsMatrix(m, n)
    ensures Combine(m, Plus(a, b), n) == Plus(Combine(m, a, n), Combine(m, b, n))
  {
    hide Combine, Scale;
    if m == [] {
      assert m == [] && a == [] && b == [] && Plus(a, b) == [];
      CombineNothing(n);
      assert Plus(Zero(n), Zero(n)) == Zero(n);
    } else {
      assert Plus(a, b)[1..] == Plus(a[1..], b[1..]);
      CombinePlus(m[1..], a[1..], b[1..], n);
      CombineCons(m, a, n);
      CombineCons(m, b, n);
      CombineCons(m, Plus(a, b), n);
      ScaleOfSum(a[0], b[0], m[0]);
      PlusPairs(Scale(a[0], m[0]), Scale(b[0], m[0]), Combine(m[1..], a[1..], n), Combine(m[1..], b[1..], n));
    }
  }

  lemma ScaleOfSum(x: real, y: real, a: Vec)
    ensures Scale(x + y, a) == Plus(Scale(x, a), Scale(y, a))
  {
    forall i | 0 <= i < |a|
      ensures Scale(x + y, a)[i] == Plus(Scale(x, a), Scale(y, a))[i]
    {
      ProductOfSum(a[i], x, y, x + y, Scale(x, a)[i], Scale(y, a)[i], Scale(x + y, a)[i]);
    }
  }

  lemma {:induction false} CombineScale(k: real, m: seq<Vec>, a: Vec, n: nat)
    requires |m| == |a| && IsMatrix(m, n)
    ensures Combine(m, Scale(k, a), n) == Scale(k, Combine(m, a, n))
  {
    hide Plus, Combine;
    if m == [] {
      assert m == [] && a == [] && Scale(k, a) == [];
      CombineNothing(n);
      ScaleZero(k, n);
    } else {
      ScaleTail(k, a);
      CombineScale(k, m[1..], a[1..], n);
      CombineCons(m, a, n);
      CombineCons(m, Scale(k, a), n);
      ScaleOfPlus(k, Scale(a[0], m[0]), Combine(m[1..], a[1..], n));
      ScaleOfScale(k, a[0], Scale(k, a)[0], m[0]);
    }
  }

  lemma CombineNothing(n: nat)
    ensures Combine([], [], n) == Zero(n)
  {
  }

  lemma ScaleZero(k: real, n: nat)
    ensures Scale(k, Zero(n)) == Zero(n)
  {
  }

  lemma CombineCons(m: seq<Vec>, a: Vec, n: nat)
    requires |m| == |a| > 0 && IsMatrix(m, n)
    ensures Combine(m, a, n) == Plus(Scale(a[0], m[0]), Combine(m[1..], a[1..], n))
  {
    hide Plus, Scale;
  }

  lemma ScaleOfPlus(k: real, a: Vec, b: Vec)
    requires |a| == |b|
    ensures Scale(k, Plus(a, b)) == Plus(Scale(k, a), Scale(k, b))
  {
    forall i | 0 <= i < |a|
      ensures Scale(k, Plus(a, b))[i] == Plus(Scale(k, a), Scale(k, b))[i]
    {
      ProductOfSum(k, a[i], b[i], Plus(a, b)[i], Scale(k, a)[i], Scale(k, b)[i], Scale(k, Plus(a, b))[i]);
    }
  }

  lemma ProductOfSum(k: real, x: real, y: real, z: real, kx: real, ky: real, kz: real)
    requires z == x + y && kx == k * x && ky == k * y && kz == k * z
    ensures kz == kx + ky
  {
  }

  lemma ScaleOfScale(k: real, x: real, kx: real, a: Vec)
    requires kx == k * x
    ensures Scale(k, Scale(x, a)) == Scale(kx, a)
  {
    forall i | 0 <= i < |a|
      ensures Scale(k, Scale(x, a))[i] == Scale(kx, a)[i]
    {
      ProductTwice(k, x, kx, a[i], Scale(x, a)[i], Scale(k, Scale(x, a))[i], Scale(kx, a)[i]);
    }
  }

  lemma ProductTwice(k: real, x: real, kx: real, y: real, xy: real, left: real, right: real)
    requires kx == k * x && xy == x * y && left == k * xy && right == kx * y
    ensures left == right
  {
  }

  lemma {:induction false} CombineZero(m: seq<Vec>, n: nat)
    requires IsMatrix(m, n)
    ensures Combine(m, Zero(|m|), n) == Zero(n)
  {
    if m != [] {
      assert Zero(|m|)[1..] == Zero(|m| - 1);
      CombineZero(m[1..], n);
    }
  }

  lemma {:induction false} CombineConcat(m: seq<Vec>, k: seq<Vec>, a: Vec, b: Vec, n: nat)
    requires |m| == |a| && |k| == |b| && IsMatrix(m, n) && IsMatrix(k, n)
    ensures Combine(m + k, a + b, n) == Plus(Combine(m, a, n), Combine(k, b, n))
  {
    if m == [] {
      assert m + k == k && a + b == b;
    } else {
      assert (m + k)[1..] == m[1..] + k && (a + b)[1..] == a[1..] + b;
      CombineConcat(m[1..], k, a[1..], b, n);
    }
  }

  lemma CombineSingle(u: Vec, w: real, r: nat)
    requires r < |u|
    ensures Combine([u], [w], |u|)[r] == Times(w, u[r])
  {
    ScaleAt(w, u, r);
    hide Scale, Times;
    assert [u][1..] == [] && [w][1..] == [];
    assert Combine([u][1..], [w][1..], |u|) == Zero(|u|);
  }

  lemma CombineLast(us: seq<Vec>, w: Vec, n: nat, r: nat)
    requires |us| == |w| > 0 && IsMatrix(us, n) && r < n
    ensures var k := |us| - 1; Combine(us, w, n)[r] == Combine(us[..k], w[..k], n)[r] + Times(w[k], us[k][r])
  {
    hide Combine, Times;
    var k := |us| - 1;
    assert us == us[..k] + [us[k]] && w == w[..k] + [w[k]];
    CombineConcat(us[..k], [us[k]], w[..k], [w[k]], n);
    CombineSingle(us[k], w[k], r);
  }

  lemma DotsPlus(m: seq<Vec>, a: Vec, b: Vec)
    requires |a| == |b| && IsMatrix(m, |a|)
    ensures Dots(m, Plus(a, b)) == Plus(Dots(m, a), Dots(m, b))
  {
    forall i | 0 <= i < |m|
      ensures Dots(m, Plus(a, b))[i] == Plus(Dots(m, a), Dots(m, b))[i]
    {
      DotPlus(m[i], a, b);
    }
  }

  lemma DotsMinus(m: seq<Vec>, a: Vec, b: Vec)
    requires |a| == |b| && IsMatrix(m, |a|)
    ensures Dots(m, Minus(a, b)) == Minus(Dots(m, a), Dots(m, b))
  {
    forall i | 0 <= i < |m|
      ensures Dots(m, Minus(a, b))[i] == Minus(Dots(m, a), Dots(m, b))[i]
    {
      DotMinus(m[i], a, b);
    }
  }

  // ----- matrix products and quadratic forms

  function Identity(n: nat): (r: seq<Vec>)
    ensures |r| == n && IsMatrix(r, n)
  {
    seq(n, i requires 0 <= i < n => Unit(n, i))
  }

  function MatPlus(a: seq<Vec>, b: seq<Vec>): (r: seq<Vec>)
    requires |a| == |b| && forall i | 0 <= i < |a| :: |a[i]| == |b[i]|
    ensures |r| == |a| && forall i | 0 <= i < |a| :: |r[i]| == |a[i]|
  {
    seq(|a|, i requires 0 <= i < |a| => Plus(a[i], b[i]))
  }

  function MatScale(k: real, a: seq<Vec>): (r: seq<Vec>)
    ensures |r| == |a| && forall i | 0 <= i < |a| :: |r[i]| == |a[i]|
  {
    seq(|a|, i requires 0 <= i < |a| => Scale(k, a[i]))
  }

  function ZeroMatrix(rows: nat, n: nat): (r: seq<Vec>)
    ensures |r| == rows && IsMatrix(r, n)
  {
    seq(rows, _ => Zero(n))
  }

  function Outer(a: Vec, b: Vec): (r: seq<Vec>)
    ensures |r| == |a| && IsMatrix(r, |b|)
  {
    seq(|a|, i requires 0 <= i < |a| => Scale(a[i], b))
  }

  /** The rows of `A B`. */
  function MatMul(a: seq<Vec>, b: seq<Vec>, n: nat): (r: seq<Vec>)
    requires IsMatrix(a, |b|) && IsMatrix(b, n)
    ensures |r| == |a| && IsMatrix(r, n)
  {
    seq(|a|, i requires 0 <= i < |a| => Combine(b, a[i], n))
  }

  /** The rows of `transpose(A) B`: a sum of outer products of matching rows. */
  function TransposeMul(a: seq<Vec>, b: seq<Vec>, n: nat): (r: seq<Vec>)
    requires |a| == |b| && IsMatrix(a, n) && IsMatrix(b, n)
    ensures |r| == n && IsMatrix(r, n)
  {
    if a == [] then ZeroMatrix(n, n) else MatPlus(Outer(a[0], b[0]), TransposeMul(a[1..], b[1..], n))
  }

  /** `transpose(J) M J`. */
  function Pullback(j: seq<Vec>, m: seq<Vec>, n: nat): (r: seq<Vec>)
    requires |m| == |j| && IsMatrix(m, |j|) && IsMatrix(j, n)
    ensures |r| == n && IsMatrix(r, n)
  {
    TransposeMul(j, MatMul(m, j, n), n)
  }

  lemma DotsMatPlus(a: seq<Vec>, b: seq<Vec>, v: Vec)
    requires |a| == |b| && IsMatrix(a, |v|) && IsMatrix(b, |v|)
    ensures Dots(MatPlus(a, b), v) == Plus(Dots(a, v), Dots(b, v))
  {
    forall i | 0 <= i < |a|
      ensures Dots(MatPlus(a, b), v)[i] == Plus(Dots(a, v), Dots(b, v))[i]
    {
      DotSymmetric(Plus(a[i], b[i]), v);
      DotPlus(v, a[i], b[i]);
      DotSymmetric(a[i], v);
      DotSymmetric(b[i], v);
    }
  }

  lemma DotsMatScale(k: real, a: seq<Vec>, v: Vec)
    requires IsMatrix(a, |v|)
    ensures Dots(MatScale(k, a), v) == Scale(k, Dots(a, v))
  {
    forall i | 0 <= i < |a|
      ensures Dots(MatScale(k, a), v)[i] == Scale(k, Dots(a, v))[i]
    {
      DotSymmetric(Scale(k, a[i]), v);
      DotScale(k, v, a[i]);
      DotSymmetric(a[i], v);
    }
  }

  lemma DotsIdentity(v: Vec)
    ensures Dots(Identity(|v|), v) == v
  {
    forall i | 0 <= i < |v|
      ensures Dots(Identity(|v|), v)[i] == v[i]
    {
      DotSymmetric(Unit(|v|, i), v);
      DotUnit(v, i);
    }
  }

  lemma DotsZeroMatrix(rows: nat, v: Vec)
    ensures Dots(ZeroMatrix(rows, |v|), v) == Zero(rows)
  {
    forall i | 0 <= i < rows
      ensures Dots(ZeroMatrix(rows, |v|), v)[i] == 0.0
    {
      DotSymmetric(Zero(|v|), v);
      DotZero(v);
    }
  }

  lemma {:induction false} DotsTransposeMul(a: seq<Vec>, b: seq<Vec>, v: Vec)
    requires |a| == |b| && IsMatrix(a, |v|) && IsMatrix(b, |v|)
    ensures Dots(TransposeMul(a, b, |v|), v) == Combine(a, Dots(b, v), |v|)
  {
    if a == [] {
      DotsZeroMatrix(|v|, v);
    } else {
      var rest := TransposeMul(a[1..], b[1..], |v|);
      DotsTransposeMul(a[1..], b[1..], v);
      DotsMatPlus(Outer(a[0], b[0]), rest, v);
      assert Dots(b, v)[1..] == Dots(b[1..], v);
      forall i | 0 <= i < |v|
        ensures Dots(Outer(a[0], b[0]), v)[i] == Scale(Dot(b[0], v), a[0])[i]
      {
        DotSymmetric(Scale(a[0][i], b[0]), v);
        DotScale(a[0][i], v, b[0]);
        DotSymmetric(v, b[0]);
      }
      assert Dots(Outer(a[0], b[0]), v) == Scale(Dots(b, v)[0], a[0]);
    }
  }

  lemma DotsMatMul(a: seq<Vec>, b: seq<Vec>, v: Vec)
    requires IsMatrix(a, |b|) && IsMatrix(b, |v|)
    ensures Dots(MatMul(a, b, |v|), v) == Dots(a, Dots(b, v))
  {
    forall i | 0 <= i < |a|
      ensures Dots(MatMul(a, b, |v|), v)[i] == Dots(a, Dots(b, v))[i]
    {
      Adjoint(b, a[i], v);
    }
  }

  /** The bilinear form `u . M v`. */
  function Form(m: seq<Vec>, u: Vec, v: Vec): real
    requires |m| == |u| && IsMatrix(m, |v|)
  {
    Dot(u, Dots(m, v))
  }

  /** A metric pulled back through `J` acts as `u, v -> (J u) . M (J v)`. */
  lemma PullbackForm(j: seq<Vec>, m: seq<Vec>, u: Vec, v: Vec)
    requires |u| == |v| && |m| == |j| && IsMatrix(m, |j|) && IsMatrix(j, |u|)
    ensures Form(Pullback(j, m, |u|), u, v) == Form(m, Dots(j, u), Dots(j, v))
  {
    DotsTransposeMul(j, MatMul(m, j, |v|), v);
    DotsMatMul(m, j, v);
    var w := Dots(m, Dots(j, v));
    DotSymmetric(u, Combine(j, w, |u|));
    Adjoint(j, w, u);
    DotSymmetric(w, Dots(j, u));
  }

  lemma MatPlusForm(a: seq<Vec>, b: seq<Vec>, u: Vec, v: Vec)
    requires |a| == |b| == |u| && IsMatrix(a, |v|) && IsMatrix(b, |v|)
    ensures Form(MatPlus(a, b), u, v) == Form(a, u, v) + Form(b, u, v)
  {
    DotsMatPlus(a, b, v);
    DotPlus(u, Dots(a, v), Dots(b, v));
  }

  lemma MatScaleForm(k: real, a: seq<Vec>, u: Vec, v: Vec)
    requires |a| == |u| && IsMatrix(a, |v|)
    ensures Form(MatScale(k, a), u, v) == k * Form(a, u, v)
  {
    DotsMatScale(k, a, v);
    DotScale(k, u, Dots(a, v));
  }

  lemma IdentityForm(u: Vec, v: Vec)
    requires |u| == |v|
    ensures Form(Identity(|v|), u, v) == Dot(u, v)
  {
    DotsIdentity(v);
  }

  lemma ZeroMatrixForm(u: Vec, v: Vec)
    ensures Form(ZeroMatrix(|u|, |v|), u, v) == 0.0
  {
    DotsZeroMatrix(|u|, v);
    DotZero(u);
  }

  lemma DotsOuter(a: Vec, b: Vec, v: Vec)
    requires |b| == |v|
    ensures Dots(Outer(a, b), v) == Scale(Dot(b, v), a)
  {
    hide Dot;
    forall i | 0 <= i < |a|
      ensures Dots(Outer(a, b), v)[i] == Scale(Dot(b, v), a)[i]
    {
      DotSymmetric(Scale(a[i], b), v);
      DotScale(a[i], v, b);
      DotSymmetric(v, b);
    }
  }

  lemma OuterForm(a: Vec, b: Vec, u: Vec, v: Vec)
    requires |a| == |u| && |b| == |v|
    ensures Form(Outer(a, b), u, v) == Dot(b, v) * Dot(a, u)
  {
    hide Dot, Dots, Outer, Scale;
    DotsOuter(a, b, v);
    DotSymmetric(u, Scale(Dot(b, v), a));
    ScaleDot(Dot(b, v), a, u);
  }

  /** `u . M v == v . M u` for all vectors, which is entrywise symmetry (see `SymmetricEntries`),
      and `v . M v >= 0`. */
  ghost predicate SymmetricPsd(m: seq<Vec>) {
    && IsMatrix(m, |m|)
    && (forall u: Vec, v: Vec | |u| == |v| == |m| :: Form(m, u, v) == Form(m, v, u))
    && (forall v: Vec | |v| == |m| :: Form(m, v, v) >= 0.0)
  }

  lemma UnitForm(m: seq<Vec>, i: nat, j: nat)
    requires IsMatrix(m, |m|) && i < |m| && j < |m|
    ensures Form(m, Unit(|m|, i), Unit(|m|, j)) == m[i][j]
  {
    var n := |m|;
    DotSymmetric(Unit(n, i), Dots(m, Unit(n, j)));
    DotUnit(Dots(m, Unit(n, j)), i);
    DotUnit(m[i], j);
  }

  lemma SymmetricEntries(m: seq<Vec>, i: nat, j: nat)
    requires SymmetricPsd(m) && i < |m| && j < |m|
    ensures m[i][j] == m[j][i] && m[i][i] >= 0.0
  {
    UnitForm(m, i, j);
    UnitForm(m, j, i);
    UnitForm(m, i, i);
  }

  lemma PullbackPsd(j: seq<Vec>, m: seq<Vec>, n: nat)
    requires |m| == |j| && IsMatrix(j, n) && SymmetricPsd(m)
    ensures SymmetricPsd(Pullback(j, m, n))
  {
    var p := Pullback(j, m, n);
    forall u: Vec, v: Vec | |u| == |v| == |p|
      ensures Form(p, u, v) == Form(p, v, u)
    {
      PullbackForm(j, m, u, v);
      PullbackForm(j, m, v, u);
    }
    forall v: Vec | |v| == |p|
      ensures Form(p, v, v) >= 0.0
    {
      PullbackForm(j, m, v, v);
    }
  }

  lemma MatPlusPsd(a: seq<Vec>, b: seq<Vec>)
    requires |a| == |b| && SymmetricPsd(a) && SymmetricPsd(b)
    ensures SymmetricPsd(MatPlus(a, b))
  {
    hide Form, Dot, Dots;
    var p := MatPlus(a, b);
    forall u: Vec, v: Vec | |u| == |v| == |p|
      ensures Form(p, u, v) == Form(p, v, u)
    {
      MatPlusForm(a, b, u, v);
      MatPlusForm(a, b, v, u);
    }
    forall v: Vec | |v| == |p|
      ensures Form(p, v, v) >= 0.0
    {
      MatPlusForm(a, b, v, v);
    }
  }

  lemma MatScalePsd(k: real, a: seq<Vec>)
    requires k >= 0.0 && SymmetricPsd(a)
    ensures SymmetricPsd(MatScale(k, a))
  {
    hide Form, Dot, Dots;
    var p := MatScale(k, a);
    forall u: Vec, v: Vec | |u| == |v| == |p|
      ensures Form(p, u, v) == Form(p, v, u)
    {
      MatScaleForm(k, a, u, v);
      MatScaleForm(k, a, v, u);
    }
    forall v: Vec | |v| == |p|
      ensures Form(p, v, v) >= 0.0
    {
      MatScaleForm(k, a, v, v);
    }
  }

  lemma IdentityPsd(n: nat)
    ensures SymmetricPsd(Identity(n))
  {
    forall u: Vec, v: Vec | |u| == |v| == n
      ensures Form(Identity(n), u, v) == Form(Identity(n), v, u)
    {
      IdentityForm(u, v);
      IdentityForm(v, u);
      DotSymmetric(u, v);
    }
    forall v: Vec | |v| == n
      ensures Form(Identity(n), v, v) >= 0.0
    {
      IdentityForm(v, v);
      SquaredLength(v);
    }
  }

  lemma ZeroMatrixPsd(n: nat)
    ensures SymmetricPsd(ZeroMatrix(n, n))
  {
    forall u: Vec, v: Vec | |u| == |v| == n
      ensures Form(ZeroMatrix(n, n), u, v) == 0.0
    {
      ZeroMatrixForm(u, v);
    }
  }

  lemma OuterPsd(a: Vec)
    ensures SymmetricPsd(Outer(a, a))
  {
    forall u: Vec, v: Vec | |u| == |v| == |a|
      ensures Form(Outer(a, a), u, v) == Form(Outer(a, a), v, u)
    {
      OuterForm(a, a, u, v);
      OuterForm(a, a, v, u);
    }
    forall v: Vec | |v| == |a|
      ensures Form(Outer(a, a), v, v) >= 0.0
    {
      OuterForm(a, a, v, v);
      var p := Square(Dot(a, v));
    }
  }
}
