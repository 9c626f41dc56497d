/** Symmetric positive definite systems: the elimination behind `ldlt().solve` reaches the only solution. */
module DefiniteSystem {
  import opened LinearAlgebra
  import opened Calculus

  ghost predicate Definite(m: seq<Vec>) {
    SymmetricPsd(m) && forall v: Vec | |v| == |m| && v != Zero(|v|) :: Form(m, v, v) > 0.0
  }

  /** A definite system has at most one solution. */
  lemma UniqueSolution(m: seq<Vec>, x: Vec, y: Vec)
    requires Definite(m) && |x| == |y| == |m| && Dots(m, x) == Dots(m, y)
    ensures x == y
  {
    var d := Minus(x, y);
    DotsMinus(m, x, y);
    MinusSelf(Dots(m, x));
    DotZero(d);
    assert Form(m, d, d) == 0.0;
    if d == Zero(|d|) {
      forall i | 0 <= i < |x|
        ensures x[i] == y[i]
      {
        assert d[i] == 0.0;
      }
    }
  }

  lemma MinusSelf(v: Vec)
    ensures Minus(v, v) == Zero(|v|)
  {
  }

  /** Adding a positive multiple of the identity makes a semidefinite matrix definite. */
  lemma OffsetDefinite(m: seq<Vec>, k: real)
    requires SymmetricPsd(m) && k > 0.0
    ensures |m| == |Identity(|m|)| && Definite(MatPlus(m, MatScale(k, Identity(|m|))))
  {
    hide SymmetricPsd, Form, MatPlus, MatScale, Identity, Dot;
    var n := |m|;
    IdentityPsd(n);
    MatScalePsd(k, Identity(n));
    PsdAt(m, Zero(n));
    var s := MatPlus(m, MatScale(k, Identity(n)));
    MatPlusPsd(m, MatScale(k, Identity(n)));
    forall v: Vec | |v| == n && v != Zero(n)
      ensures Form(s, v, v) > 0.0
    {
      OffsetForm(m, k, v, v);
      PsdAt(m, v);
      SquaredLength(v);
      ProductSign(k, Dot(v, v), k * Dot(v, v));
    }
  }

  lemma PsdAt(m: seq<Vec>, v: Vec)
    requires SymmetricPsd(m) && |v| == |m|
    ensures IsMatrix(m, |m|) && Form(m, v, v) >= 0.0
  {
  }

  lemma OffsetForm(m: seq<Vec>, k: real, u: Vec, v: Vec)
    requires |m| == |u| == |v| && IsMatrix(m, |v|)
    ensures IsMatrix(MatPlus(m, MatScale(k, Identity(|m|))), |v|)
    ensures Form(MatPlus(m, MatScale(k, Identity(|m|))), u, v) == Form(m, u, v) + k * Dot(u, v)
  {
    hide Form, Dot;
    MatPlusForm(m, MatScale(k, Identity(|m|)), u, v);
    MatScaleForm(k, Identity(|m|), u, v);
    IdentityForm(u, v);
  }

  /** The offset bounds the solution: `k |x| <= |b|`, squared. */
  lemma SolutionBound(m: seq<Vec>, k: real, x: Vec, b: Vec)
    requires SymmetricPsd(m) && k > 0.0 && |x| == |b| == |m|
    requires Dots(MatPlus(m, MatScale(k, Identity(|m|))), x) == b
    ensures k * k * Dot(x, x) <= Dot(b, b)
  {
    hide Dot, SymmetricPsd, MatPlus, MatScale, Identity;
    PsdAt(m, x);
    OffsetForm(m, k, x, x);
    CauchySchwarz(x, b);
    SquaredLength(x);
    SquaredLength(b);
    assert Form(MatPlus(m, MatScale(k, Identity(|m|))), x, x) == Dot(x, b);
    hide Form;
    BoundScalars(k, Dot(x, x), Dot(x, b), Dot(b, b), Form(m, x, x));
  }

  lemma BoundScalars(k: real, xx: real, xb: real, bb: real, f: real)
    requires k > 0.0 && xx >= 0.0 && bb >= 0.0 && f >= 0.0 && xb == f + k * xx && xb * xb <= xx * bb
    ensures k * k * xx <= bb
  {
    if xx > 0.0 {
      var kx := k * xx;
      ProductSign(k, xx, kx);
      MulLe(kx, kx, xb, kx * kx, kx * xb);
      MulLe(xb, kx, xb, xb * kx, xb * xb);
      assert kx * kx <= xx * bb;
      assert kx * kx == xx * (k * k * xx);
      DivideBoth(xx, k * k * xx, bb);
    } else {
      assert k * k * xx == 0.0;
    }
  }

  lemma DivideBoth(x: real, y: real, z: real)
    requires x > 0.0 && x * y <= x * z
    ensures y <= z
  {
    if y > z { ProductSign(x, y - z, x * (y - z)); }
  }

  // ----- elimination

  function Corner(m: seq<Vec>): (r: seq<Vec>)
    requires m != [] && IsMatrix(m, |m|)
    ensures |r| == |m| - 1 && IsMatrix(r, |r|)
  {
    seq(|m| - 1, i requires 0 <= i < |m| - 1 => m[i + 1][1..])
  }

  /** The Schur complement of the first pivot. */
  function Schur(m: seq<Vec>): (r: seq<Vec>)
    requires m != [] && IsMatrix(m, |m|) && m[0][0] != 0.0
    ensures |r| == |m| - 1 && IsMatrix(r, |r|)
  {
    MatPlus(Corner(m), MatScale(-1.0 / m[0][0], Outer(m[0][1..], m[0][1..])))
  }

  /** Solves by eliminating one unknown after the other; meaningful when no pivot vanishes. */
  function Eliminate(m: seq<Vec>, b: Vec): (x: Vec)
    requires |m| == |b| && IsMatrix(m, |m|)
    ensures |x| == |m|
    decreases |m|
  {
    if m == [] then []
    else if m[0][0] == 0.0 then Zero(|m|)
    else
      var a, r := m[0][0], m[0][1..];
      var y := Eliminate(Schur(m), Minus(b[1..], Scale(b[0] / a, r)));
      [(b[0] - Dot(r, y)) / a] + y
  }

  ghost predicate Symmetric(m: seq<Vec>) { IsMatrix(m, |m|) && forall i, j | 0 <= i < |m| && 0 <= j < |m| :: m[i][j] == m[j][i] }

  lemma DefiniteSymmetric(m: seq<Vec>)
    requires Definite(m)
    ensures Symmetric(m)
  {
    hide Form;
    forall i, j | 0 <= i < |m| && 0 <= j < |m|
      ensures m[i][j] == m[j][i]
    {
      SymmetricEntries(m, i, j);
    }
  }

  lemma DotCons(s: real, y: Vec, a: Vec)
    requires |a| == |y| + 1
    ensures Dot(a, [s] + y) == Times(a[0], s) + Dot(a[1..], y)
  {
    hide Dot, Times;
    DotHead(a, [s] + y);
    assert ([s] + y)[1..] == y;
  }

  /** The rows of a symmetric matrix applied to `[s] + y`. */
  lemma LowerRows(m: seq<Vec>, s: real, y: Vec)
    requires m != [] && Symmetric(m) && |y| == |m| - 1
    ensures Dots(m, [s] + y) == [Times(m[0][0], s) + Dot(m[0][1..], y)] + Plus(Scale(s, m[0][1..]), Dots(Corner(m), y))
  {
    hide Dot, Times, Scale;
    var l, r := Dots(m, [s] + y), Plus(Scale(s, m[0][1..]), Dots(Corner(m), y));
    DotCons(s, y, m[0]);
    forall i | 0 <= i < |y|
      ensures l[i + 1] == r[i]
    {
      DotCons(s, y, m[i + 1]);
      FirstColumn(m, i + 1);
      TimesOf(m[0][i + 1], s);
      ScaleAt(s, m[0][1..], i);
      assert Corner(m)[i] == m[i + 1][1..];
    }
  }

  lemma FirstColumn(m: seq<Vec>, i: nat)
    requires Symmetric(m) && i < |m|
    ensures m[i][0] == m[0][i]
  {
  }

  /** Completing the square in the first coordinate. */
  lemma SchurForm(m: seq<Vec>, y: Vec, z: Vec, s: real, t: real)
    requires m != [] && Symmetric(m) && m[0][0] != 0.0 && |y| == |z| == |m| - 1
    requires s == -(Dot(m[0][1..], y) / m[0][0]) && t == -(Dot(m[0][1..], z) / m[0][0])
    ensures Form(m, [s] + y, [t] + z) == Form(Schur(m), y, z)
  {
    hide Dot, Schur, Corner, Times, Form, Scale;
    var a, r := m[0][0], m[0][1..];
    var ry, rz := Dot(r, y), Dot(r, z);
    LowerRows(m, t, z);
    PivotCancels(a, rz, t);
    var low := Plus(Scale(t, r), Dots(Corner(m), z));
    FormCons(m, s, y, [t] + z, 0.0, low);
    DotPlus(y, Scale(t, r), Dots(Corner(m), z));
    DotScale(t, y, r);
    DotSymmetric(y, r);
    SchurFormParts(m, y, z, -1.0 / a, ry, rz);
    CrossTerm(t, a, rz, ry);
  }

  lemma FormCons(m: seq<Vec>, s: real, y: Vec, w: Vec, top: real, low: Vec)
    requires |m| == |y| + 1 == |w| == |low| + 1 && IsMatrix(m, |w|) && Dots(m, w) == [top] + low
    ensures Form(m, [s] + y, w) == Times(top, s) + Dot(y, low)
  {
    hide Dot, Times;
    DotSymmetric([s] + y, [top] + low);
    DotCons(s, y, [top] + low);
    assert ([top] + low)[1..] == low;
    DotSymmetric(low, y);
  }

  lemma PivotCancels(a: real, x: real, t: real)
    requires a != 0.0 && t == -(x / a)
    ensures Times(a, t) + x == 0.0 && Times(0.0, t) == 0.0
    ensures forall s :: Times(0.0, s) == 0.0
  {
    assert a * (x / a) == x;
  }

  lemma CrossTerm(t: real, a: real, rz: real, ry: real)
    requires a != 0.0 && t == -(rz / a)
    ensures t * ry == Times(-1.0 / a, Times(rz, ry))
  {
    assert (-1.0 / a) * (rz * ry) == ((-1.0 / a) * rz) * ry;
    assert (-1.0 / a) * rz == t;
  }

  lemma SchurFormParts(m: seq<Vec>, y: Vec, z: Vec, k: real, ry: real, rz: real)
    requires m != [] && IsMatrix(m, |m|) && m[0][0] != 0.0 && |y| == |z| == |m| - 1 && k == -1.0 / m[0][0]
    requires ry == Dot(m[0][1..], y) && rz == Dot(m[0][1..], z)
    ensures Form(Schur(m), y, z) == Dot(y, Dots(Corner(m), z)) + Times(k, Times(rz, ry))
  {
    hide Dot, Corner;
    var r := m[0][1..];
    MatPlusForm(Corner(m), MatScale(k, Outer(r, r)), y, z);
    MatScaleForm(k, Outer(r, r), y, z);
    OuterForm(r, r, y, z);
    NamedProduct(k, Dot(r, z) * Dot(r, y), k * (Dot(r, z) * Dot(r, y)), k, rz * ry);
  }

  lemma PivotPositive(m: seq<Vec>)
    requires Definite(m) && m != []
    ensures m[0][0] > 0.0
  {
    UnitForm(m, 0, 0);
    assert Unit(|m|, 0)[0] == 1.0;
  }

  lemma SchurDefinite(m: seq<Vec>)
    requires Definite(m) && m != []
    ensures m[0][0] > 0.0 && Definite(Schur(m))
  {
    hide Form, Dot, Schur;
    PivotPositive(m);
    DefiniteSymmetric(m);
    var a, r, s := m[0][0], m[0][1..], Schur(m);
    forall y: Vec, z: Vec | |y| == |z| == |s|
      ensures Form(s, y, z) == Form(s, z, y)
    {
      var t, u := -(Dot(r, y) / a), -(Dot(r, z) / a);
      SchurForm(m, y, z, t, u);
      SchurForm(m, z, y, u, t);
    }
    forall y: Vec | |y| == |s|
      ensures Form(s, y, y) >= 0.0
      ensures y != Zero(|y|) ==> Form(s, y, y) > 0.0
    {
      var t := -(Dot(r, y) / a);
      SchurForm(m, y, y, t, t);
      var v := [t] + y;
      if v == Zero(|v|) { assert y == v[1..] == Zero(|y|); }
    }
  }

  /** Elimination solves every definite system. */
  lemma {:induction false} EliminateSolves(m: seq<Vec>, b: Vec)
    requires Definite(m) && |b| == |m|
    ensures Dots(m, Eliminate(m, b)) == b
    decreases |m|
  {
    hide Definite, Dot, Schur, Form, Times, Scale, Corner;
    if m == [] {
      assert Dots(m, Eliminate(m, b)) == [];
    } else {
      SchurDefinite(m);
      DefiniteSymmetric(m);
      var a, r := m[0][0], m[0][1..];
      var rest := Minus(b[1..], Scale(b[0] / a, r));
      var y := Eliminate(Schur(m), rest);
      EliminateSolves(Schur(m), rest);
      var s := (b[0] - Dot(r, y)) / a;
      LowerRows(m, s, y);
      TopRow(a, b[0], Dot(r, y), s);
      SchurRows(m, y, -1.0 / a, Dot(r, y));
      BackSubstitute(b, r, Dots(Corner(m), y), Dot(r, y), a, s, rest);
      assert b == [b[0]] + b[1..];
    }
  }

  lemma TopRow(a: real, b: real, ry: real, s: real)
    requires a != 0.0 && s == (b - ry) / a
    ensures Times(a, s) + ry == b
  {
  }

  lemma SchurRows(m: seq<Vec>, y: Vec, k: real, ry: real)
    requires m != [] && IsMatrix(m, |m|) && m[0][0] != 0.0 && |y| == |m| - 1
    requires k == -1.0 / m[0][0] && ry == Dot(m[0][1..], y)
    ensures Dots(Schur(m), y) == Plus(Dots(Corner(m), y), Scale(k, Scale(ry, m[0][1..])))
  {
    hide Dot, Corner;
    var r := m[0][1..];
    DotsMatPlus(Corner(m), MatScale(k, Outer(r, r)), y);
    DotsMatScale(k, Outer(r, r), y);
    DotsOuter(r, r, y);
  }

  lemma BackSubstitute(b: Vec, r: Vec, c: Vec, ry: real, a: real, s: real, rest: Vec)
    requires |b| == |r| + 1 && |c| == |r| && a != 0.0 && s == (b[0] - ry) / a
    requires rest == Minus(b[1..], Scale(b[0] / a, r)) && Plus(c, Scale(-1.0 / a, Scale(ry, r))) == rest
    ensures Plus(Scale(s, r), c) == b[1..]
  {
    forall i | 0 <= i < |r|
      ensures Plus(Scale(s, r), c)[i] == b[1..][i]
    {
      var p, q := b[0] / a, ry / a;
      assert s == p - q;
      assert rest[i] == b[i + 1] - p * r[i];
      assert (-1.0 / a) * (ry * r[i]) == -(q * r[i]);
      assert Plus(c, Scale(-1.0 / a, Scale(ry, r)))[i] == c[i] + (-1.0 / a) * (ry * r[i]);
      assert Scale(s, r)[i] == (p - q) * r[i] == p * r[i] - q * r[i];
    }
  }
}
