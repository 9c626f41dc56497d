/** The configured task maps: the symbolic output `apply_task_map` builds for each CasADi node type and
    the dimension the solver infers for it. */
module TaskMaps {
  import opened LinearAlgebra
  import opened RmpConfig
  import opened Elementary
  import opened TaskExpr

  predicate UsesCasadi(m: TaskMap) {
    m.Affine? || m.ElemMultiply? || m.ElemDivide? || m.Sin? || m.Cos? || m.Tanh? || m.SquareMap? || m.AbsMap?
    || m.Sum? || m.WeightedSum? || m.Difference? || m.Concat? || m.Slice? || m.NormMap? || m.Normalize?
  }

  function TotalDim(dims: seq<nat>): nat {
    if dims == [] then 0 else dims[0] + TotalDim(dims[1..])
  }

  /** Where parent `k` starts in the stacked input. */
  function Offset(dims: seq<nat>, k: nat): nat
    requires k <= |dims|
  {
    TotalDim(dims[..k])
  }

  /** The common length of two columns under CasADi's rules: equal, or one of them a scalar. */
  function Broadcast(a: nat, b: nat): Option<nat> {
    if a == b || b == 1 then Some(a) else if a == 1 then Some(b) else None
  }

  /** The common length of the first `k` parents. */
  function CommonDim(dims: seq<nat>, k: nat): Option<nat>
    requires 0 < k <= |dims|
    decreases k
  {
    if k == 1 then Some(dims[0])
    else match CommonDim(dims, k - 1)
      case None => None
      case Some(n) => Broadcast(n, dims[k - 1])
  }

  /** The entry of a column of length `n` that row `r` of a broadcast result reads. */
  function Row(n: nat, r: nat): nat { if n == 1 then 0 else r }

  function Scaled(node: RmpNode, e: Expr): Expr { Mul(Const(node.scale), e) }

  function ScaledRows(node: RmpNode, n: nat, row: nat -> Expr): (r: seq<Expr>)
    ensures |r| == n
  {
    seq(n, i requires 0 <= i < n => Scaled(node, row(i)))
  }

  /** Row `r` of the running sum over the first `k + 1` parents. */
  function SumRow(dims: seq<nat>, r: nat, k: nat): Expr
    requires k < |dims|
    decreases k
  {
    var e := Input(Offset(dims, k) + Row(dims[k], r));
    if k == 0 then e else Add(SumRow(dims, r, k - 1), e)
  }

  function WeightOf(node: RmpNode, k: nat): real { if k < |node.parentWeights| then node.parentWeights[k] else 1.0 }

  /** Row `r` of the weighted sum of the first `k` parents. */
  function WeightedRow(node: RmpNode, dims: seq<nat>, r: nat, k: nat): Expr
    requires k <= |dims|
  {
    if k == 0 then Const(0.0)
    else Add(WeightedRow(node, dims, r, k - 1), 
             Mul(Const(WeightOf(node, k - 1)), Input(Offset(dims, k - 1) + Row(dims[k - 1], r))))
  }

  /** The dot product of `coefficients` with the inputs from `start` on. */
  function LinearRow(coefficients: seq<real>, start: nat): Expr {
    if coefficients == [] then Const(0.0)
    else Add(Mul(Const(coefficients[0]), Input(start)), LinearRow(coefficients[1..], start + 1))
  }

  /** The length after adding the bias, if there is one. */
  function BiasedDim(node: RmpNode, n: nat): Option<nat> {
    if node.bias == [] then Some(n) else Broadcast(n, |node.bias|)
  }

  function WithBias(node: RmpNode, e: Expr, r: nat): Expr {
    if node.bias == [] then e else Add(e, Const(Get(node.bias, Row(|node.bias|, r))))
  }

  /** `scale (y + bias)` for the `n` rows of `y`. */
  function BiasedRows(node: RmpNode, n: nat, row: nat -> Expr): Option<seq<Expr>> {
    match BiasedDim(node, n)
    case None => None
    case Some(total) => Some(ScaledRows(node, total, (r: nat) => WithBias(node, row(Row(n, r)), r)))
  }

  function SquaredNorm(n: nat): Expr {
    if n == 0 then Const(0.0) else Add(SquaredNorm(n - 1), Mul(Input(n - 1), Input(n - 1)))
  }

  function NormExpr(n: nat): Expr { Apply(SqrtFn, SquaredNorm(n)) }

  function SliceLength(node: RmpNode, dim: nat): int {
    if node.sliceLength > 0 then node.sliceLength else dim - node.sliceStart
  }

  lemma RowFits(size: nat, n: nat, r: nat)
    requires n > 0 && size % n == 0 && r < size / n
    ensures 0 <= r * n && r * n + n <= size
  {
    assert size == n * (size / n);
    assert (r + 1) * n <= (size / n) * n;
  }

  /** Row `r` of a row-major matrix with `n` columns. */
  function MatrixRow(m: Vec, n: nat, r: nat): (row: Vec)
    requires n > 0 && |m| % n == 0 && r < |m| / n
    ensures |row| == n
  {
    RowFits(|m|, n, r);
    m[r * n..r * n + n]
  }

  function Rows(m: Vec, n: nat): (rows: seq<Vec>)
    requires n > 0 && |m| % n == 0
    ensures |rows| == |m| / n && IsMatrix(rows, n)
  {
    seq(|m| / n, r requires 0 <= r < |m| / n => MatrixRow(m, n, r))
  }

  /** Row `r` of `M x`, the matrix given row by row; an empty matrix is the identity. */
  function AffineRow(node: RmpNode, n: nat, r: nat): Expr {
    if node.matrix == [] then Input(r)
    else if n > 0 && |node.matrix| % n == 0 && r < |node.matrix| / n then LinearRow(MatrixRow(node.matrix, n, r), 0)
    else Const(0.0)
  }

  function AffineRows(node: RmpNode, n: nat): Option<seq<Expr>> {
    if node.matrix != [] && (n == 0 || |node.matrix| % n != 0) then None
    else BiasedRows(node, if node.matrix == [] then n else |node.matrix| / n, (r: nat) => AffineRow(node, n, r))
  }

  /** `apply_task_map` over the stacked parents, one expression per output row; `None` where it throws or
      where CasADi rejects the dimensions. */
  function ApplyTaskMap(node: RmpNode, dims: seq<nat>): Option<seq<Expr>> {
    if dims == [] then None
    else match node.taskMap
    case Sum =>
      (match CommonDim(dims, |dims|)
       case None => None
       case Some(n) => Some(ScaledRows(node, n, (r: nat) => SumRow(dims, r, |dims| - 1))))
    case WeightedSum =>
      (match CommonDim(dims, |dims|)
       case None => None
       case Some(n) => BiasedRows(node, n, (r: nat) => WeightedRow(node, dims, r, |dims|)))
    case Affine => AffineRows(node, TotalDim(dims))
    case Difference =>
      if |dims| != 2 then None
      else (match Broadcast(dims[0], dims[1])
            case None => None
            case Some(n) =>
              Some(ScaledRows(node, n, (r: nat) =>
                Add(Input(Row(dims[0], r)), Mul(Const(-1.0), Input(dims[0] + Row(dims[1], r)))))))
    case Concat => Some(ScaledRows(node, TotalDim(dims), (r: nat) => Input(r)))
    case ElemMultiply =>
      if |dims| == 2 && dims[0] == dims[1] then
        Some(ScaledRows(node, dims[0], (r: nat) => Mul(Input(r), Input(dims[0] + r))))
      else None
    case ElemDivide =>
      if |dims| == 2 && dims[0] == dims[1] then
        Some(ScaledRows(node, dims[0], (r: nat) =>
          Mul(Input(r), Apply(ReciprocalFn, Add(Input(dims[0] + r), Const(node.epsilon))))))
      else None
    case Slice =>
      var length := SliceLength(node, dims[0]);
      if 0 <= node.sliceStart && 0 <= length && node.sliceStart + length <= dims[0] then
        Some(ScaledRows(node, length, (r: nat) => Input(node.sliceStart + r)))
      else None
    case NormMap => Some([Scaled(node, NormExpr(dims[0]))])
    case Normalize =>
      Some(ScaledRows(node, dims[0], (r: nat) =>
        Mul(Input(r), Apply(ReciprocalFn, Add(NormExpr(dims[0]), Const(node.epsilon))))))
    case Sin => Some(ScaledRows(node, dims[0], (r: nat) => Apply(SinFn, Input(r))))
    case Cos => Some(ScaledRows(node, dims[0], (r: nat) => Apply(CosFn, Input(r))))
    case Tanh => Some(ScaledRows(node, dims[0], (r: nat) => Apply(TanhFn, Input(r))))
    case SquareMap => Some(ScaledRows(node, dims[0], (r: nat) => Mul(Input(r), Input(r))))
    case AbsMap => Some(ScaledRows(node, dims[0], (r: nat) => Apply(AbsFn, Input(r))))
    case _ => None
  }

  // ----- what the rows compute

  function Concatenated(us: seq<Vec>): Vec {
    if us == [] then [] else us[0] + Concatenated(us[1..])
  }

  function DimsOf(us: seq<Vec>): (r: seq<nat>)
    ensures |r| == |us|
  {
    seq(|us|, i requires 0 <= i < |us| => |us[i]|)
  }

  lemma {:induction false} ConcatenatedAt(us: seq<Vec>, k: nat, r: nat)
    requires k < |us| && r < |us[k]|
    ensures Get(Concatenated(us), Offset(DimsOf(us), k) + r) == us[k][r]
  {
    ConcatenatedLength(us);
    OffsetInside(DimsOf(us), k, r);
    assert DimsOf(us)[1..] == DimsOf(us[1..]);
    if k == 0 {
      assert DimsOf(us)[..0] == [];
    } else {
      ConcatenatedAt(us[1..], k - 1, r);
      assert DimsOf(us)[..k][1..] == DimsOf(us[1..])[..k - 1];
      assert Offset(DimsOf(us), k) == |us[0]| + Offset(DimsOf(us[1..]), k - 1);
    }
  }

  lemma {:induction false} ConcatenatedLength(us: seq<Vec>)
    ensures |Concatenated(us)| == TotalDim(DimsOf(us))
  {
    if us != [] {
      assert DimsOf(us)[1..] == DimsOf(us[1..]);
      ConcatenatedLength(us[1..]);
    }
  }

  lemma {:induction false} OffsetInside(dims: seq<nat>, k: nat, r: nat)
    requires k < |dims| && r < dims[k]
    ensures Offset(dims, k) + r < TotalDim(dims)
  {
    if k > 0 {
      assert dims[..k][1..] == dims[1..][..k - 1];
      OffsetInside(dims[1..], k - 1, r);
    }
  }

  function Ones(n: nat): (r: Vec)
    ensures |r| == n
  {
    seq(n, _ => 1.0)
  }

  /** The weights applied to the parents: the listed ones, then 1. */
  function Weights(node: RmpNode, n: nat): (r: Vec)
    ensures |r| == n
  {
    seq(n, k requires 0 <= k < n => WeightOf(node, k))
  }

  /** A column as CasADi reads it in a broadcast of length `n`: scalars are repeated. */
  function Spread(u: Vec, n: nat): (r: Vec)
    ensures |r| == n
  {
    seq(n, i requires 0 <= i < n => Get(u, Row(|u|, i)))
  }

  function SpreadAll(us: seq<Vec>, n: nat): (r: seq<Vec>)
    ensures |r| == |us| && IsMatrix(r, n)
  {
    seq(|us|, i requires 0 <= i < |us| => Spread(us[i], n))
  }

  function Biased(node: RmpNode, y: Vec): Vec
    requires BiasedDim(node, |y|).Some?
  {
    if node.bias == [] then y
    else var n := BiasedDim(node, |y|).value; Plus(Spread(y, n), Spread(node.bias, n))
  }

  function Pointwise(f: real -> real, u: Vec): (r: Vec)
    ensures |r| == |u|
  {
    seq(|u|, i requires 0 <= i < |u| => f(u[i]))
  }

  function Zipped(f: (real, real) -> real, u: Vec, v: Vec): (r: Vec)
    requires |u| == |v|
    ensures |r| == |u|
  {
    seq(|u|, i requires 0 <= i < |u| => f(u[i], v[i]))
  }

  /** `M x + b`. */
  ghost function AffineValue(node: RmpNode, x: Vec): Vec
    requires AffineRows(node, |x|).Some?
  {
    Biased(node, if node.matrix == [] then x else Dots(Rows(node.matrix, |x|), x))
  }

  /** The documented value of the map at the parent positions, before `scale`: vector arithmetic on whole
      parents, with the affine matrix read row by row. */
  ghost function DirectValue(node: RmpNode, us: seq<Vec>, lib: Library): Vec
    requires us != []
    requires ApplyTaskMap(node, DimsOf(us)).Some?
  {
    var u := us[0];
    match node.taskMap
    case Sum =>
      var n := CommonDim(DimsOf(us), |us|).value;
      Combine(SpreadAll(us, n), Ones(|us|), n)
    case WeightedSum =>
      var n := CommonDim(DimsOf(us), |us|).value;
      Biased(node, Combine(SpreadAll(us, n), Weights(node, |us|), n))
    case Affine =>
      ConcatenatedLength(us);
      AffineValue(node, Concatenated(us))
    case Difference =>
      var n := Broadcast(|u|, |us[1]|).value;
      Minus(Spread(u, n), Spread(us[1], n))
    case Concat => Concatenated(us)
    case ElemMultiply => Zipped((x, y) => Times(x, y), u, us[1])
    case ElemDivide => Zipped((x, y) => Times(x, Reciprocal(y + node.epsilon)), u, us[1])
    case Slice => u[node.sliceStart..node.sliceStart + SliceLength(node, |u|)]
    case NormMap => [lib.sqrt(Dot(u, u))]
    case Normalize => Pointwise(x => Times(x, Reciprocal(lib.sqrt(Dot(u, u)) + node.epsilon)), u)
    case Sin => Pointwise(lib.sin, u)
    case Cos => Pointwise(lib.cos, u)
    case Tanh => Pointwise(lib.tanh, u)
    case SquareMap => Pointwise(x => Times(x, x), u)
    case AbsMap => Pointwise(Magnitude, u)
  }

  /** Every parent of a broadcast has the common length or is a scalar. */
  lemma {:induction false} CommonDimOf(dims: seq<nat>, k: nat, i: nat)
    requires i < k <= |dims| && CommonDim(dims, k).Some?
    ensures dims[i] == CommonDim(dims, k).value || dims[i] == 1
    decreases k
  {
    if i < k - 1 { CommonDimOf(dims, k - 1, i); }
  }

  lemma EvalWeighted(c: real, j: nat, lib: Library, x: Vec)
    ensures Eval(Mul(Const(c), Input(j)), lib, x) == Times(c, Get(x, j))
  {
  }

  lemma EvalSquare(j: nat, lib: Library, x: Vec)
    ensures Eval(Mul(Input(j), Input(j)), lib, x) == Times(Get(x, j), Get(x, j))
  {
  }

  lemma {:induction false} LinearRowMeaning(c: Vec, start: nat, lib: Library, x: Vec)
    requires start + |c| <= |x|
    ensures Eval(LinearRow(c, start), lib, x) == Dot(c, x[start..start + |c|])
  {
    if c != [] {
      LinearRowMeaning(c[1..], start + 1, lib, x);
      DotHead(c, x[start..start + |c|]);
      EvalWeighted(c[0], start, lib, x);
      hide Dot, Times;
      assert x[start..start + |c|][1..] == x[start + 1..start + 1 + |c[1..]|];
    }
  }

  lemma DotSingle(x: real, y: real)
    ensures Dot([x], [y]) == Times(x, y)
  {
    hide Times;
    DotHead([x], [y]);
    assert [x][1..] == [] && [y][1..] == [];
  }

  lemma {:induction false} SquaredNormMeaning(n: nat, lib: Library, x: Vec)
    requires n <= |x|
    ensures Eval(SquaredNorm(n), lib, x) == Dot(x[..n], x[..n])
  {
    hide Times, Dot;
    if n == 0 {
      DotZero([]);
      assert x[..0] == [] && Zero(0) == [];
    } else {
      SquaredNormMeaning(n - 1, lib, x);
      assert x[..n] == x[..n - 1] + [x[n - 1]];
      DotConcat(x[..n - 1], [x[n - 1]], x[..n - 1], [x[n - 1]]);
      DotSingle(x[n - 1], x[n - 1]);
      EvalSquare(n - 1, lib, x);
    }
  }

  ghost predicate Spreads(us: seq<Vec>, n: nat) { forall i | 0 <= i < |us| :: |us[i]| == n || |us[i]| == 1 }

  lemma SpreadsTo(us: seq<Vec>)
    requires us != [] && CommonDim(DimsOf(us), |us|).Some?
    ensures Spreads(us, CommonDim(DimsOf(us), |us|).value)
  {
    forall i | 0 <= i < |us|
      ensures |us[i]| == CommonDim(DimsOf(us), |us|).value || |us[i]| == 1
    {
      CommonDimOf(DimsOf(us), |us|, i);
    }
  }

  lemma ParentEntry(us: seq<Vec>, n: nat, k: nat, r: nat)
    requires k < |us| && r < n && Spreads(us, n)
    ensures Get(Concatenated(us), Offset(DimsOf(us), k) + Row(|us[k]|, r)) == SpreadAll(us, n)[k][r]
  {
    ConcatenatedAt(us, k, Row(|us[k]|, r));
  }

  lemma {:induction false} SumRowMeaning(us: seq<Vec>, n: nat, lib: Library, r: nat, k: nat)
    requires k < |us| && r < n && Spreads(us, n)
    ensures Eval(SumRow(DimsOf(us), r, k), lib, Concatenated(us)) == Combine(SpreadAll(us, n)[..k + 1], Ones(k + 1), n)[r]
    decreases k
  {
    hide Times, Combine, Offset;
    var m := SpreadAll(us, n);
    ParentEntry(us, n, k, r);
    CombineLast(m[..k + 1], Ones(k + 1), n, r);
    assert m[..k + 1][..k] == m[..k] && Ones(k + 1)[..k] == Ones(k);
    TimesOf(1.0, m[k][r]);
    if k == 0 {
      CombineZero([], n);
    } else {
      SumRowMeaning(us, n, lib, r, k - 1);
    }
  }

  /** What `BiasedRows` computes from the rows of `y`. */
  lemma BiasedRowMeaning(node: RmpNode, y: Vec, row: nat -> Expr, lib: Library, x: Vec, r: nat)
    requires BiasedRows(node, |y|, row).Some? && r < |BiasedRows(node, |y|, row).value|
    requires forall i | 0 <= i < |y| :: Eval(row(i), lib, x) == y[i]
    ensures |BiasedRows(node, |y|, row).value| == |Biased(node, y)|
    ensures Eval(BiasedRows(node, |y|, row).value[r], lib, x) == Times(node.scale, Biased(node, y)[r])
  {
    hide Times, Scaled;
    var i := Row(|y|, r);
    EvalScaled(node, WithBias(node, row(i), r), lib, x);
    if node.bias == [] {
      assert row(i) == row(r);
    } else {
      assert Eval(row(i), lib, x) == y[i];
    }
  }

  lemma EvalScaled(node: RmpNode, e: Expr, lib: Library, x: Vec)
    ensures Eval(Scaled(node, e), lib, x) == Times(node.scale, Eval(e, lib, x))
  {
  }

  lemma {:induction false} WeightedRowMeaning(node: RmpNode, us: seq<Vec>, n: nat, lib: Library, r: nat, k: nat)
    requires k <= |us| && r < n && Spreads(us, n)
    ensures Eval(WeightedRow(node, DimsOf(us), r, k), lib, Concatenated(us))
         == Combine(SpreadAll(us, n)[..k], Weights(node, k), n)[r]
    decreases k
  {
    hide Times, Combine, Offset;
    var m := SpreadAll(us, n);
    if k == 0 {
      CombineZero([], n);
      assert m[..0] == [];
    } else {
      ParentEntry(us, n, k - 1, r);
      CombineLast(m[..k], Weights(node, k), n, r);
      assert m[..k][..k - 1] == m[..k - 1] && Weights(node, k)[..k - 1] == Weights(node, k - 1);
      WeightedRowMeaning(node, us, n, lib, r, k - 1);
      EvalWeighted(WeightOf(node, k - 1), Offset(DimsOf(us), k - 1) + Row(|us[k - 1]|, r), lib, Concatenated(us));
    }
  }

  /** The first parent occupies the first inputs. */
  lemma FirstParent(us: seq<Vec>)
    requires us != []
    ensures |us[0]| <= |Concatenated(us)| && Concatenated(us)[..|us[0]|] == us[0]
    ensures forall i | 0 <= i < |us[0]| :: Get(Concatenated(us), i) == us[0][i]
  {
  }

  lemma SecondParent(us: seq<Vec>, r: nat)
    requires |us| == 2 && r < |us[1]|
    ensures Get(Concatenated(us), |us[0]| + r) == us[1][r]
  {
    ConcatenatedAt(us, 1, r);
    assert DimsOf(us)[..1] == [|us[0]|];
    assert TotalDim([|us[0]|]) == |us[0]|;
  }

  lemma AffineRowMeaning(node: RmpNode, lib: Library, x: Vec, r: nat)
    requires AffineRows(node, |x|).Some? && r < |AffineRows(node, |x|).value|
    ensures |AffineRows(node, |x|).value| == |AffineValue(node, x)|
    ensures Eval(AffineRows(node, |x|).value[r], lib, x) == Times(node.scale, AffineValue(node, x)[r])
  {
    hide Dot, Times, LinearRow, MatrixRow, Scaled, BiasedRows, Biased, Row;
    var y := if node.matrix == [] then x else Dots(Rows(node.matrix, |x|), x);
    forall i | 0 <= i < |y|
      ensures Eval(AffineRow(node, |x|, i), lib, x) == y[i]
    {
      if node.matrix != [] {
        LinearRowMeaning(MatrixRow(node.matrix, |x|, i), 0, lib, x);
        assert x[0..|x|] == x;
      }
    }
    BiasedRowMeaning(node, y, (i: nat) => AffineRow(node, |x|, i), lib, x, r);
  }

  lemma EvalOffsetReciprocal(e: Expr, epsilon: real, lib: Library, x: Vec)
    ensures Eval(Apply(ReciprocalFn, Add(e, Const(epsilon))), lib, x) == Reciprocal(Eval(e, lib, x) + epsilon)
  {
    hide Reciprocal;
    var y := Eval(e, lib, x) + epsilon;
    assert Eval(Add(e, Const(epsilon)), lib, x) == y;
    assert FnOf(ReciprocalFn, lib)(y) == Reciprocal(y);
  }

  lemma EvalMinus(i: nat, j: nat, lib: Library, x: Vec)
    ensures Eval(Add(Input(i), Mul(Const(-1.0), Input(j))), lib, x) == Get(x, i) - Get(x, j)
  {
    EvalWeighted(-1.0, j, lib, x);
    TimesOf(-1.0, Get(x, j));
  }

  predicate IsFold(m: TaskMap) { m.Sum? || m.WeightedSum? || m.Affine? }

  predicate IsBinary(m: TaskMap) { m.Difference? || m.ElemMultiply? || m.ElemDivide? }

  lemma FoldRowMeaning(node: RmpNode, us: seq<Vec>, lib: Library, r: nat)
    requires IsFold(node.taskMap)
    requires us != [] && ApplyTaskMap(node, DimsOf(us)).Some?
    requires r < |ApplyTaskMap(node, DimsOf(us)).value|
    ensures |ApplyTaskMap(node, DimsOf(us)).value| == |DirectValue(node, us, lib)|
    ensures Eval(ApplyTaskMap(node, DimsOf(us)).value[r], lib, Concatenated(us))
         == Times(node.scale, DirectValue(node, us, lib)[r])
  {
    hide Combine, Dot, Times, Scaled, SpreadAll, Biased;
    ConcatenatedLength(us);
    var x := Concatenated(us);
    if node.taskMap.Affine? {
      AffineRowMeaning(node, lib, x, r);
    } else {
      var n := CommonDim(DimsOf(us), |us|).value;
      var m := SpreadAll(us, n);
      SpreadsTo(us);
      assert m[..|us|] == m;
      if node.taskMap.Sum? {
        SumRowMeaning(us, n, lib, r, |us| - 1);
        EvalScaled(node, SumRow(DimsOf(us), r, |us| - 1), lib, x);
      } else {
        var y := Combine(m, Weights(node, |us|), n);
        forall i | 0 <= i < n
          ensures Eval(WeightedRow(node, DimsOf(us), i, |us|), lib, x) == y[i]
        {
          WeightedRowMeaning(node, us, n, lib, i, |us|);
        }
        BiasedRowMeaning(node, y, (i: nat) => WeightedRow(node, DimsOf(us), i, |us|), lib, x, r);
      }
    }
  }

  lemma BinaryRowMeaning(node: RmpNode, us: seq<Vec>, lib: Library, r: nat)
    requires IsBinary(node.taskMap)
    requires us != [] && ApplyTaskMap(node, DimsOf(us)).Some?
    requires r < |ApplyTaskMap(node, DimsOf(us)).value|
    ensures |ApplyTaskMap(node, DimsOf(us)).value| == |DirectValue(node, us, lib)|
    ensures Eval(ApplyTaskMap(node, DimsOf(us)).value[r], lib, Concatenated(us))
         == Times(node.scale, DirectValue(node, us, lib)[r])
  {
    hide Combine, Dot, Times, Scaled;
    FirstParent(us);
    var x, n := Concatenated(us), |us[0]|;
    SecondParent(us, Row(|us[1]|, r));
    match node.taskMap
    case Difference =>
      EvalMinus(Row(n, r), n + Row(|us[1]|, r), lib, x);
      EvalScaled(node, Add(Input(Row(n, r)), Mul(Const(-1.0), Input(n + Row(|us[1]|, r)))), lib, x);
    case ElemMultiply =>
      EvalScaled(node, Mul(Input(r), Input(n + r)), lib, x);
    case ElemDivide =>
      var e := Apply(ReciprocalFn, Add(Input(n + r), Const(node.epsilon)));
      EvalOffsetReciprocal(Input(n + r), node.epsilon, lib, x);
      EvalScaled(node, Mul(Input(r), e), lib, x);
  }

  lemma UnaryRowMeaning(node: RmpNode, us: seq<Vec>, lib: Library, r: nat)
    requires !IsFold(node.taskMap) && !IsBinary(node.taskMap)
    requires us != [] && ApplyTaskMap(node, DimsOf(us)).Some?
    requires r < |ApplyTaskMap(node, DimsOf(us)).value|
    ensures |ApplyTaskMap(node, DimsOf(us)).value| == |DirectValue(node, us, lib)|
    ensures Eval(ApplyTaskMap(node, DimsOf(us)).value[r], lib, Concatenated(us))
         == Times(node.scale, DirectValue(node, us, lib)[r])
  {
    hide Combine, Dot, Times, Scaled;
    FirstParent(us);
    ConcatenatedLength(us);
    var x, u := Concatenated(us), us[0];
    match node.taskMap
    case Concat => EvalScaled(node, Input(r), lib, x);
    case Slice =>
      assert Get(x, node.sliceStart + r) == u[node.sliceStart + r];
      EvalScaled(node, Input(node.sliceStart + r), lib, x);
    case NormMap =>
      SquaredNormMeaning(|u|, lib, x);
      EvalScaled(node, NormExpr(|u|), lib, x);
    case Normalize =>
      SquaredNormMeaning(|u|, lib, x);
      NormalizeMeaning(node, u, lib, x, r);
    case Sin => EvalScaled(node, Apply(SinFn, Input(r)), lib, x);
    case Cos => EvalScaled(node, Apply(CosFn, Input(r)), lib, x);
    case Tanh => EvalScaled(node, Apply(TanhFn, Input(r)), lib, x);
    case SquareMap =>
      EvalSquare(r, lib, x);
      EvalScaled(node, Mul(Input(r), Input(r)), lib, x);
    case AbsMap => EvalScaled(node, Apply(AbsFn, Input(r)), lib, x);
  }

  lemma NormalizeMeaning(node: RmpNode, u: Vec, lib: Library, x: Vec, r: nat)
    requires r < |u| <= |x| && Get(x, r) == u[r] && Eval(SquaredNorm(|u|), lib, x) == Dot(u, u)
    ensures Eval(Scaled(node, Mul(Input(r), Apply(ReciprocalFn, Add(NormExpr(|u|), Const(node.epsilon))))), lib, x)
         == Times(node.scale, Times(u[r], Reciprocal(lib.sqrt(Dot(u, u)) + node.epsilon)))
  {
    hide Dot, Times, Scaled;
    var p := Reciprocal(lib.sqrt(Dot(u, u)) + node.epsilon);
    var e := Apply(ReciprocalFn, Add(NormExpr(|u|), Const(node.epsilon)));
    EvalOffsetReciprocal(NormExpr(|u|), node.epsilon, lib, x);
    assert Eval(e, lib, x) == p;
    EvalScaled(node, Mul(Input(r), e), lib, x);
  }

  /** Row `r` of a compiled map is `scale` times the direct value. */
  lemma RowMeaning(node: RmpNode, us: seq<Vec>, lib: Library, r: nat)
    requires us != [] && ApplyTaskMap(node, DimsOf(us)).Some?
    requires r < |ApplyTaskMap(node, DimsOf(us)).value|
    ensures |ApplyTaskMap(node, DimsOf(us)).value| == |DirectValue(node, us, lib)|
    ensures Eval(ApplyTaskMap(node, DimsOf(us)).value[r], lib, Concatenated(us))
         == Times(node.scale, DirectValue(node, us, lib)[r])
  {
    hide DirectValue, ApplyTaskMap, Times;
    if IsFold(node.taskMap) {
      FoldRowMeaning(node, us, lib, r);
    } else if IsBinary(node.taskMap) {
      BinaryRowMeaning(node, us, lib, r);
    } else {
      UnaryRowMeaning(node, us, lib, r);
    }
  }

  // ----- inferred dimensions

  /** Sensor control points of the robot model, and the count the learning interface assumes instead. */
  const SENSOR_POINTS: nat := 20
  const LEARNING_POINTS: nat := 33

  /** `infer_node_dim` from the dimensions of the parents; `None` where it throws or has no first parent to
      look at. The solver passes `SENSOR_POINTS`, the learning interface `LEARNING_POINTS`. */
  function InferDim(node: RmpNode, dims: seq<nat>, points: nat): Option<int> {
    match node.taskMap
    case TcpPosition | LinkPosition | LinkOrientationAxis => Some(3)
    case JointLimitMap => Some(12)
    case ControlPoints => Some(3 * points)
    case CollisionDistance => Some(points)
    case NormMap => Some(1)
    case Affine =>
      if node.bias != [] then Some(|node.bias|)
      else if node.matrix != [] then
        var n := TotalDim(dims);
        if n == 0 || |node.matrix| % n != 0 then None else Some(|node.matrix| / n)
      else FrontDim(dims)
    case Concat => Some(TotalDim(dims))
    case Slice => if dims == [] then None else Some(SliceLength(node, dims[0]))
    case _ => FrontDim(dims)
  }

  function FrontDim(dims: seq<nat>): Option<int> { if dims == [] then None else Some(dims[0]) }

  /** When a compiled map keeps its inferred dimension. What breaks it: an affine map with a scalar bias for
      several rows, or one that without matrix and bias stacks more than its first parent, and a broadcast sum
      or difference led by a scalar with a longer parent behind it. */
  predicate WellFormed(node: RmpNode, dims: seq<nat>)
    requires dims != []
  {
    match node.taskMap
    case Affine =>
      var rows := if node.matrix == [] then TotalDim(dims) else if TotalDim(dims) == 0 then 0 else |node.matrix| / TotalDim(dims);
      if node.bias != [] then |node.bias| != 1 || rows == 1 else node.matrix != [] || TotalDim(dims) == dims[0]
    case Sum | Difference => dims[0] != 1 || forall i | 0 <= i < |dims| :: dims[i] == 1
    case WeightedSum =>
      if dims[0] != 1 then true
      else (forall i | 0 <= i < |dims| :: dims[i] == 1) && |node.bias| <= 1
    case _ => true
  }

  /** The inferred dimension is the real one exactly for the well-formed maps. */
  lemma InferredDimension(node: RmpNode, dims: seq<nat>, points: nat)
    requires dims != [] && ApplyTaskMap(node, dims).Some?
    ensures InferDim(node, dims, points) == Some(|ApplyTaskMap(node, dims).value|) <==> WellFormed(node, dims)
  {
    if node.taskMap.Sum? || node.taskMap.WeightedSum? {
      ScalarBroadcast(dims, |dims|);
    }
  }

  /** A broadcast led by a scalar is a scalar only when every parent is; led by a longer column it keeps
      that column's length. */
  lemma {:induction false} ScalarBroadcast(dims: seq<nat>, k: nat)
    requires 0 < k <= |dims| && CommonDim(dims, k).Some?
    ensures dims[0] != 1 ==> CommonDim(dims, k).value == dims[0]
    ensures dims[0] == 1 ==> (CommonDim(dims, k).value == 1 <==> forall i | 0 <= i < k :: dims[i] == 1)
    decreases k
  {
    if k > 1 {
      ScalarBroadcast(dims, k - 1);
      CommonDimOf(dims, k, k - 1);
    }
  }

  /** The two copies of the inference differ exactly on the control-point maps. */
  lemma LearningInferenceDiffers(node: RmpNode, dims: seq<nat>)
    ensures InferDim(node, dims, LEARNING_POINTS) != InferDim(node, dims, SENSOR_POINTS)
         <==> node.taskMap == ControlPoints || node.taskMap == CollisionDistance
  {
  }
}
