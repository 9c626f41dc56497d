/** The two-layer policy network: its parameters as column-major blocks and their flat layout. */
module Network {
  import opened LinearAlgebra
  import opened RmpConfig

  /** Weights as lists of columns, the order in which Eigen stores them. */
  datatype Net = Net(w1: seq<Vec>, b1: Vec, w2: seq<Vec>, b2: Vec)

  /** Input, hidden and output width. */
  datatype Shape = Shape(input: nat, hidden: nat, output: nat)

  ghost predicate Fits(n: Net, s: Shape) {
    && |n.w1| == s.input && IsMatrix(n.w1, s.hidden) && |n.b1| == s.hidden
    && |n.w2| == s.hidden && IsMatrix(n.w2, s.output) && |n.b2| == s.output
  }

  // ----- columns in a row

  function Joined(m: seq<Vec>): Vec { if m == [] then [] else m[0] + Joined(m[1..]) }

  /** Cuts a vector into `cols` columns of `rows` entries. */
  function Columns(v: Vec, rows: nat, cols: nat): (m: seq<Vec>)
    requires |v| == rows * cols
    ensures |m| == cols && IsMatrix(m, rows)
    decreases cols
  {
    if cols == 0 then []
    else
      assert rows * cols == rows + rows * (cols - 1);
      [v[..rows]] + Columns(v[rows..], rows, cols - 1)
  }

  lemma {:induction false} JoinedLength(m: seq<Vec>, rows: nat)
    requires IsMatrix(m, rows)
    ensures |Joined(m)| == rows * |m|
  {
    if m != [] {
      JoinedLength(m[1..], rows);
      assert rows * |m| == rows + rows * (|m| - 1);
    }
  }

  lemma {:induction false} ColumnsOfJoined(m: seq<Vec>, rows: nat)
    requires IsMatrix(m, rows)
    ensures |Joined(m)| == rows * |m| && Columns(Joined(m), rows, |m|) == m
  {
    JoinedLength(m, rows);
    if m != [] {
      ColumnsOfJoined(m[1..], rows);
      assert Joined(m)[..rows] == m[0] && Joined(m)[rows..] == Joined(m[1..]);
    }
  }

  lemma JoinedCons(head: Vec, rest: seq<Vec>)
    ensures Joined([head] + rest) == head + Joined(rest)
  {
    assert ([head] + rest)[1..] == rest;
  }

  lemma OneColumn(rows: nat, cols: nat)
    requires cols > 0
    ensures rows * cols == rows + rows * (cols - 1) && 0 <= rows * (cols - 1)
  {
  }

  lemma {:induction false} JoinedOfColumns(v: Vec, rows: nat, cols: nat)
    requires |v| == rows * cols
    ensures Joined(Columns(v, rows, cols)) == v
    decreases cols
  {
    hide Joined;
    if cols == 0 {
      assert Columns(v, rows, cols) == [] && v == [];
      assert Joined([]) == [] by { NoColumns(); }
    } else {
      OneColumn(rows, cols);
      var rest := v[rows..];
      assert |rest| == rows * (cols - 1);
      JoinedOfColumns(rest, rows, cols - 1);
      assert Columns(v, rows, cols) == [v[..rows]] + Columns(rest, rows, cols - 1);
      JoinedCons(v[..rows], Columns(rest, rows, cols - 1));
      assert v == v[..rows] + rest;
    }
  }

  lemma NoColumns()
    ensures Joined([]) == []
  {
  }

  // ----- the flat layout

  function ParameterCount(s: Shape): nat { s.hidden * s.input + s.hidden + s.output * s.hidden + s.output }

  function Flatten(n: Net): Vec { Joined(n.w1) + n.b1 + Joined(n.w2) + n.b2 }

  function Unflatten(v: Vec, s: Shape): (n: Net)
    requires |v| == ParameterCount(s)
    ensures Fits(n, s)
  {
    SizesNonNegative(s);
    InBlocks(v, s, s.hidden * s.input, s.output * s.hidden)
  }

  /** The four blocks of a parameter vector, with `p` and `r` the sizes of the weights. */
  function InBlocks(v: Vec, s: Shape, p: int, r: int): (n: Net)
    requires p >= 0 && r >= 0 && |v| == p + s.hidden + r + s.output && p == s.hidden * s.input && r == s.output * s.hidden
    ensures Fits(n, s)
  {
    var b := p + s.hidden;
    var c := b + r;
    Net(Columns(v[..p], s.hidden, s.input), v[p..b], Columns(v[b..c], s.output, s.hidden), v[c..])
  }

  lemma SizesNonNegative(s: Shape)
    ensures s.hidden * s.input >= 0 && s.output * s.hidden >= 0
  {
  }

  lemma FlattenLength(n: Net, s: Shape)
    requires Fits(n, s)
    ensures |Flatten(n)| == ParameterCount(s)
  {
    JoinedLength(n.w1, s.hidden);
    JoinedLength(n.w2, s.output);
  }

  /** `set_parameters(parameters())` changes nothing. */
  lemma UnflattenFlatten(n: Net, s: Shape)
    requires Fits(n, s)
    ensures |Flatten(n)| == ParameterCount(s) && Unflatten(Flatten(n), s) == n
  {
    FlattenLength(n, s);
    ColumnsOfJoined(n.w1, s.hidden);
    ColumnsOfJoined(n.w2, s.output);
    var v, a := Flatten(n), s.hidden * s.input;
    var b := a + s.hidden;
    var c := b + s.output * s.hidden;
    assert v[..a] == Joined(n.w1) && v[a..b] == n.b1 && v[b..c] == Joined(n.w2) && v[c..] == n.b2;
  }

  lemma BlocksJoined(v: Vec, s: Shape, p: int, r: int)
    requires |v| == ParameterCount(s) && p == s.hidden * s.input && r == s.output * s.hidden
    ensures p >= 0 && r >= 0 && |v| == p + s.hidden + r + s.output
    ensures Joined(Unflatten(v, s).w1) == v[..p] && Unflatten(v, s).b1 == v[p..p + s.hidden]
    ensures Joined(Unflatten(v, s).w2) == v[p + s.hidden..p + s.hidden + r] && Unflatten(v, s).b2 == v[p + s.hidden + r..]
  {
    hide Columns, Joined;
    JoinedOfColumns(v[..p], s.hidden, s.input);
    JoinedOfColumns(v[p + s.hidden..p + s.hidden + r], s.output, s.hidden);
  }

  /** `parameters()` after `set_parameters(v)` is `v`. */
  lemma FlattenUnflatten(v: Vec, s: Shape)
    requires |v| == ParameterCount(s)
    ensures Flatten(Unflatten(v, s)) == v
  {
    hide Unflatten, Joined, Columns, Fits, ParameterCount;
    var p, r := s.hidden * s.input, s.output * s.hidden;
    BlocksJoined(v, s, p, r);
    FourParts(v, p, p + s.hidden, p + s.hidden + r);
  }

  lemma FourParts(v: Vec, a: nat, b: nat, c: nat)
    requires a <= b <= c <= |v|
    ensures v == v[..a] + v[a..b] + v[b..c] + v[c..]
  {
  }

  // ----- networks as vectors

  function NetPlus(a: Net, b: Net, ghost s: Shape): (r: Net)
    requires Fits(a, s) && Fits(b, s)
    ensures Fits(r, s)
  {
    Net(MatPlus(a.w1, b.w1), Plus(a.b1, b.b1), MatPlus(a.w2, b.w2), Plus(a.b2, b.b2))
  }

  function NetScale(k: real, a: Net): Net {
    Net(MatScale(k, a.w1), Scale(k, a.b1), MatScale(k, a.w2), Scale(k, a.b2))
  }

  function NetZero(s: Shape): (r: Net)
    ensures Fits(r, s)
  {
    Net(ZeroMatrix(s.input, s.hidden), Zero(s.hidden), ZeroMatrix(s.hidden, s.output), Zero(s.output))
  }

  lemma {:induction false} JoinedLinear(k: real, a: seq<Vec>, b: seq<Vec>)
    requires |a| == |b| && forall i | 0 <= i < |a| :: |a[i]| == |b[i]|
    ensures |Joined(a)| == |Joined(b)| && Joined(MatPlus(a, b)) == Plus(Joined(a), Joined(b))
    ensures Joined(MatScale(k, a)) == Scale(k, Joined(a))
  {
    if a != [] {
      assert MatPlus(a, b)[1..] == MatPlus(a[1..], b[1..]) && MatScale(k, a)[1..] == MatScale(k, a[1..]);
      JoinedLinear(k, a[1..], b[1..]);
      PlusConcat(a[0], Joined(a[1..]), b[0], Joined(b[1..]));
      ScaleConcat(k, a[0], Joined(a[1..]));
    }
  }

  lemma PlusConcat(a: Vec, b: Vec, c: Vec, d: Vec)
    requires |a| == |c| && |b| == |d|
    ensures Plus(a + b, c + d) == Plus(a, c) + Plus(b, d)
  {
  }

  lemma ScaleConcat(k: real, a: Vec, b: Vec)
    ensures Scale(k, a + b) == Scale(k, a) + Scale(k, b)
  {
    forall i | 0 <= i < |a| + |b|
      ensures Scale(k, a + b)[i] == (Scale(k, a) + Scale(k, b))[i]
    {
      ScaleAt(k, a + b, i);
      if i < |a| { ScaleAt(k, a, i); } else { ScaleAt(k, b, i - |a|); }
    }
  }

  /** The flat layout is linear. */
  lemma FlattenPlus(a: Net, b: Net, s: Shape)
    requires Fits(a, s) && Fits(b, s)
    ensures |Flatten(a)| == |Flatten(b)| && Flatten(NetPlus(a, b, s)) == Plus(Flatten(a), Flatten(b))
  {
    hide Joined, Fits;
    FitsParts(a, s);
    FitsParts(b, s);
    FlattenLength(a, s);
    FlattenLength(b, s);
    JoinedLinear(1.0, a.w1, b.w1);
    JoinedLinear(1.0, a.w2, b.w2);
    PlusConcat(Joined(a.w1), a.b1, Joined(b.w1), b.b1);
    PlusConcat(Joined(a.w1) + a.b1, Joined(a.w2), Joined(b.w1) + b.b1, Joined(b.w2));
    PlusConcat(Joined(a.w1) + a.b1 + Joined(a.w2), a.b2, Joined(b.w1) + b.b1 + Joined(b.w2), b.b2);
  }

  lemma FitsParts(n: Net, s: Shape)
    requires Fits(n, s)
    ensures |n.w1| == s.input && (forall i | 0 <= i < |n.w1| :: |n.w1[i]| == s.hidden) && |n.b1| == s.hidden
    ensures |n.w2| == s.hidden && (forall i | 0 <= i < |n.w2| :: |n.w2[i]| == s.output) && |n.b2| == s.output
  {
  }

  lemma FlattenScale(k: real, a: Net)
    ensures Flatten(NetScale(k, a)) == Scale(k, Flatten(a))
  {
    hide Joined, Scale;
    JoinedLinear(k, a.w1, a.w1);
    JoinedLinear(k, a.w2, a.w2);
    ScaleConcat(k, Joined(a.w1), a.b1);
    ScaleConcat(k, Joined(a.w1) + a.b1, Joined(a.w2));
    ScaleConcat(k, Joined(a.w1) + a.b1 + Joined(a.w2), a.b2);
  }

  /** The inner product of two lists of columns. */
  function ColumnsDot(a: seq<Vec>, b: seq<Vec>): real
    requires |a| == |b| && forall i | 0 <= i < |a| :: |a[i]| == |b[i]|
  {
    if a == [] then 0.0 else Dot(a[0], b[0]) + ColumnsDot(a[1..], b[1..])
  }

  function NetDot(a: Net, b: Net, ghost s: Shape): real
    requires Fits(a, s) && Fits(b, s)
  {
    ColumnsDot(a.w1, b.w1) + Dot(a.b1, b.b1) + ColumnsDot(a.w2, b.w2) + Dot(a.b2, b.b2)
  }

  lemma {:induction false} JoinedDot(a: seq<Vec>, b: seq<Vec>)
    requires |a| == |b| && forall i | 0 <= i < |a| :: |a[i]| == |b[i]|
    ensures |Joined(a)| == |Joined(b)| && Dot(Joined(a), Joined(b)) == ColumnsDot(a, b)
  {
    hide Dot;
    if a == [] {
      DotZero([]);
      assert Zero(0) == [];
    } else {
      JoinedDot(a[1..], b[1..]);
      DotConcat(a[0], Joined(a[1..]), b[0], Joined(b[1..]));
    }
  }

  /** The inner product of flat parameter vectors, block by block. */
  lemma FlattenDot(a: Net, b: Net, s: Shape)
    requires Fits(a, s) && Fits(b, s)
    ensures |Flatten(a)| == |Flatten(b)| && Dot(Flatten(a), Flatten(b)) == NetDot(a, b, s)
  {
    hide Dot, Joined;
    FlattenLength(a, s);
    FlattenLength(b, s);
    JoinedDot(a.w1, b.w1);
    JoinedDot(a.w2, b.w2);
    DotConcat(Joined(a.w1), a.b1, Joined(b.w1), b.b1);
    DotConcat(Joined(a.w1) + a.b1, Joined(a.w2), Joined(b.w1) + b.b1, Joined(b.w2));
    DotConcat(Joined(a.w1) + a.b1 + Joined(a.w2), a.b2, Joined(b.w1) + b.b1 + Joined(b.w2), b.b2);
  }

  /** Moving along a flat direction moves every block along its part of the direction. */
  lemma UnflattenAlong(n: Net, m: Net, s: Shape, t: real)
    requires Fits(n, s) && Fits(m, s)
    ensures |Flatten(n)| == |Flatten(m)| == ParameterCount(s) && Fits(NetScale(t, m), s)
    ensures Unflatten(Plus(Flatten(n), Scale(t, Flatten(m))), s) == NetPlus(n, NetScale(t, m), s)
  {
    hide Flatten, Unflatten, Scale;
    FlattenLength(n, s);
    FlattenLength(m, s);
    ScaledFits(m, s, t);
    FlattenScale(t, m);
    FlattenPlus(n, NetScale(t, m), s);
    UnflattenFlatten(NetPlus(n, NetScale(t, m), s), s);
  }

  lemma ScaledFits(m: Net, s: Shape, t: real)
    requires Fits(m, s)
    ensures Fits(NetScale(t, m), s)
  {
  }

  // ----- the policy object

  datatype PolicyError = ParameterSizeMismatch

  class MlpResidualPolicy {
    var w1: seq<Vec>
    var b1: Vec
    var w2: seq<Vec>
    var b2: Vec
    const shape: Shape

    ghost predicate Valid()
      reads this
    {
      Fits(Net(w1, b1, w2, b2), shape)
    }

    function Contents(): Net
      reads this
    {
      Net(w1, b1, w2, b2)
    }

    constructor (n: Net, s: Shape)
      requires Fits(n, s)
      ensures Valid() && Contents() == n && shape == s
    {
      w1, b1, w2, b2, shape := n.w1, n.b1, n.w2, n.b2, s;
    }

    /** Copies the four blocks behind one another. */
    method Parameters() returns (out: Vec)
      requires Valid()
      ensures out == Flatten(Contents()) && |out| == ParameterCount(shape)
    {
      FlattenLength(Contents(), shape);
      out := [];
      for col := 0 to |w1|
        invariant out + Joined(w1[col..]) == Joined(w1)
      {
        assert w1[col..][1..] == w1[col + 1..];
        out := out + w1[col];
      }
      assert out == Joined(w1) by { assert w1[|w1|..] == []; }
      out := out + b1;
      ghost var head := out;
      for col := 0 to |w2|
        invariant out + Joined(w2[col..]) == head + Joined(w2)
      {
        assert w2[col..][1..] == w2[col + 1..];
        out := out + w2[col];
      }
      assert out == head + Joined(w2) by { assert w2[|w2|..] == []; }
      out := out + b2;
    }

    /** Replaces every block, or refuses a vector of the wrong length and changes nothing. */
    method SetParameters(v: Vec) returns (r: Option<PolicyError>)
      requires Valid()
      modifies this
      ensures Valid() && (r.Some? <==> |v| != ParameterCount(shape))
      ensures Contents() == if r.None? then Unflatten(v, shape) else old(Contents())
    {
      if |v| != ParameterCount(shape) {
        return Some(ParameterSizeMismatch);
      }
      var offset := 0;
      w1 := Columns(v[offset..offset + shape.hidden * shape.input], shape.hidden, shape.input);
      offset := offset + shape.hidden * shape.input;
      b1 := v[offset..offset + shape.hidden];
      offset := offset + shape.hidden;
      w2 := Columns(v[offset..offset + shape.output * shape.hidden], shape.output, shape.hidden);
      offset := offset + shape.output * shape.hidden;
      b2 := v[offset..offset + shape.output];
      return None;
    }
  }
}
