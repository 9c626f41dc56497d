/** Forward pass, loss and hand-written backpropagation of the policy network. */
module Backprop {
  import opened LinearAlgebra
  import opened RmpConfig
  import opened Elementary
  import opened Network

  /** The elementary functions plus `log1p`. */
  datatype Activations = Activations(lib: Library, log1p: real -> real)

  /** `log1p(exp(x))`. */
  function SoftLog(a: Activations): real -> real { x => a.log1p(a.lib.exp(x)) }

  const SHORTCUT: real := 20.0

  /** `softplus`, with its shortcut above 20. */
  function Softplus(a: Activations): real -> real { x => if x > SHORTCUT then x else SoftLog(a)(x) }

  function Sqr(x: real): real { Times(x, x) }

  /** One training example: encoded input and flattened target. */
  datatype Example = Example(input: Vec, target: Vec)

  /** What the loss needs besides the parameters: which outputs are metric diagonals, and their floor. */
  datatype Task = Task(diagonal: seq<bool>, minDiag: real)

  ghost predicate FitsExample(e: Example, t: Task, s: Shape) {
    |e.input| == s.input && |e.target| == s.output && |t.diagonal| == s.output
  }

  // ----- forward

  function Preactivation(n: Net, x: Vec, ghost s: Shape): (z: Vec)
    requires Fits(n, s) && |x| == s.input
    ensures |z| == s.hidden
  {
    Plus(Combine(n.w1, x, |n.b1|), n.b1)
  }

  function Tanhs(a: Activations, z: Vec): (h: Vec)
    ensures |h| == |z|
  {
    seq(|z|, i requires 0 <= i < |z| => a.lib.tanh(z[i]))
  }

  function Hidden(a: Activations, n: Net, x: Vec, ghost s: Shape): (h: Vec)
    requires Fits(n, s) && |x| == s.input
    ensures |h| == s.hidden
  {
    Tanhs(a, Preactivation(n, x, s))
  }

  function Output(n: Net, h: Vec, ghost s: Shape): (r: Vec)
    requires Fits(n, s) && |h| == s.hidden
    ensures |r| == s.output
  {
    Plus(Combine(n.w2, h, |n.b2|), n.b2)
  }

  /** `forward_raw`. */
  function Raw(a: Activations, n: Net, x: Vec, ghost s: Shape): (r: Vec)
    requires Fits(n, s) && |x| == s.input
    ensures |r| == s.output
  {
    Output(n, Hidden(a, n, x, s), s)
  }

  // ----- loss

  function Predicted(a: Activations, t: Task, diagonal: bool, raw: real): real {
    if diagonal then Softplus(a)(raw) + t.minDiag else raw
  }

  function SlotError(a: Activations, t: Task, diagonal: bool, raw: real, target: real): real {
    Predicted(a, t, diagonal, raw) - target
  }

  /** The derivative the program uses for a slot: `sigmoid` on the diagonal slots, also above the shortcut. */
  function UsedSlope(a: Activations, diagonal: bool, raw: real): real { if diagonal then Sigmoid(a.lib, raw) else 1.0 }

  /** The derivative of a slot's prediction. */
  function TrueSlope(a: Activations, diagonal: bool, raw: real): real {
    if diagonal && raw <= SHORTCUT then Sigmoid(a.lib, raw) else 1.0
  }

  /** The squared errors of the first `k` slots. */
  function SlotLosses(a: Activations, t: Task, raw: Vec, target: Vec, k: nat): real
    requires k <= |raw| == |target| == |t.diagonal|
  {
    if k == 0 then 0.0
    else SlotLosses(a, t, raw, target, k - 1) + Sqr(SlotError(a, t, t.diagonal[k - 1], raw[k - 1], target[k - 1]))
  }

  function ExampleLoss(a: Activations, n: Net, t: Task, e: Example, ghost s: Shape): real
    requires Fits(n, s) && FitsExample(e, t, s)
  {
    SlotLosses(a, t, Raw(a, n, e.input, s), e.target, |e.target|)
  }

  ghost predicate FitsBatch(es: seq<Example>, t: Task, s: Shape) { forall i | 0 <= i < |es| :: FitsExample(es[i], t, s) }

  function LossSum(a: Activations, n: Net, t: Task, es: seq<Example>, ghost s: Shape): real
    requires Fits(n, s) && FitsBatch(es, t, s)
  {
    if es == [] then 0.0 else var k := |es| - 1; LossSum(a, n, t, es[..k], s) + ExampleLoss(a, n, t, es[k], s)
  }

  function BatchScale(es: seq<Example>): real
    requires es != []
  {
    1.0 / |es| as real
  }

  /** The reported loss: mean over the batch and over the output width. */
  function BatchLoss(a: Activations, n: Net, t: Task, es: seq<Example>, s: Shape): real
    requires Fits(n, s) && FitsBatch(es, t, s) && s.output > 0
  {
    if es == [] then 0.0 else Times(BatchScale(es) / s.output as real, LossSum(a, n, t, es, s))
  }

  // ----- backward

  /** Error times slope, slot by slot. */
  function SlotGradients(a: Activations, t: Task, raw: Vec, target: Vec, slope: (bool, real) -> real): (g: Vec)
    requires |raw| == |target| == |t.diagonal|
    ensures |g| == |raw|
  {
    seq(|raw|, i requires 0 <= i < |raw| =>
      Times(SlotError(a, t, t.diagonal[i], raw[i], target[i]), slope(t.diagonal[i], raw[i])))
  }

  /** The gradient at the raw output, for a choice of slot slopes. */
  function OutputGradient(a: Activations, t: Task, raw: Vec, target: Vec, slope: (bool, real) -> real): (g: Vec)
    requires |raw| == |target| == |t.diagonal| > 0
    ensures |g| == |raw|
  {
    Scale(2.0 / |raw| as real, SlotGradients(a, t, raw, target, slope))
  }

  function Used(a: Activations): (bool, real) -> real { (d, r) => UsedSlope(a, d, r) }

  function True(a: Activations): (bool, real) -> real { (d, r) => TrueSlope(a, d, r) }

  /** `grad_hidden * (1 - hidden^2)`. */
  function HiddenGradient(gh: Vec, h: Vec): (gz: Vec)
    requires |gh| == |h|
    ensures |gz| == |h|
  {
    seq(|h|, i requires 0 <= i < |h| => Times(gh[i], 1.0 - Sqr(h[i])))
  }

  /** The columns of `g x^T`. */
  function OuterColumns(g: Vec, x: Vec): (m: seq<Vec>)
    ensures |m| == |x| && IsMatrix(m, |g|)
  {
    seq(|x|, j requires 0 <= j < |x| => Scale(x[j], g))
  }

  /** The parameter gradient belonging to an output gradient. */
  function PullBack(n: Net, x: Vec, h: Vec, g: Vec, ghost s: Shape): (r: Net)
    requires Fits(n, s) && |x| == s.input && |h| == s.hidden && |g| == s.output
    ensures Fits(r, s)
  {
    var gz := HiddenGradient(Dots(n.w2, g), h);
    Net(OuterColumns(gz, x), gz, OuterColumns(g, h), g)
  }

  function ExampleGradient(a: Activations, n: Net, t: Task, e: Example, slope: (bool, real) -> real, ghost s: Shape): (r: Net)
    requires Fits(n, s) && FitsExample(e, t, s) && s.output > 0
    ensures Fits(r, s)
  {
    var h := Hidden(a, n, e.input, s);
    PullBack(n, e.input, h, OutputGradient(a, t, Output(n, h, s), e.target, slope), s)
  }

  function GradientSum(a: Activations, n: Net, t: Task, es: seq<Example>, slope: (bool, real) -> real, s: Shape): (r: Net)
    requires Fits(n, s) && FitsBatch(es, t, s) && s.output > 0
    ensures Fits(r, s)
  {
    if es == [] then NetZero(s)
    else var k := |es| - 1; NetPlus(GradientSum(a, n, t, es[..k], slope, s), ExampleGradient(a, n, t, es[k], slope, s), s)
  }

  /** The reported gradient, for a choice of slot slopes. */
  function BatchGradient(a: Activations, n: Net, t: Task, es: seq<Example>, slope: (bool, real) -> real, s: Shape): (r: Net)
    requires Fits(n, s) && FitsBatch(es, t, s) && s.output > 0
    ensures Fits(r, s)
  {
    if es == [] then NetZero(s)
    else
      ScaledFits(GradientSum(a, n, t, es, slope, s), s, BatchScale(es));
      NetScale(BatchScale(es), GradientSum(a, n, t, es, slope, s))
  }

  // ----- the loops of `supervised_batch_stats`

  datatype Stats = Stats(loss: real, gradient: Vec)

  /** One example: the slot loop that adds to the loss and fills the output gradient. */
  method Slots(a: Activations, t: Task, raw: Vec, target: Vec, loss0: real) returns (loss: real, g: Vec)
    requires |raw| == |target| == |t.diagonal| > 0
    ensures loss == loss0 + SlotLosses(a, t, raw, target, |raw|)
    ensures g == OutputGradient(a, t, raw, target, Used(a))
  {
    hide Times, Softplus, Sigmoid, Predicted, UsedSlope, SlotError;
    loss := loss0;
    var buffer := new real[|raw|](_ => 0.0);
    for i := 0 to |raw|
      invariant loss == loss0 + SlotLosses(a, t, raw, target, i)
      invariant forall j | 0 <= j < i ::
        buffer[j] == Times(SlotError(a, t, t.diagonal[j], raw[j], target[j]), UsedSlope(a, t.diagonal[j], raw[j]))
    {
      var error := SlotError(a, t, t.diagonal[i], raw[i], target[i]);
      loss := loss + Sqr(error);
      buffer[i] := Times(error, UsedSlope(a, t.diagonal[i], raw[i]));
    }
    var unscaled := buffer[..];
    assert unscaled == SlotGradients(a, t, raw, target, Used(a));
    g := Scale(2.0 / |raw| as real, unscaled);
  }

  /** `supervised_batch_stats`. */
  method SupervisedBatchStats(a: Activations, n: Net, t: Task, es: seq<Example>, s: Shape) returns (r: Stats)
    requires Fits(n, s) && FitsBatch(es, t, s) && s.output > 0
    ensures r.loss == BatchLoss(a, n, t, es, s)
    ensures r.gradient == Flatten(BatchGradient(a, n, t, es, Used(a), s)) && |r.gradient| == ParameterCount(s)
  {
    FlattenLength(BatchGradient(a, n, t, es, Used(a), s), s);
    if es == [] {
      return Stats(0.0, Flatten(NetZero(s)));
    }
    hide Flatten, ExampleGradient, SlotLosses, OutputGradient, Fits;
    var grad, loss := NetZero(s), 0.0;
    assert es[..0] == [];
    for k := 0 to |es|
      invariant Fits(grad, s) && FitsBatch(es[..k], t, s)
      invariant loss == LossSum(a, n, t, es[..k], s) && grad == GradientSum(a, n, t, es[..k], Used(a), s)
    {
      assert es[..k + 1][..k] == es[..k] && es[..k + 1][k] == es[k];
      assert FitsExample(es[k], t, s);
      var z1 := Preactivation(n, es[k].input, s);
      var hidden := Tanhs(a, z1);
      var raw := Output(n, hidden, s);
      var g;
      loss, g := Slots(a, t, raw, es[k].target, loss);
      ExampleGradientIs(a, n, t, es[k], s, hidden, g);
      grad := NetPlus(grad, PullBack(n, es[k].input, hidden, g, s), s);
    }
    assert es[..|es|] == es;
    ScaledFits(grad, s, BatchScale(es));
    return Stats(Times(BatchScale(es) / s.output as real, loss), Flatten(NetScale(BatchScale(es), grad)));
  }

  lemma ExampleGradientIs(a: Activations, n: Net, t: Task, e: Example, s: Shape, h: Vec, g: Vec)
    requires Fits(n, s) && FitsExample(e, t, s) && s.output > 0
    requires h == Hidden(a, n, e.input, s) && g == OutputGradient(a, t, Output(n, h, s), e.target, Used(a))
    ensures ExampleGradient(a, n, t, e, Used(a), s) == PullBack(n, e.input, h, g, s)
  {
  }
}
