/** The control loop: readiness gates, blending, integration, clamping, the floor check with its held state,
    and the command guard. */
module ControlLoop {
  import opened LinearAlgebra
  import opened RmpConfig

  const JOINTS: nat := 6

  /** What the guard takes for rounding when it reports that it has limited a command. */
  const TOLERANCE: real := 0.000000001

  datatype RobotState = RobotState(q: Vec, qd: Vec)

  ghost predicate IsState(s: RobotState) { |s.q| == |s.qd| == JOINTS }

  datatype Config = Config(lower: Vec, upper: Vec, blendQ: real, blendQd: real, useVelocity: bool, estimate: bool, alpha: real,
                           maxAccel: real, maxStep: real, maxVelocity: real, dt: real)

  ghost predicate ValidConfig(c: Config) {
    && |c.lower| == |c.upper| == JOINTS && (forall i | 0 <= i < JOINTS :: c.lower[i] <= c.upper[i])
    && 0.0 <= c.blendQ <= 1.0 && 0.0 <= c.blendQd <= 1.0 && 0.0 <= c.alpha <= 1.0
    && c.dt > 0.0 && c.maxStep > 0.0 && c.maxStep <= Times(c.maxVelocity, c.dt) && c.maxVelocity > 0.0
  }

  /** The constructor's clamping of its parameters. */
  function Configured(lower: Vec, upper: Vec, blendQ: real, blendQd: real, useVelocity: bool, estimate: bool, alpha: real,
                      maxAccel: real, maxStep: real, maxVelocity: real, rate: real): (c: Config)
    requires |lower| == |upper| == JOINTS && (forall i | 0 <= i < JOINTS :: lower[i] <= upper[i]) && rate > 0.0
    ensures ValidConfig(c)
  {
    var step := Max(maxStep, 0.0001);
    var velocity := Max(maxVelocity, Times(step, rate));
    RateBound(step, rate, velocity);
    Config(lower, upper, Clamp(blendQ, 0.0, 1.0), Clamp(blendQd, 0.0, 1.0), useVelocity, estimate, Clamp(alpha, 0.0, 1.0),
           maxAccel, step, velocity, 1.0 / rate)
  }

  lemma RateBound(step: real, rate: real, velocity: real)
    requires step > 0.0 && rate > 0.0 && velocity >= Times(step, rate)
    ensures 1.0 / rate > 0.0 && step <= Times(velocity, 1.0 / rate) && velocity > 0.0
  {
    var dt := 1.0 / rate;
    assert dt * rate == 1.0;
    if dt <= 0.0 { ProductSign(-dt, rate, -(dt * rate)); }
    ProductSign(step, rate, step * rate);
    ProductSign(velocity - step * rate, dt, (velocity - step * rate) * dt);
    assert step * rate * dt == step * (dt * rate);
    assert (velocity - step * rate) * dt == velocity * dt - step * rate * dt;
  }

  /** The per-tick joint step the guard allows. */
  function StepLimit(c: Config): real { Max(c.maxStep, Times(c.maxVelocity, c.dt)) }

  lemma StepLimitIs(c: Config)
    requires ValidConfig(c)
    ensures StepLimit(c) == c.maxVelocity * c.dt && StepLimit(c) > 0.0
  {
    TimesOf(c.maxVelocity, c.dt);
  }

  // ----- one tick, step by step

  function Blend(b: real, x: Vec, y: Vec): (r: Vec)
    requires |x| == |y|
    ensures |r| == |x|
  {
    Plus(Scale(b, x), Scale(1.0 - b, y))
  }

  function ClampPositions(c: Config, q: Vec): (r: Vec)
    requires |c.lower| == |c.upper| == |q| == JOINTS
    ensures |r| == JOINTS
  {
    seq(JOINTS, i requires 0 <= i < JOINTS => Clamp(q[i], c.lower[i], c.upper[i]))
  }

  /** `integrate_command`. */
  function Integrated(c: Config, s: RobotState, qdd: Vec): (r: RobotState)
    requires |c.lower| == |c.upper| == |qdd| == JOINTS && IsState(s)
    ensures IsState(r)
  {
    var qd := Plus(s.qd, Scale(c.dt, qdd));
    var q := ClampPositions(c, Plus(s.q, Scale(c.dt, qd)));
    RobotState(q, seq(JOINTS, i requires 0 <= i < JOINTS =>
      if (q[i] <= c.lower[i] + 0.1 && qd[i] < 0.0) || (q[i] >= c.upper[i] - 0.1 && qd[i] > 0.0) then qd[i] * 0.5 else qd[i]))
  }

  /** `apply_command_guard`. */
  function Guarded(c: Config, measured: RobotState, command: RobotState): (r: RobotState)
    requires IsState(measured) && IsState(command)
    ensures IsState(r)
  {
    var step := StepLimit(c);
    RobotState(
      seq(JOINTS, i requires 0 <= i < JOINTS => measured.q[i] + Clamp(command.q[i] - measured.q[i], -step, step)),
      seq(JOINTS, i requires 0 <= i < JOINTS => Clamp(command.qd[i], -c.maxVelocity, c.maxVelocity)))
  }

  /** The guard has something to limit in joint `j`, by more than its tolerance. */
  predicate Exceeds(c: Config, measured: RobotState, command: RobotState, j: nat)
    requires |measured.q| == JOINTS && |command.q| == JOINTS && |command.qd| == JOINTS && j < JOINTS
  {
    Abs(command.q[j] - measured.q[j]) > StepLimit(c) + TOLERANCE || Abs(command.qd[j]) > c.maxVelocity + TOLERANCE
  }

  datatype Estimator = Estimator(previous: Vec, estimate: Vec)

  /** What survives from tick to tick: the virtual state, the held state and the velocity estimator, each
      absent while uninitialised, and the trigger flag. */
  datatype Loop = Loop(virtual: Option<RobotState>, held: Option<RobotState>, estimator: Option<Estimator>, triggered: bool)

  ghost predicate ValidLoop(l: Loop) {
    && (l.virtual.Some? ==> IsState(l.virtual.value)) && (l.held.Some? ==> IsState(l.held.value))
    && (l.estimator.Some? ==> |l.estimator.value.previous| == |l.estimator.value.estimate| == JOINTS)
  }

  /** `estimate_controller_velocity`. */
  function Estimated(c: Config, e: Option<Estimator>, q: Vec): (r: Estimator)
    requires |q| == JOINTS && (e.Some? ==> |e.value.previous| == |e.value.estimate| == JOINTS)
    ensures |r.previous| == |r.estimate| == JOINTS
  {
    if e.None? || c.dt <= EPSILON then Estimator(q, Zero(JOINTS))
    else Estimator(q, Blend(c.alpha, Scale(1.0 / c.dt, Minus(q, e.value.previous)), e.value.estimate))
  }

  /** What one tick meets. `solve` is the acceleration for a control state, `None` when the solver throws;
      `low` is the floor check. */
  datatype Input =
    | NotReady
    | Standby(measured: RobotState)
    | NoGoal(measured: RobotState)
    | Active(measured: RobotState, solve: RobotState -> Option<Vec>, low: Vec -> bool)

  ghost predicate ValidInput(i: Input) {
    && (!i.NotReady? ==> IsState(i.measured))
    && (i.Active? ==> forall s | IsState(s) && i.solve(s).Some? :: |i.solve(s).value| == JOINTS)
  }

  /** The measured state with its velocity, re-estimated when so configured. */
  function Measured(c: Config, l: Loop, s: RobotState): (r: (RobotState, Option<Estimator>))
    requires IsState(s) && ValidLoop(l)
    ensures IsState(r.0) && r.0.q == s.q && (r.1.Some? ==> |r.1.value.previous| == |r.1.value.estimate| == JOINTS)
  {
    if c.estimate then
      var e := Estimated(c, l.estimator, s.q);
      (RobotState(s.q, e.estimate), Some(e))
    else (s, l.estimator)
  }

  /** The state the solver sees. */
  function ControlState(c: Config, l: Loop, m: RobotState): (r: RobotState)
    requires IsState(m) && ValidLoop(l)
    ensures IsState(r)
  {
    var s := if l.virtual.Some? then
               RobotState(Blend(c.blendQ, m.q, l.virtual.value.q), Blend(c.blendQd, m.qd, l.virtual.value.qd))
             else m;
    if c.useVelocity then s else RobotState(s.q, Zero(JOINTS))
  }

  function ClampVec(limit: real, v: Vec): (r: Vec)
    ensures |r| == |v|
  {
    seq(|v|, i requires 0 <= i < |v| => Clamp(v[i], -limit, limit))
  }

  /** The solver's acceleration clamped, or zero after a failure. */
  function CommandedAcceleration(c: Config, solved: Option<Vec>): (r: Vec)
    requires solved.Some? ==> |solved.value| == JOINTS
    ensures |r| == JOINTS
  {
    match solved
    case None => Zero(JOINTS)
    case Some(v) => ClampVec(c.maxAccel, v)
  }

  /** The held state this tick starts from: a safe measurement fills an empty one. */
  function HeldAtStart(l: Loop, m: RobotState, low: Vec -> bool): Option<RobotState> {
    if l.held.None? && !low(m.q) then Some(RobotState(m.q, Zero(JOINTS))) else l.held
  }

  function Predicted(c: Config, l: Loop, m: RobotState, solve: RobotState -> Option<Vec>): (r: RobotState)
    requires ValidConfig(c) && IsState(m) && ValidLoop(l)
    requires forall s | IsState(s) && solve(s).Some? :: |solve(s).value| == JOINTS
    ensures IsState(r)
  {
    var s := ControlState(c, l, m);
    Integrated(c, s, CommandedAcceleration(c, solve(s)))
  }

  /** The command before the guard. */
  function Wanted(held: Option<RobotState>, m: RobotState, predicted: RobotState, trigger: bool): RobotState {
    if !trigger then predicted
    else if held.Some? then RobotState(held.value.q, Zero(JOINTS))
    else RobotState(m.q, Zero(JOINTS))
  }

  /** A full tick of the active loop. */
  function ActiveTick(c: Config, l: Loop, i: Input): (r: (Loop, RobotState))
    requires ValidConfig(c) && ValidLoop(l) && ValidInput(i) && i.Active?
    ensures ValidLoop(r.0) && IsState(r.1)
  {
    var (m, estimator) := Measured(c, l, i.measured);
    ActiveFrom(c, l.(estimator := estimator), m, i)
  }

  /** The tick from the measured state on. */
  function ActiveFrom(c: Config, l: Loop, m: RobotState, i: Input): (r: (Loop, RobotState))
    requires ValidConfig(c) && ValidLoop(l) && ValidInput(i) && i.Active? && IsState(m)
    ensures ValidLoop(r.0) && IsState(r.1)
  {
    var held := HeldAtStart(l, m, i.low);
    var predicted := Predicted(c, l, m, i.solve);
    var trigger := i.low(m.q) || i.low(predicted.q);
    var command := Guarded(c, m, Wanted(held, m, predicted, trigger));
    (Loop(Some(command), if trigger then held else Some(command), l.estimator, trigger), command)
  }

  /** One tick: the next loop state, and the command applied if the gates let one through. */
  function Tick(c: Config, l: Loop, i: Input): (r: (Loop, Option<RobotState>))
    requires ValidConfig(c) && ValidLoop(l) && ValidInput(i)
    ensures ValidLoop(r.0) && (r.1.Some? ==> IsState(r.1.value))
  {
    match i
    case NotReady => (Loop(None, None, None, l.triggered), None)
    case Standby(s) => (Loop(None, None, Measured(c, l, s).1, l.triggered), None)
    case NoGoal(s) => (Loop(None, None, Measured(c, l, s).1, l.triggered), None)
    case Active(_, _, _) => var (next, command) := ActiveTick(c, l, i); (next, Some(command))
  }

  // ----- the loop object

  /** The controller's fields; the flags say which of the stored states count. */
  class Controller {
    const c: Config
    var virtualState: RobotState
    var virtualInitialized: bool
    var safeState: RobotState
    var safeInitialized: bool
    var estimatorInitialized: bool
    var previousQ: Vec
    var estimate: Vec
    var triggered: bool

    ghost function Contents(): Loop
      reads this
    {
      Loop(if virtualInitialized then Some(virtualState) else None,
           if safeInitialized then Some(safeState) else None,
           if estimatorInitialized then Some(Estimator(previousQ, estimate)) else None, triggered)
    }

    ghost predicate Valid()
      reads this
    {
      ValidConfig(c) && ValidLoop(Contents())
    }

    constructor (config: Config)
      requires ValidConfig(config)
      ensures Valid() && c == config && Contents() == Loop(None, None, None, false)
    {
      c := config;
      virtualState, safeState := RobotState([], []), RobotState([], []);
      virtualInitialized, safeInitialized, estimatorInitialized, triggered := false, false, false, false;
      previousQ, estimate := [], [];
    }

    method EstimateVelocity(q: Vec) returns (qd: Vec)
      requires Valid() && |q| == JOINTS
      modifies this`previousQ, this`estimate, this`estimatorInitialized
      ensures Valid() && estimatorInitialized && |qd| == JOINTS
      ensures Estimator(previousQ, estimate) == Estimated(c, old(Contents()).estimator, q) && qd == estimate
    {
      if !estimatorInitialized || c.dt <= EPSILON {
        previousQ, estimate := q, Zero(JOINTS);
        estimatorInitialized := true;
        return estimate;
      }
      var raw := Scale(1.0 / c.dt, Minus(q, previousQ));
      previousQ := q;
      estimate := Blend(c.alpha, raw, estimate);
      return estimate;
    }

    /** The guard's loop over the joints, clamping the command in place; it reports whether any joint was limited. */
    method ApplyGuard(measured: RobotState, command: RobotState) returns (guarded: RobotState, clamped: bool)
      requires Valid() && IsState(measured) && IsState(command)
      ensures guarded == Guarded(c, measured, command)
      ensures clamped <==> exists j :: 0 <= j < JOINTS && Exceeds(c, measured, command, j)
    {
      hide StepLimit;
      StepLimitIs(c);
      clamped := false;
      var step := StepLimit(c);
      var q, qd := new real[JOINTS](i requires 0 <= i < JOINTS => command.q[i]), new real[JOINTS](i requires 0 <= i < JOINTS => command.qd[i]);
      for i := 0 to JOINTS
        invariant forall j | 0 <= j < i :: q[j] == Guarded(c, measured, command).q[j] && qd[j] == Guarded(c, measured, command).qd[j]
        invariant forall j | i <= j < JOINTS :: q[j] == command.q[j] && qd[j] == command.qd[j]
        invariant clamped <==> exists j :: 0 <= j < i && Exceeds(c, measured, command, j)
      {
        var delta := q[i] - measured.q[i];
        var limited := Clamp(delta, -step, step);
        var limitedVelocity := Clamp(qd[i], -c.maxVelocity, c.maxVelocity);
        if Abs(limited - delta) > TOLERANCE || Abs(limitedVelocity - qd[i]) > TOLERANCE { clamped := true; }
        assert Exceeds(c, measured, command, i) <==> Abs(limited - delta) > TOLERANCE || Abs(limitedVelocity - qd[i]) > TOLERANCE;
        q[i] := measured.q[i] + limited;
        qd[i] := limitedVelocity;
      }
      guarded := RobotState(q[..], qd[..]);
    }

    /** The blending of measured and virtual state. */
    method Control(measured: RobotState) returns (control: RobotState)
      requires Valid() && IsState(measured)
      ensures control == ControlState(c, Contents(), measured)
    {
      control := measured;
      if virtualInitialized {
        control := RobotState(Blend(c.blendQ, measured.q, virtualState.q), Blend(c.blendQd, measured.qd, virtualState.qd));
      }
      if !c.useVelocity {
        control := RobotState(control.q, Zero(JOINTS));
      }
    }

    /** The loop body past the gates. */
    method RunActive(measured: RobotState, i: Input) returns (command: RobotState)
      requires Valid() && ValidInput(i) && i.Active? && IsState(measured)
      modifies this
      ensures Valid() && (Contents(), command) == ActiveFrom(c, old(Contents()), measured, i)
    {
      hide Estimated, ControlState, Integrated, Guarded, CommandedAcceleration;
      var measuredLow := i.low(measured.q);
      var control := Control(measured);
      if !safeInitialized && !measuredLow {
        safeState := RobotState(measured.q, Zero(JOINTS));
        safeInitialized := true;
      }
      triggered := false;
      var qdd := CommandedAcceleration(c, i.solve(control));
      var predicted := Integrated(c, control, qdd);
      command := predicted;
      var trigger := measuredLow || i.low(predicted.q);
      if trigger {
        command := RobotState(if safeInitialized then safeState.q else measured.q, Zero(JOINTS));
        triggered := true;
      }
      var limited;
      command, limited := ApplyGuard(measured, command);
      if !trigger {
        safeState := command;
        safeInitialized := true;
      }
      virtualState := command;
      virtualInitialized := true;
    }

    /** One pass of `control_loop`. */
    method Run(i: Input) returns (applied: Option<RobotState>)
      requires Valid() && ValidInput(i)
      modifies this
      ensures Valid() && (Contents(), applied) == Tick(c, old(Contents()), i)
    {
      hide Estimated, ActiveFrom, ValidConfig;
      if i.NotReady? {
        virtualInitialized, safeInitialized, estimatorInitialized := false, false, false;
        return None;
      }
      var measured := i.measured;
      if c.estimate {
        var qd := EstimateVelocity(measured.q);
        measured := RobotState(measured.q, qd);
      }
      if i.Standby? || i.NoGoal? {
        virtualInitialized, safeInitialized := false, false;
        return None;
      }
      var command := RunActive(measured, i);
      return Some(command);
    }
  }

  // ----- limits and step bounds

  ghost predicate Within(c: Config, q: Vec)
    requires |c.lower| == |c.upper| == |q| == JOINTS
  {
    forall i | 0 <= i < JOINTS :: c.lower[i] <= q[i] <= c.upper[i]
  }

  /** The held state, when there is one, is within the joint limits. */
  ghost predicate HeldWithin(c: Config, l: Loop)
    requires ValidConfig(c) && ValidLoop(l)
  {
    l.held.Some? ==> Within(c, l.held.value.q)
  }

  lemma GuardedBetween(c: Config, measured: RobotState, command: RobotState, i: nat)
    requires ValidConfig(c) && IsState(measured) && IsState(command) && i < JOINTS
    ensures var x, m, w := Guarded(c, measured, command).q[i], measured.q[i], command.q[i];
      && (m <= x <= w || w <= x <= m) && Abs(x - m) <= StepLimit(c)
      && (Abs(w - m) <= StepLimit(c) ==> x == w)
      && Abs(w - x) == Max(Abs(w - m) - StepLimit(c), 0.0)
    ensures Abs(Guarded(c, measured, command).qd[i]) <= c.maxVelocity
  {
    StepLimitIs(c);
  }

  lemma WantedWithin(c: Config, held: Option<RobotState>, m: RobotState, predicted: RobotState, trigger: bool)
    requires ValidConfig(c) && IsState(m) && IsState(predicted) && (held.Some? ==> IsState(held.value) && Within(c, held.value.q))
    requires Within(c, m.q) && Within(c, predicted.q)
    ensures IsState(Wanted(held, m, predicted, trigger)) && Within(c, Wanted(held, m, predicted, trigger).q)
  {
  }

  /** One active tick from a measurement within the limits: the command is within them too, at most one step
      from the measurement in every joint, no faster than allowed, and the held state stays within limits. */
  lemma ActiveTickBounds(c: Config, l: Loop, i: Input)
    requires ValidConfig(c) && ValidLoop(l) && ValidInput(i) && i.Active? && HeldWithin(c, l) && Within(c, i.measured.q)
    ensures var (next, command) := ActiveTick(c, l, i);
      && HeldWithin(c, next) && Within(c, command.q)
      && forall j | 0 <= j < JOINTS ::
           Abs(command.q[j] - i.measured.q[j]) <= c.maxVelocity * c.dt && Abs(command.qd[j]) <= c.maxVelocity
  {
    hide Guarded, Estimated, ControlState, CommandedAcceleration, StepLimit;
    var (m, estimator) := Measured(c, l, i.measured);
    var held := HeldAtStart(l, m, i.low);
    var predicted := Predicted(c, l.(estimator := estimator), m, i.solve);
    PredictedWithin(c, l.(estimator := estimator), m, i.solve);
    var wanted := Wanted(held, m, predicted, i.low(m.q) || i.low(predicted.q));
    WantedWithin(c, held, m, predicted, i.low(m.q) || i.low(predicted.q));
    StepLimitIs(c);
    forall j | 0 <= j < JOINTS
      ensures c.lower[j] <= Guarded(c, m, wanted).q[j] <= c.upper[j]
      ensures Abs(Guarded(c, m, wanted).q[j] - m.q[j]) <= c.maxVelocity * c.dt
      ensures Abs(Guarded(c, m, wanted).qd[j]) <= c.maxVelocity
    {
      GuardedBetween(c, m, wanted, j);
    }
  }

  lemma PredictedWithin(c: Config, l: Loop, m: RobotState, solve: RobotState -> Option<Vec>)
    requires ValidConfig(c) && IsState(m) && ValidLoop(l)
    requires forall s | IsState(s) && solve(s).Some? :: |solve(s).value| == JOINTS
    ensures Within(c, Predicted(c, l, m, solve).q)
  {
    hide ControlState, CommandedAcceleration;
    var s := ControlState(c, l, m);
    ClampedWithin(c, Plus(s.q, Scale(c.dt, Plus(s.qd, Scale(c.dt, CommandedAcceleration(c, solve(s)))))));
  }

  lemma ClampedWithin(c: Config, q: Vec)
    requires ValidConfig(c) && |q| == JOINTS
    ensures Within(c, ClampPositions(c, q))
  {
  }

  // ----- runs

  /** The loop after a list of inputs. */
  function After(c: Config, l: Loop, inputs: seq<Input>): (r: Loop)
    requires ValidConfig(c) && ValidLoop(l) && forall k | 0 <= k < |inputs| :: ValidInput(inputs[k])
    ensures ValidLoop(r)
  {
    if inputs == [] then l else var k := |inputs| - 1; Tick(c, After(c, l, inputs[..k]), inputs[k]).0
  }

  /** The command applied at input `k`, if any. */
  function CommandAt(c: Config, l: Loop, inputs: seq<Input>, k: nat): (r: Option<RobotState>)
    requires ValidConfig(c) && ValidLoop(l) && k < |inputs| && forall j | 0 <= j < |inputs| :: ValidInput(inputs[j])
    ensures r.Some? ==> IsState(r.value)
  {
    Tick(c, After(c, l, inputs[..k]), inputs[k]).1
  }

  ghost predicate MeasuredWithin(c: Config, inputs: seq<Input>)
    requires ValidConfig(c)
  {
    forall k | 0 <= k < |inputs| && !inputs[k].NotReady? :: IsState(inputs[k].measured) && Within(c, inputs[k].measured.q)
  }

  lemma {:induction false} HeldStaysWithin(c: Config, l: Loop, inputs: seq<Input>)
    requires ValidConfig(c) && ValidLoop(l) && (forall k | 0 <= k < |inputs| :: ValidInput(inputs[k]))
    requires HeldWithin(c, l) && MeasuredWithin(c, inputs)
    ensures HeldWithin(c, After(c, l, inputs))
  {
    hide ActiveTick, Within, ValidConfig, Measured;
    if inputs != [] {
      var k := |inputs| - 1;
      HeldStaysWithin(c, l, inputs[..k]);
      if inputs[k].Active? { ActiveTickBounds(c, After(c, l, inputs[..k]), inputs[k]); }
    }
  }

  /** Over every run whose measurements stay within the joint limits, every applied command does too, held and
      guard-limited ones included, and differs from its measurement by at most `maxVelocity * dt` per joint. */
  lemma CommandsBounded(c: Config, inputs: seq<Input>, k: nat)
    requires ValidConfig(c) && (forall j | 0 <= j < |inputs| :: ValidInput(inputs[j])) && MeasuredWithin(c, inputs)
    requires k < |inputs| && CommandAt(c, Loop(None, None, None, false), inputs, k).Some?
    ensures var command := CommandAt(c, Loop(None, None, None, false), inputs, k).value;
      && Within(c, command.q)
      && forall j | 0 <= j < JOINTS ::
           Abs(command.q[j] - inputs[k].measured.q[j]) <= c.maxVelocity * c.dt && Abs(command.qd[j]) <= c.maxVelocity
  {
    hide ActiveTick, Measured;
    HeldStaysWithin(c, Loop(None, None, None, false), inputs[..k]);
    ActiveTickBounds(c, After(c, Loop(None, None, None, false), inputs[..k]), inputs[k]);
  }
}
