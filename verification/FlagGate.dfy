/** The control loop and the flag and goal callbacks as two threads, interleaved at every access to the state
    they share. */
module FlagGate {
  import opened LinearAlgebra
  import opened RmpConfig
  import opened ControlLoop

  /** What stays fixed over a run: `low` is the floor check once it is enabled and active. */
  datatype Setup = Setup(c: Config, gated: bool, low: Vec -> bool)

  /** Where the loop thread is, with the locals it carries. */
  datatype Pc =
    | Top
    | ClearVirtual
    | ClearHeld
    | CheckFlag(m: RobotState)
    | CheckGoal(m: RobotState)
    | CheckFloor(m: RobotState)
    | HoldMeasured(m: RobotState, mLow: bool)
    | BlendStates(m: RobotState, mLow: bool)
    | ClearTrigger(m: RobotState, mLow: bool, control: RobotState)
    | Predict(m: RobotState, mLow: bool, control: RobotState)
    | ReadTrigger(m: RobotState, predicted: RobotState, trigger: bool)
    | Choose(m: RobotState, predicted: RobotState, trigger: bool)
    | MarkTrigger(m: RobotState, wanted: RobotState)
    | KeepHeld(m: RobotState, command: RobotState)
    | Apply(m: RobotState, command: RobotState, trigger: bool)
    | KeepVirtual(command: RobotState)

  /** Where the callback thread is: a deactivating flag message clears three shared fields one by one. */
  datatype Callback = Idle | ForgetVirtual | ForgetHeld | ForgetTrigger

  datatype Entry = Activated | Deactivated | GoalSeen | Applied(measured: RobotState, command: RobotState)

  datatype State = State(pc: Pc, callback: Callback, active: bool, goal: bool, loop: Loop, log: seq<Entry>)

  /** What a loop step may meet; each step looks only at the part it needs. */
  datatype Env = Env(ready: bool, measured: RobotState, solve: RobotState -> Option<Vec>)

  datatype Event = LoopStep(env: Env) | FlagMessage(active: bool) | CallbackStep | GoalMessage

  ghost predicate ValidEvent(e: Event) {
    e.LoopStep? ==>
      IsState(e.env.measured) && forall s | IsState(s) && e.env.solve(s).Some? :: |e.env.solve(s).value| == JOINTS
  }

  ghost predicate ValidEvents(events: seq<Event>) { forall k | 0 <= k < |events| :: ValidEvent(events[k]) }

  function Initial(u: Setup): State {
    State(Top, Idle, !u.gated, false, Loop(None, None, None, false), [])
  }

  /** `violates_min_z_safety` reads the flag itself. */
  function LowNow(u: Setup, s: State, q: Vec): bool { !(u.gated && !s.active) && u.low(q) }

  ghost predicate ValidPc(pc: Pc) {
    match pc
    case Top => true
    case ClearVirtual => true
    case ClearHeld => true
    case CheckFlag(m) => IsState(m)
    case CheckGoal(m) => IsState(m)
    case CheckFloor(m) => IsState(m)
    case HoldMeasured(m, _) => IsState(m)
    case BlendStates(m, _) => IsState(m)
    case ClearTrigger(m, _, control) => IsState(m) && IsState(control)
    case Predict(m, _, control) => IsState(m) && IsState(control)
    case ReadTrigger(m, predicted, _) => IsState(m) && IsState(predicted)
    case Choose(m, predicted, _) => IsState(m) && IsState(predicted)
    case MarkTrigger(m, wanted) => IsState(m) && IsState(wanted)
    case KeepHeld(m, command) => IsState(m) && IsState(command)
    case Apply(m, command, _) => IsState(m) && IsState(command)
    case KeepVirtual(command) => IsState(command)
  }

  ghost predicate ValidState(u: Setup, s: State) { ValidConfig(u.c) && ValidLoop(s.loop) && ValidPc(s.pc) }

  /** One step of the loop thread. */
  function LoopNext(u: Setup, s: State, env: Env): (r: State)
    requires ValidState(u, s) && ValidEvent(LoopStep(env))
    ensures ValidState(u, r)
  {
    match s.pc
    case Top =>
      if !env.ready then s.(pc := ClearVirtual, loop := s.loop.(estimator := None))
      else var (m, estimator) := Measured(u.c, s.loop, env.measured);
           s.(pc := CheckFlag(m), loop := s.loop.(estimator := estimator))
    case ClearVirtual => s.(pc := ClearHeld, loop := s.loop.(virtual := None))
    case ClearHeld => s.(pc := Top, loop := s.loop.(held := None))
    case CheckFlag(m) => s.(pc := if u.gated && !s.active then ClearVirtual else CheckGoal(m))
    case CheckGoal(m) => s.(pc := if u.gated && !s.goal then ClearVirtual else CheckFloor(m))
    case CheckFloor(m) => s.(pc := HoldMeasured(m, LowNow(u, s, m.q)))
    case HoldMeasured(m, mLow) =>
      s.(pc := BlendStates(m, mLow),
         loop := if s.loop.held.None? && !mLow then s.loop.(held := Some(RobotState(m.q, Zero(JOINTS)))) else s.loop)
    case BlendStates(m, mLow) => s.(pc := ClearTrigger(m, mLow, ControlState(u.c, s.loop, m)))
    case ClearTrigger(m, mLow, control) => s.(pc := Predict(m, mLow, control), loop := s.loop.(triggered := false))
    case Predict(m, mLow, control) =>
      var predicted := Integrated(u.c, control, CommandedAcceleration(u.c, env.solve(control)));
      s.(pc := ReadTrigger(m, predicted, mLow || LowNow(u, s, predicted.q)))
    case ReadTrigger(m, predicted, trigger) => s.(pc := Choose(m, predicted, trigger))
    case Choose(m, predicted, trigger) =>
      var wanted := Wanted(s.loop.held, m, predicted, trigger);
      s.(pc := if trigger then MarkTrigger(m, wanted) else KeepHeld(m, Guarded(u.c, m, wanted)))
    case MarkTrigger(m, wanted) => s.(pc := Apply(m, Guarded(u.c, m, wanted), true), loop := s.loop.(triggered := true))
    case KeepHeld(m, command) => s.(pc := Apply(m, command, false), loop := s.loop.(held := Some(command)))
    case Apply(m, command, _) => s.(pc := KeepVirtual(command), log := s.log + [Applied(m, command)])
    case KeepVirtual(command) => s.(pc := Top, loop := s.loop.(virtual := Some(command)))
  }

  /** One event. The callbacks run on one executor thread, so a message is taken only when none is in progress. */
  function Next(u: Setup, s: State, e: Event): (r: State)
    requires ValidState(u, s) && ValidEvent(e)
    ensures ValidState(u, r)
  {
    match e
    case LoopStep(env) => LoopNext(u, s, env)
    case FlagMessage(active) =>
      if s.callback != Idle then s
      else s.(active := active, callback := if active then Idle else ForgetVirtual,
              log := s.log + [if active then Activated else Deactivated])
    case GoalMessage => if s.callback != Idle then s else s.(goal := true, log := s.log + [GoalSeen])
    case CallbackStep =>
      match s.callback
      case Idle => s
      case ForgetVirtual => s.(callback := ForgetHeld, loop := s.loop.(virtual := None))
      case ForgetHeld => s.(callback := ForgetTrigger, loop := s.loop.(held := None))
      case ForgetTrigger => s.(callback := Idle, loop := s.loop.(triggered := false))
  }

  function Run(u: Setup, s: State, events: seq<Event>): (r: State)
    requires ValidState(u, s) && forall k | 0 <= k < |events| :: ValidEvent(events[k])
    ensures ValidState(u, r)
  {
    if events == [] then s else var k := |events| - 1; Next(u, Run(u, s, events[..k]), events[k])
  }

  // ----- the gate

  /** The flag as the log tells it. */
  function Flag(log: seq<Entry>): bool {
    if log == [] then false
    else var e := log[|log| - 1]; e.Activated? || (!e.Deactivated? && Flag(log[..|log| - 1]))
  }

  /** Commands applied since the flag last turned off (or since the start); a repeated deactivation counts on. */
  function SinceOff(log: seq<Entry>): nat {
    if log == [] then 0
    else
      var k := |log| - 1;
      match log[k]
      case Applied(_, _) => SinceOff(log[..k]) + 1
      case Activated => 0
      case Deactivated => if Flag(log[..k]) then 0 else SinceOff(log[..k])
      case GoalSeen => SinceOff(log[..k])
  }

  /** Every applied command comes after an activation and a goal, and at most one comes while the flag is off. */
  ghost predicate GateLog(log: seq<Entry>) {
    log == [] || (var k := |log| - 1;
      GateLog(log[..k]) && (log[k].Applied? ==> Activated in log[..k] && GoalSeen in log[..k]) && (!Flag(log) ==> SinceOff(log) <= 1))
  }

  /** The loop has passed the flag check and has not applied its command yet. */
  predicate CommandComing(pc: Pc) {
    !(pc.Top? || pc.ClearVirtual? || pc.ClearHeld? || pc.CheckFlag? || pc.KeepVirtual?)
  }

  ghost predicate GateInv(s: State) {
    && GateLog(s.log) && s.active == Flag(s.log) && (s.active ==> Activated in s.log) && (s.goal ==> GoalSeen in s.log)
    && (CommandComing(s.pc) ==> Activated in s.log)
    && (CommandComing(s.pc) && !s.pc.CheckGoal? ==> GoalSeen in s.log)
    && (!s.active ==> SinceOff(s.log) + (if CommandComing(s.pc) then 1 else 0) <= 1)
  }

  lemma Logged(log: seq<Entry>, e: Entry)
    ensures var after := log + [e];
      && Flag(after) == (e.Activated? || (!e.Deactivated? && Flag(log)))
      && SinceOff(after) == (match e
           case Applied(_, _) => SinceOff(log) + 1
           case Activated => 0
           case Deactivated => if Flag(log) then 0 else SinceOff(log)
           case GoalSeen => SinceOff(log))
      && (GateLog(after) == (GateLog(log) && (e.Applied? ==> Activated in log && GoalSeen in log) && (!Flag(after) ==> SinceOff(after) <= 1)))
      && forall x :: x in after <==> x in log || x == e
  {
    assert (log + [e])[..|log|] == log;
  }

  lemma GateInvLoop(u: Setup, s: State, env: Env)
    requires ValidState(u, s) && ValidEvent(LoopStep(env)) && u.gated && GateInv(s)
    ensures GateInv(LoopNext(u, s, env))
  {
    hide ValidLoop, Measured, ControlState, Integrated, CommandedAcceleration, Wanted, Guarded, ValidConfig, LowNow,
      GateLog, Flag, SinceOff;
    if s.pc.Apply? { Logged(s.log, Applied(s.pc.m, s.pc.command)); }
  }

  lemma GateInvStep(u: Setup, s: State, e: Event)
    requires ValidState(u, s) && ValidEvent(e) && u.gated && GateInv(s)
    ensures GateInv(Next(u, s, e))
  {
    hide ValidLoop, ValidPc, LoopNext, ValidConfig, GateLog, Flag, SinceOff, CommandComing;
    match e {
      case LoopStep(env) => GateInvLoop(u, s, env);
      case FlagMessage(active) => Logged(s.log, if active then Activated else Deactivated);
      case GoalMessage => Logged(s.log, GoalSeen);
      case CallbackStep =>
    }
  }

  lemma {:induction false} GateHolds(u: Setup, events: seq<Event>)
    requires ValidConfig(u.c) && u.gated && forall k | 0 <= k < |events| :: ValidEvent(events[k])
    ensures GateInv(Run(u, Initial(u), events))
  {
    hide Next, GateInv;
    if events == [] {
      GateStarts(u);
    } else {
      GateHolds(u, events[..|events| - 1]);
      GateInvStep(u, Run(u, Initial(u), events[..|events| - 1]), events[|events| - 1]);
    }
  }

  lemma GateStarts(u: Setup)
    requires u.gated
    ensures GateInv(Initial(u))
  {
  }

  lemma {:induction false} LogPrefix(log: seq<Entry>, n: nat)
    requires GateLog(log) && n <= |log|
    ensures GateLog(log[..n])
  {
    if n < |log| {
      LogPrefix(log[..|log| - 1], n);
      assert log[..|log| - 1][..n] == log[..n];
    } else {
      assert log[..n] == log;
    }
  }

  /** Past a deactivation with no activation since, the flag is off and the count only grows. */
  lemma {:induction false} StaysOff(log: seq<Entry>, i: nat, n: nat)
    requires i < n <= |log| && log[i].Deactivated? && forall a | i < a < n :: !log[a].Activated?
    ensures !Flag(log[..n])
    ensures forall j | i < j < n :: SinceOff(log[..j]) <= SinceOff(log[..n]) && (log[j].Applied? ==> SinceOff(log[..j]) < SinceOff(log[..n]))
  {
    var front := log[..n];
    assert front[..n - 1] == log[..n - 1];
    if i + 1 < n { StaysOff(log, i, n - 1); }
  }

  lemma GateLogAt(log: seq<Entry>, k: nat)
    requires GateLog(log) && k < |log| && log[k].Applied?
    ensures Activated in log[..k] && GoalSeen in log[..k] && (!Flag(log[..k + 1]) ==> SinceOff(log[..k + 1]) <= 1)
  {
    LogPrefix(log, k + 1);
    assert log[..k + 1][..k] == log[..k];
  }

  /** Whatever the interleaving, with the gate enabled no command is applied before an active flag and a goal
      have both been seen, and after a deactivation two commands are always separated by a reactivation. */
  lemma GateSafe(u: Setup, events: seq<Event>, k: nat)
    requires ValidConfig(u.c) && u.gated && (forall j | 0 <= j < |events| :: ValidEvent(events[j]))
    requires var log := Run(u, Initial(u), events).log; k < |log| && log[k].Applied?
    ensures var log := Run(u, Initial(u), events).log; Activated in log[..k] && GoalSeen in log[..k]
    ensures var log := Run(u, Initial(u), events).log;
      forall i, j | 0 <= i < j < k && log[i].Deactivated? && log[j].Applied? :: exists a :: i < a < k && log[a].Activated?
  {
    hide Run, GateLog, SinceOff, Flag, ValidConfig, ValidEvent, CommandComing;
    var log := Run(u, Initial(u), events).log;
    GateHolds(u, events);
    GateLogAt(log, k);
    forall i, j | 0 <= i < j < k && log[i].Deactivated? && log[j].Applied?
      ensures exists a :: i < a < k && log[a].Activated?
    {
      if forall a | i < a < k :: !log[a].Activated? { TwoCommands(log, i, j, k); }
    }
  }

  lemma TwoCommands(log: seq<Entry>, i: nat, j: nat, k: nat)
    requires i < j < k < |log| && log[i].Deactivated? && log[j].Applied? && log[k].Applied?
    requires forall a | i < a < k :: !log[a].Activated?
    ensures !Flag(log[..k + 1]) && SinceOff(log[..k + 1]) >= 2
  {
    hide SinceOff, Flag;
    StaysOff(log, i, k);
    StaysOff(log, i, k + 1);
  }

  lemma RunThen(u: Setup, s: State, events: seq<Event>, e: Event)
    requires ValidState(u, s) && ValidEvent(e) && forall k | 0 <= k < |events| :: ValidEvent(events[k])
    ensures Run(u, s, events + [e]) == Next(u, Run(u, s, events), e)
  {
    assert (events + [e])[..|events|] == events;
  }

  // ----- what a deactivation forgets

  /** The loop is idling with nothing stored. */
  ghost predicate Forgotten(u: Setup, s: State) {
    u.gated && !s.active && s.loop.virtual.None? && s.loop.held.None? && (s.pc.Top? || s.pc.ClearVirtual? || s.pc.ClearHeld? || s.pc.CheckFlag?)
  }

  /** Once the loop has idled through a standby pass, nothing is applied and nothing is stored until the flag
      comes back, so the first active tick starts from a fresh state. */
  lemma {:induction false} StandbyStays(u: Setup, s: State, events: seq<Event>)
    requires ValidState(u, s) && Forgotten(u, s) && (forall k | 0 <= k < |events| :: ValidEvent(events[k]))
    requires forall k | 0 <= k < |events| :: events[k] != FlagMessage(true)
    ensures Forgotten(u, Run(u, s, events))
    ensures forall k | |s.log| <= k < |Run(u, s, events).log| :: !Run(u, s, events).log[k].Applied?
  {
    hide Next, ValidConfig, ValidLoop, ValidPc, Forgotten, ValidEvent;
    if events != [] {
      var k := |events| - 1;
      StandbyStays(u, s, events[..k]);
      ForgottenStep(u, Run(u, s, events[..k]), events[k]);
    }
  }

  lemma ForgottenStep(u: Setup, s: State, e: Event)
    requires ValidState(u, s) && ValidEvent(e) && Forgotten(u, s) && e != FlagMessage(true)
    ensures var r := Next(u, s, e);
      && Forgotten(u, r) && |r.log| >= |s.log| && r.log[..|s.log|] == s.log
      && forall k | |s.log| <= k < |r.log| :: !r.log[k].Applied?
  {
    hide ValidLoop, ValidPc, Measured, ControlState, Integrated, CommandedAcceleration, Wanted, Guarded, ValidConfig, LowNow;
  }

  // ----- the trigger flag

  /** The flag is cleared before every read and set only after it, so the value read is always false. */
  ghost predicate TriggerClear(s: State) {
    s.pc.Predict? || s.pc.ReadTrigger? || s.pc.Choose? ==> !s.loop.triggered
  }

  lemma {:induction false} PreviousTriggerAlwaysFalse(u: Setup, events: seq<Event>)
    requires ValidConfig(u.c) && forall k | 0 <= k < |events| :: ValidEvent(events[k])
    ensures TriggerClear(Run(u, Initial(u), events))
  {
    hide Next, ValidConfig;
    if events != [] {
      PreviousTriggerAlwaysFalse(u, events[..|events| - 1]);
      TriggerClearStep(u, Run(u, Initial(u), events[..|events| - 1]), events[|events| - 1]);
    }
  }

  lemma TriggerClearStep(u: Setup, s: State, e: Event)
    requires ValidState(u, s) && ValidEvent(e) && TriggerClear(s)
    ensures TriggerClear(Next(u, s, e))
  {
    hide ValidLoop, Measured, ControlState, Integrated, CommandedAcceleration, Wanted, Guarded, ValidConfig;
  }

  // ----- bounds under interleaving

  ghost predicate Bounded(c: Config, m: RobotState, command: RobotState)
    requires ValidConfig(c) && IsState(m) && IsState(command)
  {
    && Within(c, command.q)
    && forall j | 0 <= j < JOINTS :: Abs(command.q[j] - m.q[j]) <= c.maxVelocity * c.dt && Abs(command.qd[j]) <= c.maxVelocity
  }

  ghost predicate BoundedPc(c: Config, pc: Pc)
    requires ValidConfig(c) && ValidPc(pc)
  {
    match pc
    case Top => true
    case ClearVirtual => true
    case ClearHeld => true
    case CheckFlag(m) => Within(c, m.q)
    case CheckGoal(m) => Within(c, m.q)
    case CheckFloor(m) => Within(c, m.q)
    case HoldMeasured(m, _) => Within(c, m.q)
    case BlendStates(m, _) => Within(c, m.q)
    case ClearTrigger(m, _, _) => Within(c, m.q)
    case Predict(m, _, _) => Within(c, m.q)
    case ReadTrigger(m, predicted, _) => Within(c, m.q) && Within(c, predicted.q)
    case Choose(m, predicted, _) => Within(c, m.q) && Within(c, predicted.q)
    case MarkTrigger(m, wanted) => Within(c, m.q) && Within(c, wanted.q)
    case KeepHeld(m, command) => Bounded(c, m, command)
    case Apply(m, command, _) => Bounded(c, m, command)
    case KeepVirtual(_) => true
  }

  ghost predicate BoundedLog(c: Config, log: seq<Entry>)
    requires ValidConfig(c)
  {
    forall k | 0 <= k < |log| && log[k].Applied? ::
      IsState(log[k].measured) && IsState(log[k].command) && Bounded(c, log[k].measured, log[k].command)
  }

  ghost predicate BoundedState(u: Setup, s: State)
    requires ValidState(u, s)
  {
    HeldWithin(u.c, s.loop) && BoundedPc(u.c, s.pc) && BoundedLog(u.c, s.log)
  }

  lemma GuardedBounded(c: Config, m: RobotState, wanted: RobotState)
    requires ValidConfig(c) && IsState(m) && IsState(wanted) && Within(c, m.q) && Within(c, wanted.q)
    ensures Bounded(c, m, Guarded(c, m, wanted))
  {
    hide Guarded, StepLimit, Times, Bounded, Abs;
    var g := Guarded(c, m, wanted);
    forall j | 0 <= j < JOINTS
      ensures c.lower[j] <= g.q[j] <= c.upper[j] && Abs(g.q[j] - m.q[j]) <= StepLimit(c) && Abs(g.qd[j]) <= c.maxVelocity
    {
      GuardedBetween(c, m, wanted, j);
    }
    BoundedByStep(c, m, g);
  }

  lemma BoundedByStep(c: Config, m: RobotState, g: RobotState)
    requires ValidConfig(c) && IsState(m) && IsState(g) && Within(c, g.q)
    requires forall j | 0 <= j < JOINTS :: Abs(g.q[j] - m.q[j]) <= StepLimit(c) && Abs(g.qd[j]) <= c.maxVelocity
    ensures Bounded(c, m, g)
  {
    hide StepLimit, Times, Within, ValidConfig, Abs;
    StepLimitIs(c);
  }

  lemma IntegratedWithin(c: Config, s: RobotState, qdd: Vec)
    requires ValidConfig(c) && IsState(s) && |qdd| == JOINTS
    ensures Within(c, Integrated(c, s, qdd).q)
  {
    ClampedWithin(c, Plus(s.q, Scale(c.dt, Plus(s.qd, Scale(c.dt, qdd)))));
  }

  lemma BoundedLogged(c: Config, log: seq<Entry>, e: Entry)
    requires ValidConfig(c) && BoundedLog(c, log)
    requires e.Applied? ==> IsState(e.measured) && IsState(e.command) && Bounded(c, e.measured, e.command)
    ensures BoundedLog(c, log + [e])
  {
    hide Bounded;
  }

  lemma BoundedLoopStep(u: Setup, s: State, env: Env)
    requires ValidState(u, s) && ValidEvent(LoopStep(env)) && BoundedState(u, s) && Within(u.c, env.measured.q)
    ensures BoundedState(u, LoopNext(u, s, env))
  {
    hide Estimated, ControlState, Integrated, CommandedAcceleration, Wanted, Guarded, ValidConfig, Within, Bounded, BoundedLog, LowNow;
    match s.pc {
      case Predict(_, _, control) => IntegratedWithin(u.c, control, CommandedAcceleration(u.c, env.solve(control)));
      case Choose(m, predicted, trigger) =>
        WantedWithin(u.c, s.loop.held, m, predicted, trigger);
        GuardedBounded(u.c, m, Wanted(s.loop.held, m, predicted, trigger));
      case MarkTrigger(m, wanted) => GuardedBounded(u.c, m, wanted);
      case KeepHeld(m, command) => BoundedIs(u.c, m, command);
      case Apply(m, command, _) => BoundedLogged(u.c, s.log, Applied(m, command));
      case _ =>
    }
  }

  lemma BoundedStep(u: Setup, s: State, e: Event)
    requires ValidState(u, s) && ValidEvent(e) && BoundedState(u, s)
    requires e.LoopStep? ==> Within(u.c, e.env.measured.q)
    ensures BoundedState(u, Next(u, s, e))
  {
    hide LoopNext, ValidConfig, Within, Bounded, BoundedLog, BoundedPc, ValidPc;
    match e {
      case LoopStep(env) => BoundedLoopStep(u, s, env);
      case FlagMessage(active) => BoundedLogged(u.c, s.log, if active then Activated else Deactivated);
      case GoalMessage => BoundedLogged(u.c, s.log, GoalSeen);
      case CallbackStep =>
    }
  }

  lemma BoundedIs(c: Config, m: RobotState, command: RobotState)
    requires ValidConfig(c) && IsState(m) && IsState(command) && Bounded(c, m, command)
    ensures Within(c, command.q)
  {
  }

  ghost predicate MeasurementsWithin(c: Config, events: seq<Event>)
    requires ValidConfig(c)
  {
    forall k | 0 <= k < |events| :: ValidEvent(events[k]) && (events[k].LoopStep? ==> Within(c, events[k].env.measured.q))
  }

  /** Whatever the callbacks do to the stored states and whenever they do it, measurements within the joint
      limits give commands within them, at most `maxVelocity * dt` per joint from the measurement. */
  lemma {:induction false} InterleavedCommandsBounded(u: Setup, events: seq<Event>)
    requires ValidConfig(u.c) && MeasurementsWithin(u.c, events)
    ensures BoundedState(u, Run(u, Initial(u), events))
  {
    hide Next, Within, ValidConfig, Bounded;
    if events != [] {
      InterleavedCommandsBounded(u, events[..|events| - 1]);
      BoundedStep(u, Run(u, Initial(u), events[..|events| - 1]), events[|events| - 1]);
    }
  }

  // ----- an undisturbed tick

  /** `n` loop steps with nothing in between. */
  function Steps(u: Setup, s: State, env: Env, n: nat): (r: State)
    requires ValidState(u, s) && ValidEvent(LoopStep(env))
    ensures ValidState(u, r)
  {
    if n == 0 then s else LoopNext(u, Steps(u, s, env, n - 1), env)
  }

  lemma StepsAdd(u: Setup, s: State, env: Env, n: nat)
    requires ValidState(u, s) && ValidEvent(LoopStep(env))
    ensures Steps(u, s, env, n + 1) == LoopNext(u, Steps(u, s, env, n), env)
  {
  }

  lemma {:induction false} StepsSplit(u: Setup, s: State, env: Env, n: nat, k: nat)
    requires ValidState(u, s) && ValidEvent(LoopStep(env))
    ensures Steps(u, s, env, n + k) == Steps(u, Steps(u, s, env, n), env, k)
  {
    if k > 0 { StepsSplit(u, s, env, n, k - 1); }
  }

  lemma FourSteps(u: Setup, s: State, env: Env)
    requires ValidState(u, s) && ValidEvent(LoopStep(env))
    ensures Steps(u, s, env, 4) == LoopNext(u, LoopNext(u, LoopNext(u, LoopNext(u, s, env), env), env), env)
  {
    hide LoopNext, ValidConfig, ValidLoop, ValidPc;
    StepsNone(u, s, env);
    StepsAdd(u, s, env, 0);
    StepsAdd(u, s, env, 1);
    StepsAdd(u, s, env, 2);
    StepsAdd(u, s, env, 3);
  }

  /** The gates and the measured floor check. */
  lemma FirstFour(u: Setup, s: State, env: Env)
    requires ValidState(u, s) && ValidEvent(LoopStep(env)) && s.pc == Top && env.ready && (!u.gated || (s.active && s.goal))
    ensures var (m, estimator) := Measured(u.c, s.loop, env.measured);
      Steps(u, s, env, 4) == s.(pc := HoldMeasured(m, u.low(m.q)), loop := s.loop.(estimator := estimator))
  {
    hide Measured, ControlState, Integrated, CommandedAcceleration, Wanted, Guarded, ValidConfig, Steps;
    FourSteps(u, s, env);
  }

  /** Holding, blending and predicting. */
  lemma NextFour(u: Setup, s: State, env: Env, m: RobotState)
    requires ValidState(u, s) && ValidEvent(LoopStep(env)) && s.pc == HoldMeasured(m, u.low(m.q)) && !(u.gated && !s.active)
    ensures var predicted := Predicted(u.c, s.loop, m, env.solve);
      Steps(u, s, env, 4) == s.(pc := ReadTrigger(m, predicted, u.low(m.q) || u.low(predicted.q)),
                                loop := s.loop.(held := HeldAtStart(s.loop, m, u.low), triggered := false))
  {
    hide Measured, ControlState, Integrated, CommandedAcceleration, Wanted, Guarded, ValidConfig, Steps;
    FourSteps(u, s, env);
    ControlIgnores(u.c, s.loop, s.loop.(held := HeldAtStart(s.loop, m, u.low)), m);
  }

  /** Choosing, guarding, applying and storing. */
  lemma LastFive(u: Setup, s: State, env: Env, m: RobotState, predicted: RobotState, trigger: bool)
    requires ValidState(u, s) && ValidEvent(LoopStep(env)) && s.pc == ReadTrigger(m, predicted, trigger) && !s.loop.triggered
    ensures var command := Guarded(u.c, m, Wanted(s.loop.held, m, predicted, trigger));
      && Steps(u, s, env, 5) == State(Top, s.callback, s.active, s.goal,
           Loop(Some(command), if trigger then s.loop.held else Some(command), s.loop.estimator, trigger),
           s.log + [Applied(m, command)])
  {
    hide Wanted, Guarded, ValidConfig, ValidLoop, ValidPc, Steps, LoopNext;
    FourSteps(u, s, env);
    StepsAdd(u, s, env, 4);
    var s1 := LoopNext(u, s, env);
    var s2 := LoopNext(u, s1, env);
    var s3 := LoopNext(u, s2, env);
    var s4 := LoopNext(u, s3, env);
    ReadIs(u, s, env);
    ChooseIs(u, s1, env);
    StoreIs(u, s2, env);
    ApplyIs(u, s3, env);
    KeepIs(u, s4, env);
  }

  lemma ReadIs(u: Setup, s: State, env: Env)
    requires ValidState(u, s) && ValidEvent(LoopStep(env)) && s.pc.ReadTrigger?
    ensures LoopNext(u, s, env) == s.(pc := Choose(s.pc.m, s.pc.predicted, s.pc.trigger))
  {
  }

  lemma ChooseIs(u: Setup, s: State, env: Env)
    requires ValidState(u, s) && ValidEvent(LoopStep(env)) && s.pc.Choose?
    ensures var wanted := Wanted(s.loop.held, s.pc.m, s.pc.predicted, s.pc.trigger);
      && IsState(wanted)
      && LoopNext(u, s, env) ==
           s.(pc := if s.pc.trigger then MarkTrigger(s.pc.m, wanted) else KeepHeld(s.pc.m, Guarded(u.c, s.pc.m, wanted)))
  {
    hide Guarded, ValidConfig;
  }

  lemma StoreIs(u: Setup, s: State, env: Env)
    requires ValidState(u, s) && ValidEvent(LoopStep(env)) && (s.pc.MarkTrigger? || s.pc.KeepHeld?)
    ensures LoopNext(u, s, env) ==
      if s.pc.MarkTrigger? then s.(pc := Apply(s.pc.m, Guarded(u.c, s.pc.m, s.pc.wanted), true), loop := s.loop.(triggered := true))
      else s.(pc := Apply(s.pc.m, s.pc.command, false), loop := s.loop.(held := Some(s.pc.command)))
  {
    hide Guarded, ValidConfig;
  }

  lemma ApplyIs(u: Setup, s: State, env: Env)
    requires ValidState(u, s) && ValidEvent(LoopStep(env)) && s.pc.Apply?
    ensures LoopNext(u, s, env) == s.(pc := KeepVirtual(s.pc.command), log := s.log + [Applied(s.pc.m, s.pc.command)])
  {
  }

  lemma KeepIs(u: Setup, s: State, env: Env)
    requires ValidState(u, s) && ValidEvent(LoopStep(env)) && s.pc.KeepVirtual?
    ensures LoopNext(u, s, env) == s.(pc := Top, loop := s.loop.(virtual := Some(s.pc.command)))
  {
  }

  /** Without an event in between, the steps are the sequential loop's tick: same stored states, same command. */
  lemma TickAlone(u: Setup, s: State, env: Env)
    requires ValidState(u, s) && ValidEvent(LoopStep(env)) && s.pc == Top && env.ready && (!u.gated || (s.active && s.goal))
    ensures ValidInput(Active(env.measured, env.solve, u.low))
    ensures var (next, command) := Tick(u.c, s.loop, Active(env.measured, env.solve, u.low));
      && command.Some?
      && Steps(u, s, env, 13) == s.(loop := next, log := s.log + [Applied(Measured(u.c, s.loop, env.measured).0, command.value)])
  {
    hide Measured, ControlState, Predicted, Wanted, Guarded, ValidConfig, Steps, LoopNext;
    var (m, estimator) := Measured(u.c, s.loop, env.measured);
    FirstFour(u, s, env);
    var s4 := Steps(u, s, env, 4);
    NextFour(u, s4, env, m);
    var s8 := Steps(u, s4, env, 4);
    var predicted := Predicted(u.c, s4.loop, m, env.solve);
    LastFive(u, s8, env, m, predicted, u.low(m.q) || u.low(predicted.q));
    StepsSplit(u, s, env, 4, 4);
    StepsSplit(u, s, env, 8, 5);
  }

  lemma StepsNone(u: Setup, s: State, env: Env)
    requires ValidState(u, s) && ValidEvent(LoopStep(env))
    ensures Steps(u, s, env, 0) == s
  {
  }

  /** Blending does not look at the held state. */
  lemma ControlIgnores(c: Config, l: Loop, other: Loop, m: RobotState)
    requires ValidLoop(l) && ValidLoop(other) && IsState(m) && l.virtual == other.virtual
    ensures ControlState(c, l, m) == ControlState(c, other, m)
  {
  }
}
