/** The control loop closed over the simulation backend, which feeds every command back as the next
    measurement. */
module SimulationLoop {
  import opened LinearAlgebra
  import opened RmpConfig
  import opened ControlLoop

  /** One tick in simulation: the gates hold the command back, or the loop runs. */
  datatype SimTick = GateClosed | Open(solve: RobotState -> Option<Vec>, low: Vec -> bool)

  ghost predicate ValidTick(t: SimTick) {
    t.Open? ==> forall s | IsState(s) && t.solve(s).Some? :: |t.solve(s).value| == JOINTS
  }

  datatype Sim = Sim(loop: Loop, robot: RobotState)

  ghost predicate ValidSim(s: Sim) { ValidLoop(s.loop) && IsState(s.robot) }

  /** The backend's state is what the tick measures. */
  function InputOf(robot: RobotState, t: SimTick): Input {
    match t
    case GateClosed => Standby(robot)
    case Open(solve, low) => Active(robot, solve, low)
  }

  /** `SimulationBackend`: an applied command becomes the state that the next tick reads. */
  class SimulationBackend {
    var state: RobotState

    constructor (q: Vec)
      ensures state == RobotState(q, Zero(|q|))
    {
      state := RobotState(q, Zero(|q|));
    }

    method ReadState() returns (s: RobotState)
      ensures s == state
    {
      s := state;
    }

    method ApplyCommand(command: RobotState)
      modifies this
      ensures state == command
    {
      state := command;
    }
  }

  function Stepped(c: Config, s: Sim, t: SimTick): (r: Sim)
    requires ValidConfig(c) && ValidSim(s) && ValidTick(t)
    ensures ValidSim(r)
  {
    var (next, command) := Tick(c, s.loop, InputOf(s.robot, t));
    Sim(next, if command.Some? then command.value else s.robot)
  }

  /** The controller and the backend take one tick together. */
  method TickOnce(controller: Controller, backend: SimulationBackend, t: SimTick)
    requires controller.Valid() && IsState(backend.state) && ValidTick(t)
    modifies controller, backend
    ensures controller.Valid() && IsState(backend.state)
    ensures Sim(controller.Contents(), backend.state)
         == Stepped(controller.c, Sim(old(controller.Contents()), old(backend.state)), t)
  {
    hide Tick;
    var measured := backend.ReadState();
    var applied := controller.Run(InputOf(measured, t));
    if applied.Some? {
      backend.ApplyCommand(applied.value);
    }
  }

  function SimRun(c: Config, s: Sim, ticks: seq<SimTick>): (r: Sim)
    requires ValidConfig(c) && ValidSim(s) && forall k | 0 <= k < |ticks| :: ValidTick(ticks[k])
    ensures ValidSim(r)
  {
    if ticks == [] then s else var k := |ticks| - 1; Stepped(c, SimRun(c, s, ticks[..k]), ticks[k])
  }

  ghost predicate SimWithin(c: Config, s: Sim)
    requires ValidConfig(c) && ValidSim(s)
  {
    Within(c, s.robot.q) && HeldWithin(c, s.loop)
  }

  lemma SteppedBounds(c: Config, s: Sim, t: SimTick)
    requires ValidConfig(c) && ValidSim(s) && ValidTick(t) && SimWithin(c, s)
    ensures SimWithin(c, Stepped(c, s, t))
    ensures forall j | 0 <= j < JOINTS :: Abs(Stepped(c, s, t).robot.q[j] - s.robot.q[j]) <= StepLimit(c)
  {
    hide ActiveTick, Measured, Within;
    StepLimitIs(c);
    if t.Open? { ActiveTickBounds(c, s.loop, InputOf(s.robot, t)); }
  }

  /** In simulation the initial pose within the limits is enough: every later pose and every held state is
      within them, and `n` ticks move a joint at most `n * maxVelocity * dt`. */
  lemma {:induction false} SimulationBounded(c: Config, s: Sim, ticks: seq<SimTick>)
    requires ValidConfig(c) && ValidSim(s) && forall k | 0 <= k < |ticks| :: ValidTick(ticks[k])
    requires SimWithin(c, s)
    ensures SimWithin(c, SimRun(c, s, ticks))
    ensures forall j | 0 <= j < JOINTS ::
      Abs(SimRun(c, s, ticks).robot.q[j] - s.robot.q[j]) <= Times(|ticks| as real, c.maxVelocity * c.dt)
  {
    hide Stepped, SimWithin, StepLimit, ValidConfig;
    if ticks == [] {
      TimesOf(0.0, c.maxVelocity * c.dt);
    } else {
      var k := |ticks| - 1;
      SimulationBounded(c, s, ticks[..k]);
      SteppedBounds(c, SimRun(c, s, ticks[..k]), ticks[k]);
      StepLimitIs(c);
      OneMore(k as real, c.maxVelocity * c.dt);
    }
  }

  lemma OneMore(n: real, x: real)
    ensures Times(n + 1.0, x) == Times(n, x) + x
  {
  }

  // ----- recovery

  /** The floor check fires on the measurement or on the prediction. */
  ghost predicate Triggers(c: Config, s: Sim, t: SimTick)
    requires ValidConfig(c) && ValidSim(s) && ValidTick(t) && t.Open?
  {
    var (m, estimator) := Measured(c, s.loop, s.robot);
    t.low(m.q) || t.low(Predicted(c, s.loop.(estimator := estimator), m, t.solve).q)
  }

  /** How far joint `j` is from the held state. */
  function Distance(s: Sim, held: RobotState, j: nat): real
    requires IsState(s.robot) && IsState(held) && j < JOINTS
  {
    Abs(held.q[j] - s.robot.q[j])
  }

  lemma RecoveryStep(c: Config, s: Sim, t: SimTick, held: RobotState, j: nat)
    requires ValidConfig(c) && ValidSim(s) && ValidTick(t) && t.Open? && Triggers(c, s, t) && j < JOINTS
    requires s.loop.held == Some(held) && IsState(held)
    ensures Stepped(c, s, t).loop.held == Some(held)
    ensures Stepped(c, s, t).robot.qd == Zero(JOINTS)
    ensures Distance(Stepped(c, s, t), held, j) == Max(Distance(s, held, j) - StepLimit(c), 0.0)
  {
    hide Guarded, Estimated, ControlState, Integrated, CommandedAcceleration, StepLimit;
    var (m, estimator) := Measured(c, s.loop, s.robot);
    GuardedBetween(c, m, RobotState(held.q, Zero(JOINTS)), j);
    GuardedAtRest(c, m, held.q);
  }

  lemma GuardedAtRest(c: Config, m: RobotState, q: Vec)
    requires ValidConfig(c) && IsState(m) && |q| == JOINTS
    ensures Guarded(c, m, RobotState(q, Zero(JOINTS))).qd == Zero(JOINTS)
  {
    hide StepLimit;
  }

  /** Every tick of the stretch triggers. */
  ghost predicate AllTrigger(c: Config, s: Sim, ticks: seq<SimTick>)
    requires ValidConfig(c) && ValidSim(s) && forall k | 0 <= k < |ticks| :: ValidTick(ticks[k])
  {
    ticks == []
    || (var k := |ticks| - 1;
        AllTrigger(c, s, ticks[..k]) && ticks[k].Open? && Triggers(c, SimRun(c, s, ticks[..k]), ticks[k]))
  }

  /** Over any stretch of consecutive triggered ticks that starts with a held state, that state never changes
      and each joint's distance to it shrinks by the guard step per tick until it is zero. */
  lemma {:induction false} Recovery(c: Config, s: Sim, ticks: seq<SimTick>, held: RobotState, j: nat)
    requires ValidConfig(c) && ValidSim(s) && (forall k | 0 <= k < |ticks| :: ValidTick(ticks[k])) && AllTrigger(c, s, ticks)
    requires s.loop.held == Some(held) && IsState(held) && j < JOINTS
    ensures SimRun(c, s, ticks).loop.held == Some(held)
    ensures ticks != [] ==> SimRun(c, s, ticks).robot.qd == Zero(JOINTS)
    ensures Distance(SimRun(c, s, ticks), held, j) == Max(Distance(s, held, j) - Times(|ticks| as real, StepLimit(c)), 0.0)
  {
    hide Stepped, Triggers, StepLimit, Distance;
    StepLimitIs(c);
    if ticks == [] {
      TimesOf(0.0, StepLimit(c));
      DistanceNonNegative(s, held, j);
    } else {
      var k := |ticks| - 1;
      Recovery(c, s, ticks[..k], held, j);
      RecoveryStep(c, SimRun(c, s, ticks[..k]), ticks[k], held, j);
      OneMore(k as real, StepLimit(c));
    }
  }

  lemma DistanceNonNegative(s: Sim, held: RobotState, j: nat)
    requires IsState(s.robot) && IsState(held) && j < JOINTS
    ensures Distance(s, held, j) >= 0.0
  {
  }

  /** After `n` triggered ticks with `n * maxVelocity * dt` at least the largest distance, the arm rests at the
      held state; the smallest such `n` is `ceil(D / step)`. */
  lemma RecoveredAtRest(c: Config, s: Sim, ticks: seq<SimTick>, held: RobotState)
    requires ValidConfig(c) && ValidSim(s) && (forall k | 0 <= k < |ticks| :: ValidTick(ticks[k])) && AllTrigger(c, s, ticks)
    requires s.loop.held == Some(held) && IsState(held) && ticks != []
    requires forall j | 0 <= j < JOINTS :: Distance(s, held, j) <= Times(|ticks| as real, StepLimit(c))
    ensures SimRun(c, s, ticks).robot == RobotState(held.q, Zero(JOINTS))
  {
    hide StepLimit, SimRun;
    var end := SimRun(c, s, ticks);
    Recovery(c, s, ticks, held, 0);
    forall j | 0 <= j < JOINTS
      ensures end.robot.q[j] == held.q[j]
    {
      Recovery(c, s, ticks, held, j);
    }
    assert end.robot.q == held.q;
  }

  /** The number of ticks in terms of the distance. */
  lemma TicksNeeded(distance: real, step: real, n: nat)
    requires step > 0.0 && distance >= 0.0
    ensures distance <= Times(n as real, step) <==> distance / step <= n as real
  {
    var q := distance / step;
    assert q * step == distance;
    if q <= n as real {
      ProductSign(n as real - q, step, (n as real - q) * step);
    } else {
      ProductSign(q - n as real, step, (q - n as real) * step);
    }
  }
}
