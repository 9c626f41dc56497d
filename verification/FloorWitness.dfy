/** A run of the two threads in which a pose below the floor is commanded, on the arm's own frames. */
module FloorWitness {
  import opened LinearAlgebra
  import opened RmpConfig
  import opened Elementary
  import opened Kinematics
  import opened ArmModel
  import ControlLoop
  import opened HeldState
  import FlagGate
  import FlagTraces

  /** The arm stands upright, and the floor check asks link 6 to stay where it is. */
  ghost function UprightSetup(lib: Library, h: real): FlagGate.Setup {
    FlagGate.Setup(WitnessConfig(h), true, FloorCheck(lib, Link6Floor(BentHeight(lib, 0.0, 0.0))))
  }

  /** The solver tilts the shoulder by `h`. */
  function UprightEnv(h: real): FlagGate.Env {
    FlagGate.Env(true, ControlLoop.RobotState(Bent(0.0, 0.0), Zero(ControlLoop.JOINTS)), s => Some(Bent(h, 0.0)))
  }

  lemma Tilted(c: ControlLoop.Config, m: ControlLoop.RobotState, h: real)
    requires 0.0001 <= h <= 1.0 && ControlLoop.ValidConfig(c) && c.dt == 1.0 && c.maxAccel == 4.0 && ControlLoop.StepLimit(c) == h
    requires c.lower == Limits(-LIMIT) && c.upper == Limits(LIMIT)
    requires m == ControlLoop.RobotState(Bent(0.0, 0.0), Zero(ControlLoop.JOINTS))
    ensures var p := ControlLoop.Integrated(c, m, ControlLoop.CommandedAcceleration(c, Some(Bent(h, 0.0))));
      p.q == Bent(h, 0.0) && ControlLoop.Guarded(c, m, p).q == Bent(h, 0.0)
  {
    hide ControlLoop.StepLimit;
    var qdd := ControlLoop.CommandedAcceleration(c, Some(Bent(h, 0.0)));
    assert qdd == Bent(h, 0.0);
    OneSecond(qdd);
    var qd := Plus(m.qd, Scale(c.dt, qdd));
    assert qd == qdd;
    var q := Plus(m.q, Scale(c.dt, qd));
    assert q == Bent(h, 0.0);
    assert ControlLoop.ClampPositions(c, q) == q;
    var p := ControlLoop.Integrated(c, m, qdd);
    var g := ControlLoop.Guarded(c, m, p).q;
    assert p.q[1] - m.q[1] == h && g[1] == h;
    assert g == Bent(h, 0.0);
  }

  lemma UprightHeights(lib: Library, h: real)
    requires Circular(lib) && Tilts(lib, h)
    ensures BentHeight(lib, h, 0.0) < BentHeight(lib, 0.0, 0.0)
  {
    hide HeightOf, OnCircle, Times;
    HeightShoulder(lib.cos(h), lib.sin(h));
    HeightShoulder(1.0, 0.0);
    TimesOf(1.0, Upper());
    TimesOf(1.0, Fore());
    Shortens(lib.cos(h), Upper());
    Shortens(lib.cos(h), Fore());
  }

  /** The measured pose is above the floor, the first prediction is not, and the guard leaves it as it is. */
  lemma UprightStarts(lib: Library, h: real)
    requires Circular(lib) && Tilts(lib, h)
    ensures var u, env := UprightSetup(lib, h), UprightEnv(h);
      && FlagTraces.Starts(u, env)
      && FlagTraces.FirstMeasured(u, env).q == Bent(0.0, 0.0) && FlagTraces.FirstPrediction(u, env).q == Bent(h, 0.0)
      && u.low(FlagTraces.FirstPrediction(u, env).q)
      && ControlLoop.Guarded(u.c, FlagTraces.FirstMeasured(u, env), FlagTraces.FirstPrediction(u, env)).q == Bent(h, 0.0)
  {
    hide Circular, FloorCheck, LinkFrame, BentHeight, WitnessConfig, ControlLoop.Guarded, ControlLoop.Integrated, ControlLoop.CommandedAcceleration;
    var u, env := UprightSetup(lib, h), UprightEnv(h);
    var z := BentHeight(lib, 0.0, 0.0);
    WitnessConfigIs(h);
    FloorCheckIs(lib, Bent(0.0, 0.0), z);
    FloorCheckIs(lib, Bent(h, 0.0), z);
    Link6Height(lib, 0.0, 0.0);
    Link6Height(lib, h, 0.0);
    UprightHeights(lib, h);
    assert FlagGate.ValidEvent(FlagGate.LoopStep(env));
    assert FlagTraces.Starts(u, env);
    var m := FlagTraces.FirstMeasured(u, env);
    assert m == env.measured;
    assert ControlLoop.ControlState(u.c, FlagTraces.FirstLoop(u, env), m) == m;
    Tilted(u.c, m, h);
  }

  /** The commanded pose of the last log entry. */
  ghost predicate EndsBelowFloor(u: FlagGate.Setup, s: FlagGate.State)
    requires ControlLoop.ValidConfig(u.c)
  {
    && FlagTraces.Reachable(u, s) && |s.log| == 4
    && s.log[2] == FlagGate.Deactivated && s.log[3].Applied? && !u.low(s.log[3].measured.q) && u.low(s.log[3].command.q)
  }

  /** From the start, with the floor check enabled and the measured pose above the floor: a run whose applied command is
      itself below the floor. */
  lemma CommandBelowFloor(lib: Library, h: real)
    requires Circular(lib) && Tilts(lib, h)
    ensures exists s :: EndsBelowFloor(UprightSetup(lib, h), s)
  {
    hide Circular, FloorCheck, WitnessConfig, UprightSetup, UprightEnv, FlagTraces.Reachable, FlagTraces.FirstMeasured, FlagTraces.FirstPrediction, ControlLoop.Guarded,
      FlagGate.ValidEvent, ControlLoop.ValidConfig;
    var u, env := UprightSetup(lib, h), UprightEnv(h);
    UprightStarts(lib, h);
    FlagTraces.LowCommandHappens(u, env);
    var s :| FlagTraces.EndsLate(u, env, s);
    assert EndsBelowFloor(u, s);
  }
}
