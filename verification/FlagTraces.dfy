/** What the interleaving of loop and callbacks lets happen: runs from the start. */
module FlagTraces {
  import opened LinearAlgebra
  import opened RmpConfig
  import opened ControlLoop
  import opened FlagGate

  // ----- reachable states

  ghost predicate Reachable(u: Setup, s: State)
    requires ValidConfig(u.c)
  {
    exists events :: ValidEvents(events) && Run(u, Initial(u), events) == s
  }

  lemma ReachInitial(u: Setup)
    requires ValidConfig(u.c)
    ensures Reachable(u, Initial(u))
  {
    assert ValidEvents([]) && Run(u, Initial(u), []) == Initial(u);
  }

  lemma ReachNext(u: Setup, s: State, e: Event)
    requires ValidConfig(u.c) && Reachable(u, s) && ValidEvent(e)
    ensures ValidState(u, s) && Reachable(u, Next(u, s, e))
  {
    hide Next, ValidEvent, ValidConfig;
    var events :| ValidEvents(events) && Run(u, Initial(u), events) == s;
    RunThen(u, Initial(u), events, e);
    assert ValidEvents(events + [e]);
  }

  lemma {:induction false} ReachSteps(u: Setup, s: State, env: Env, n: nat)
    requires ValidConfig(u.c) && Reachable(u, s) && ValidEvent(LoopStep(env))
    ensures ValidState(u, s) && Reachable(u, Steps(u, s, env, n))
  {
    hide LoopNext, ValidEvent, ValidConfig, Reachable;
    ReachNext(u, s, LoopStep(env));
    if n > 0 {
      ReachSteps(u, s, env, n - 1);
      ReachNext(u, Steps(u, s, env, n - 1), LoopStep(env));
    } else {
      StepsNone(u, s, env);
    }
  }

  lemma SevenSteps(u: Setup, s: State, env: Env)
    requires ValidState(u, s) && ValidEvent(LoopStep(env))
    ensures Steps(u, s, env, 7) == LoopNext(u, LoopNext(u, LoopNext(u, Steps(u, s, env, 4), env), env), env)
  {
    hide LoopNext, ValidConfig, ValidLoop, ValidPc;
    StepsAdd(u, s, env, 4);
    StepsAdd(u, s, env, 5);
    StepsAdd(u, s, env, 6);
  }

  /** A ready loop with a measurement above the floor. */
  ghost predicate Starts(u: Setup, env: Env) {
    && ValidConfig(u.c) && u.gated && ValidEvent(LoopStep(env)) && env.ready && !u.low(env.measured.q)
  }

  /** The measurement of the first tick, and the stored states with which it goes on. */
  ghost function FirstMeasured(u: Setup, env: Env): (m: RobotState)
    requires Starts(u, env)
    ensures IsState(m) && m.q == env.measured.q
  {
    Measured(u.c, Initial(u).loop, env.measured).0
  }

  ghost function FirstLoop(u: Setup, env: Env): (l: Loop)
    requires Starts(u, env)
    ensures ValidLoop(l) && l.virtual.None?
  {
    var (m, estimator) := Measured(u.c, Initial(u).loop, env.measured);
    Loop(None, Some(RobotState(m.q, Zero(JOINTS))), estimator, false)
  }

  ghost function FirstPrediction(u: Setup, env: Env): (p: RobotState)
    requires Starts(u, env)
    ensures IsState(p)
  {
    Integrated(u.c, ControlState(u.c, FirstLoop(u, env), FirstMeasured(u, env)),
               CommandedAcceleration(u.c, env.solve(ControlState(u.c, FirstLoop(u, env), FirstMeasured(u, env)))))
  }

  /** After a goal and an activation the loop is about to predict. */
  lemma ReachPredict(u: Setup, env: Env) returns (s: State)
    requires Starts(u, env)
    ensures ValidConfig(u.c) && ValidState(u, s) && Reachable(u, s)
    ensures var m := FirstMeasured(u, env);
      s == State(Predict(m, false, ControlState(u.c, FirstLoop(u, env), m)), Idle, true, true, FirstLoop(u, env), [GoalSeen] + [Activated])
  {
    hide Measured, ControlState, ValidConfig, Steps, Reachable, ValidEvent;
    StartsParts(u, env);
    ReachInitial(u);
    ReachNext(u, Initial(u), GoalMessage);
    var s1 := Next(u, Initial(u), GoalMessage);
    ReachNext(u, s1, FlagMessage(true));
    var s2 := Next(u, s1, FlagMessage(true));
    assert s2 == State(Top, Idle, true, true, Initial(u).loop, [GoalSeen] + [Activated]);
    FirstFour(u, s2, env);
    SevenSteps(u, s2, env);
    ReachSteps(u, s2, env, 7);
    s := Steps(u, s2, env, 7);
  }

  lemma StartsParts(u: Setup, env: Env)
    requires Starts(u, env)
    ensures ValidConfig(u.c) && ValidEvent(LoopStep(env)) && IsState(env.measured)
    ensures ValidEvent(GoalMessage) && ValidEvent(FlagMessage(true)) && ValidEvent(FlagMessage(false)) && ValidEvent(CallbackStep)
    ensures Measured(u.c, Initial(u).loop, env.measured).0.q == env.measured.q
  {
  }

  /** The state when the command of the first tick is about to be applied, with the flag as it is. */
  ghost function Applying(u: Setup, env: Env, callback: Callback, active: bool, command: RobotState, log: seq<Entry>): State
    requires Starts(u, env)
  {
    State(Apply(FirstMeasured(u, env), command, false), callback, active, true, FirstLoop(u, env).(held := Some(command)), log)
  }

  lemma FourMore(u: Setup, s: State, env: Env)
    requires Starts(u, env) && ValidState(u, s) && s.pc.Predict? && s.pc == Predict(FirstMeasured(u, env), false, ControlState(u.c, FirstLoop(u, env), FirstMeasured(u, env)))
    requires s.loop == FirstLoop(u, env) && s.goal && (LowNow(u, s, FirstPrediction(u, env).q) ==> false)
    ensures Steps(u, s, env, 4)
         == Applying(u, env, s.callback, s.active, Guarded(u.c, FirstMeasured(u, env), FirstPrediction(u, env)), s.log)
  {
    hide Measured, ControlState, Integrated, CommandedAcceleration, Guarded, ValidConfig, Steps, LowNow, FirstLoop, ValidEvent;
    StartsParts(u, env);
    FourSteps(u, s, env);
  }

  /** The first tick's guarded prediction has been applied after a deactivation. */
  ghost predicate EndsLate(u: Setup, env: Env, s: State)
    requires Starts(u, env)
  {
    && Reachable(u, s) && !s.active
    && s.log == [GoalSeen] + [Activated] + [Deactivated]
                + [Applied(FirstMeasured(u, env), Guarded(u.c, FirstMeasured(u, env), FirstPrediction(u, env)))]
  }

  /** The flag has gone off and on again, and the state about to be blended is the command from before. */
  ghost predicate BlendsOld(u: Setup, env: Env, s: State)
    requires Starts(u, env)
  {
    && Reachable(u, s) && s.active && s.pc.BlendStates?
    && s.loop.virtual == Some(Guarded(u.c, FirstMeasured(u, env), FirstPrediction(u, env)))
    && s.log == [GoalSeen] + [Activated] + [Applied(FirstMeasured(u, env), s.loop.virtual.value)] + [Deactivated] + [Activated]
  }

  /** The late command happens, for every configuration and environment: a run in which the flag goes off just before
      the command is applied. */
  lemma LateCommandHappens(u: Setup, env: Env)
    requires Starts(u, env) && !u.low(FirstPrediction(u, env).q)
    ensures exists s :: EndsLate(u, env, s)
  {
    hide ValidConfig, Steps, Reachable, ValidEvent, FirstLoop, FirstPrediction, ControlState, Guarded, FirstMeasured;
    StartsParts(u, env);
    var s := ReachPredict(u, env);
    FourMore(u, s, env);
    ReachSteps(u, s, env, 4);
    var s1 := Steps(u, s, env, 4);
    ReachNext(u, s1, FlagMessage(false));
    var s2 := Next(u, s1, FlagMessage(false));
    ReachNext(u, s2, LoopStep(env));
    var s3 := Next(u, s2, LoopStep(env));
    assert EndsLate(u, env, s3);
  }

  /** A deactivation between the measured check and the prediction lets a low prediction through: for every
      configuration and every environment whose first prediction is below the floor there is such a run. If the guard
      does not shorten it, the applied pose itself is below the floor. */
  lemma LowCommandHappens(u: Setup, env: Env)
    requires Starts(u, env) && u.low(FirstPrediction(u, env).q)
    ensures exists s :: EndsLate(u, env, s)
  {
    hide ValidConfig, Steps, Reachable, ValidEvent, FirstLoop, FirstPrediction, ControlState, Guarded, FirstMeasured;
    StartsParts(u, env);
    var s := ReachPredict(u, env);
    ReachNext(u, s, FlagMessage(false));
    var s1 := Next(u, s, FlagMessage(false));
    FourMore(u, s1, env);
    ReachSteps(u, s1, env, 4);
    var s2 := Steps(u, s1, env, 4);
    ReachNext(u, s2, LoopStep(env));
    var s3 := Next(u, s2, LoopStep(env));
    assert EndsLate(u, env, s3);
  }

  /** The old session's virtual state survives a quick off and on: a run at whose end the flag is active again, the next
      tick has passed both gates, and the state it is about to blend is the old session's command. */
  lemma OldVirtualHappens(u: Setup, env: Env)
    requires Starts(u, env) && !u.low(FirstPrediction(u, env).q)
    ensures exists s :: BlendsOld(u, env, s)
  {
    hide ValidConfig, Steps, Reachable, ValidEvent, FirstLoop, FirstPrediction, ControlState, Guarded, FirstMeasured, LoopNext;
    StartsParts(u, env);
    var command := Guarded(u.c, FirstMeasured(u, env), FirstPrediction(u, env));
    var s := ReachPredict(u, env);
    FourMore(u, s, env);
    ReachSteps(u, s, env, 4);
    var s1 := Steps(u, s, env, 4);
    ReachNext(u, s1, LoopStep(env));
    var s2 := Next(u, s1, LoopStep(env));
    ApplyIs(u, s1, env);
    var s6 := ReachToggle(u, s2);
    ReachNext(u, s6, LoopStep(env));
    var s7 := Next(u, s6, LoopStep(env));
    KeepIs(u, s6, env);
    ReachSteps(u, s7, env, 4);
    FirstFour(u, s7, env);
    var s8 := Steps(u, s7, env, 4);
    ReachNext(u, s8, LoopStep(env));
    HoldIs(u, s8, env);
    var s9 := Next(u, s8, LoopStep(env));
    assert BlendsOld(u, env, s9);
  }

  lemma HoldIs(u: Setup, s: State, env: Env)
    requires ValidState(u, s) && ValidEvent(LoopStep(env)) && s.pc.HoldMeasured?
    ensures var r := LoopNext(u, s, env);
      r.pc.BlendStates? && r.active == s.active && r.log == s.log && r.loop.virtual == s.loop.virtual
  {
    hide ValidConfig;
  }

  /** The flag goes off and on again while the loop waits before its last store. */
  lemma ReachToggle(u: Setup, s: State) returns (r: State)
    requires ValidConfig(u.c) && ValidState(u, s) && Reachable(u, s) && s.callback == Idle && s.pc.KeepVirtual?
    ensures ValidState(u, r) && Reachable(u, r)
    ensures r.pc == s.pc && r.callback == Idle && r.active && r.goal == s.goal && r.log == s.log + [Deactivated] + [Activated]
    ensures r.loop.estimator == s.loop.estimator
  {
    hide ValidConfig, Reachable, LoopNext, ValidLoop;
    ReachNext(u, s, FlagMessage(false));
    var s1 := Next(u, s, FlagMessage(false));
    ReachNext(u, s1, CallbackStep);
    var s2 := Next(u, s1, CallbackStep);
    ReachNext(u, s2, CallbackStep);
    var s3 := Next(u, s2, CallbackStep);
    ReachNext(u, s3, CallbackStep);
    var s4 := Next(u, s3, CallbackStep);
    ReachNext(u, s4, FlagMessage(true));
    r := Next(u, s4, FlagMessage(true));
  }
}
