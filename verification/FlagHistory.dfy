/** Over every run of the two threads: which steps decide what is checked and what is remembered. */
module FlagHistory {
  import opened RmpConfig
  import opened ControlLoop
  import opened FlagGate

  /** The state before event `k`. */
  ghost function At(u: Setup, events: seq<Event>, k: nat): (s: State)
    requires ValidConfig(u.c) && ValidEvents(events) && k <= |events|
    ensures ValidState(u, s)
  {
    Run(u, Initial(u), events[..k])
  }

  lemma AtNext(u: Setup, events: seq<Event>, k: nat)
    requires ValidConfig(u.c) && ValidEvents(events) && k < |events|
    ensures ValidEvent(events[k]) && At(u, events, k + 1) == Next(u, At(u, events, k), events[k])
  {
    hide Next, ValidEvent, ValidConfig;
    RunThen(u, Initial(u), events[..k], events[k]);
    assert events[..k] + [events[k]] == events[..k + 1];
  }

  lemma AtStart(u: Setup, events: seq<Event>)
    requires ValidConfig(u.c) && ValidEvents(events)
    ensures At(u, events, 0) == Initial(u)
  {
  }

  /** The last event before `n` that takes a step of the kind `P`. */
  ghost function Last(u: Setup, events: seq<Event>, n: nat, P: (State, Event) -> bool): (r: Option<nat>)
    requires ValidConfig(u.c) && ValidEvents(events) && n <= |events|
    ensures r.Some? ==> r.value < n && P(At(u, events, r.value), events[r.value])
    ensures forall j | (if r.Some? then r.value + 1 else 0) <= j < n :: !P(At(u, events, j), events[j])
  {
    if n == 0 then None
    else if P(At(u, events, n - 1), events[n - 1]) then Some(n - 1)
    else Last(u, events, n - 1, P)
  }

  // ----- the floor check of the prediction

  predicate CheckStep(s: State, e: Event) { s.pc.CheckFloor? && e.LoopStep? }

  predicate PredictStep(s: State, e: Event) { s.pc.Predict? && e.LoopStep? }

  /** Between the check of the measurement and the prediction. */
  predicate Checked(pc: Pc) { pc.HoldMeasured? || pc.BlendStates? || pc.ClearTrigger? || pc.Predict? }

  /** Between the prediction and the command. */
  predicate HasPrediction(pc: Pc) { pc.ReadTrigger? || pc.Choose? || pc.MarkTrigger? || pc.KeepHeld? || pc.Apply? }

  /** The prediction made by the step at `k`. */
  ghost function PredictionAt(u: Setup, s: State, env: Env): (p: RobotState)
    requires ValidState(u, s) && ValidEvent(LoopStep(env)) && s.pc.Predict?
    ensures IsState(p)
  {
    Integrated(u.c, s.pc.control, CommandedAcceleration(u.c, env.solve(s.pc.control)))
  }

  /** The carried check result is that of the last check step. */
  ghost predicate CheckTrace(u: Setup, events: seq<Event>, n: nat)
    requires ValidConfig(u.c) && ValidEvents(events) && n <= |events|
  {
    var s, k := At(u, events, n), Last(u, events, n, CheckStep);
    Checked(s.pc) ==> k.Some? && var c := At(u, events, k.value); s.pc.m == c.pc.m && s.pc.mLow == LowNow(u, c, c.pc.m.q)
  }

  /** What is carried after the prediction is that prediction, its measurement and the trigger decided with it. */
  ghost predicate Carries(u: Setup, s: State, p: State, env: Env)
    requires ValidState(u, p) && ValidEvent(LoopStep(env)) && p.pc.Predict?
  {
    var predicted := PredictionAt(u, p, env);
    var trigger := p.pc.mLow || LowNow(u, p, predicted.q);
    match s.pc
    case ReadTrigger(m, w, t) => m == p.pc.m && w == predicted && t == trigger
    case Choose(m, w, t) => m == p.pc.m && w == predicted && t == trigger
    case MarkTrigger(m, w) => m == p.pc.m && trigger
    case KeepHeld(m, w) => m == p.pc.m && !trigger && w == Guarded(u.c, m, predicted)
    case Apply(m, w, t) => m == p.pc.m && t == trigger && (!t ==> w == Guarded(u.c, m, predicted))
    case _ => false
  }

  ghost predicate PredictTrace(u: Setup, events: seq<Event>, n: nat)
    requires ValidConfig(u.c) && ValidEvents(events) && n <= |events|
  {
    var s, k := At(u, events, n), Last(u, events, n, PredictStep);
    HasPrediction(s.pc) ==> k.Some? && Carries(u, s, At(u, events, k.value), events[k.value].env)
  }

  lemma CheckTraceStep(u: Setup, s: State, e: Event)
    requires ValidState(u, s) && ValidEvent(e)
    ensures var r := Next(u, s, e);
      Checked(r.pc) ==> if CheckStep(s, e) then r.pc.m == s.pc.m && r.pc.mLow == LowNow(u, s, s.pc.m.q)
                        else Checked(s.pc) && r.pc.m == s.pc.m && r.pc.mLow == s.pc.mLow
  {
    hide ValidLoop, Measured, ControlState, Integrated, CommandedAcceleration, Wanted, Guarded, ValidConfig, LowNow;
  }

  lemma {:induction false} CheckTraced(u: Setup, events: seq<Event>, n: nat)
    requires ValidConfig(u.c) && ValidEvents(events) && n <= |events|
    ensures CheckTrace(u, events, n)
  {
    hide Next, ValidEvent, ValidConfig, ValidLoop, ValidPc, LowNow, At;
    if n == 0 {
      AtStart(u, events);
    } else {
      CheckTraced(u, events, n - 1);
      AtNext(u, events, n - 1);
      CheckTraceStep(u, At(u, events, n - 1), events[n - 1]);
    }
  }

  lemma PredictTraceStep(u: Setup, s: State, e: Event, p: State, env: Env)
    requires ValidState(u, s) && ValidEvent(e) && ValidState(u, p) && ValidEvent(LoopStep(env)) && p.pc.Predict?
    requires if PredictStep(s, e) then s == p && e == LoopStep(env) else HasPrediction(s.pc) && Carries(u, s, p, env)
    ensures HasPrediction(Next(u, s, e).pc) ==> Carries(u, Next(u, s, e), p, env)
  {
    hide ValidLoop, Measured, ControlState, Integrated, CommandedAcceleration, Guarded, ValidConfig, LowNow;
  }

  lemma Enters(u: Setup, s: State, e: Event)
    requires ValidState(u, s) && ValidEvent(e) && HasPrediction(Next(u, s, e).pc)
    ensures PredictStep(s, e) || HasPrediction(s.pc)
  {
    hide ValidLoop, Measured, ControlState, Integrated, CommandedAcceleration, Wanted, Guarded, ValidConfig, LowNow;
  }

  lemma {:induction false} PredictTraced(u: Setup, events: seq<Event>, n: nat)
    requires ValidConfig(u.c) && ValidEvents(events) && n <= |events|
    ensures PredictTrace(u, events, n)
  {
    hide Next, ValidEvent, ValidConfig, ValidLoop, ValidPc, At, Carries, HasPrediction;
    if n == 0 {
      AtStart(u, events);
      NoPrediction(u);
    } else {
      PredictTraced(u, events, n - 1);
      AtNext(u, events, n - 1);
      var s, e := At(u, events, n - 1), events[n - 1];
      if HasPrediction(Next(u, s, e).pc) {
        Enters(u, s, e);
        var k := Last(u, events, n, PredictStep);
        PredictTraceStep(u, s, e, At(u, events, k.value), events[k.value].env);
      }
    }
  }

  lemma NoPrediction(u: Setup)
    ensures !HasPrediction(Initial(u).pc)
  {
  }

  /** For every command about to be applied, in every run: it belongs to the last prediction step `k` and the last
      measurement check `c`, the trigger is what those two steps saw, and without a trigger the command is the guarded
      prediction. So a low prediction is let through if and only if the flag was off when it was made, and the measured
      pose was above the floor or the flag was off when that was checked. */
  lemma FloorSkippedIff(u: Setup, events: seq<Event>, n: nat)
    requires ValidConfig(u.c) && ValidEvents(events) && n <= |events| && At(u, events, n).pc.Apply?
    ensures Last(u, events, n, PredictStep).Some? && Last(u, events, Last(u, events, n, PredictStep).value, CheckStep).Some?
    ensures var s, k := At(u, events, n), Last(u, events, n, PredictStep).value;
      var p, c := At(u, events, k), At(u, events, Last(u, events, k, CheckStep).value);
      var predicted := PredictionAt(u, p, events[k].env);
      && s.pc.m == c.pc.m
      && (!s.pc.trigger ==> s.pc.command == Guarded(u.c, s.pc.m, predicted))
      && (!s.pc.trigger && u.low(predicted.q) <==>
            u.low(predicted.q) && u.gated && !p.active && (!u.low(s.pc.m.q) || !c.active))
  {
    hide Next, ValidEvent, ValidConfig, ValidLoop, ValidPc, At, PredictionAt, Guarded;
    PredictTraced(u, events, n);
    CheckTraced(u, events, Last(u, events, n, PredictStep).value);
  }

  // ----- the late command

  /** The flag has gone off since `g` and has not come back. */
  ghost predicate OffSince(u: Setup, events: seq<Event>, g: nat, n: nat)
    requires ValidConfig(u.c) && ValidEvents(events) && n <= |events|
  {
    exists d | g < d < n :: OffStep(At(u, events, d), events[d]) && forall j | d < j < n :: !OnStep(At(u, events, j), events[j])
  }

  lemma {:induction false} FlagSince(u: Setup, events: seq<Event>, g: nat, n: nat)
    requires ValidConfig(u.c) && ValidEvents(events) && g < n <= |events| && PassStep(At(u, events, g), events[g])
    ensures !At(u, events, n).active <==> OffSince(u, events, g, n)
    decreases n
  {
    hide Next, ValidEvent, ValidConfig, ValidLoop, ValidPc, At;
    AtNext(u, events, n - 1);
    var s, e := At(u, events, n - 1), events[n - 1];
    FlagNext(u, s, e);
    if n > g + 1 {
      FlagSince(u, events, g, n - 1);
      if OffStep(s, e) {
        assert OffSince(u, events, g, n);
      } else if !s.active && !OnStep(s, e) {
        var d :| g < d < n - 1 && OffStep(At(u, events, d), events[d]) && forall j | d < j < n - 1 :: !OnStep(At(u, events, j), events[j]);
        assert forall j | d < j < n :: !OnStep(At(u, events, j), events[j]);
      }
    }
  }

  /** For every command about to be applied, in every run with the gate enabled: its tick has passed the flag check, and it
      is late if and only if a deactivation came after that check with no reactivation since. */
  lemma LateCommandIff(u: Setup, events: seq<Event>, n: nat)
    requires ValidConfig(u.c) && ValidEvents(events) && u.gated && n <= |events| && At(u, events, n).pc.Apply?
    ensures Last(u, events, n, PassStep).Some?
    ensures !At(u, events, n).active <==> OffSince(u, events, Last(u, events, n, PassStep).value, n)
  {
    hide ValidEvent, ValidConfig, ValidLoop, ValidPc, At, OffSince;
    TickTraced(u, events, n);
    FlagSince(u, events, Last(u, events, n, PassStep).value, n);
  }

  // ----- the stored virtual state

  predicate KeepStep(s: State, e: Event) { s.pc.KeepVirtual? && e.LoopStep? }

  predicate ClearStep(s: State, e: Event) { s.pc.ClearVirtual? && e.LoopStep? }

  predicate ForgetStep(s: State, e: Event) { s.callback.ForgetVirtual? && e.CallbackStep? }

  /** With the gate enabled: a tick passes the flag check. */
  predicate PassStep(s: State, e: Event) { s.pc.CheckFlag? && s.active && e.LoopStep? }

  predicate OffStep(s: State, e: Event) { e == FlagMessage(false) && s.callback.Idle? }

  predicate OnStep(s: State, e: Event) { e == FlagMessage(true) && s.callback.Idle? }

  predicate VirtualStep(s: State, e: Event) { KeepStep(s, e) || ClearStep(s, e) || ForgetStep(s, e) }

  lemma VirtualNext(u: Setup, s: State, e: Event)
    requires ValidState(u, s) && ValidEvent(e)
    ensures Next(u, s, e).loop.virtual ==
      if KeepStep(s, e) then Some(s.pc.command) else if VirtualStep(s, e) then None else s.loop.virtual
  {
    hide ValidLoop, ValidPc, Measured, ControlState, Integrated, CommandedAcceleration, Wanted, Guarded, ValidConfig, LowNow;
  }

  /** The virtual state is what the last step that writes it left. */
  lemma {:induction false} VirtualIs(u: Setup, events: seq<Event>, n: nat)
    requires ValidConfig(u.c) && ValidEvents(events) && n <= |events|
    ensures var k := Last(u, events, n, VirtualStep);
      At(u, events, n).loop.virtual ==
        if k.Some? && KeepStep(At(u, events, k.value), events[k.value]) then Some(At(u, events, k.value).pc.command) else None
  {
    hide Next, ValidEvent, ValidConfig, ValidLoop, ValidPc, At;
    if n == 0 {
      AtStart(u, events);
    } else {
      VirtualIs(u, events, n - 1);
      AtNext(u, events, n - 1);
      VirtualNext(u, At(u, events, n - 1), events[n - 1]);
    }
  }

  /** Past the flag check and not yet at its end. */
  predicate InTick(pc: Pc) { CommandComing(pc) || pc.KeepVirtual? }

  lemma TickNext(u: Setup, s: State, e: Event)
    requires ValidState(u, s) && ValidEvent(e) && u.gated && InTick(Next(u, s, e).pc)
    ensures PassStep(s, e) || (InTick(s.pc) && !KeepStep(s, e))
  {
    hide ValidLoop, Measured, ControlState, Integrated, CommandedAcceleration, Wanted, Guarded, ValidConfig, LowNow;
  }

  /** Inside a tick nothing has been kept since its flag check. */
  lemma {:induction false} TickTraced(u: Setup, events: seq<Event>, n: nat)
    requires ValidConfig(u.c) && ValidEvents(events) && u.gated && n <= |events| && InTick(At(u, events, n).pc)
    ensures Last(u, events, n, PassStep).Some?
    ensures forall j | Last(u, events, n, PassStep).value < j < n :: !KeepStep(At(u, events, j), events[j])
  {
    hide Next, ValidEvent, ValidConfig, ValidLoop, ValidPc, At, PassStep, KeepStep, InTick;
    if n == 0 {
      AtStart(u, events);
      NotInTick(u);
    } else {
      AtNext(u, events, n - 1);
      TickNext(u, At(u, events, n - 1), events[n - 1]);
      if !PassStep(At(u, events, n - 1), events[n - 1]) { TickTraced(u, events, n - 1); }
    }
  }

  lemma NotInTick(u: Setup)
    ensures !InTick(Initial(u).pc)
  {
  }

  lemma FlagNext(u: Setup, s: State, e: Event)
    requires ValidState(u, s) && ValidEvent(e)
    ensures var r := Next(u, s, e);
      && (OffStep(s, e) ==> !r.active && r.callback.ForgetVirtual?)
      && (OnStep(s, e) ==> r.active)
      && (!OffStep(s, e) && !OnStep(s, e) ==> r.active == s.active)
      && (ForgetStep(s, e) ==> !r.callback.ForgetVirtual?)
      && (!OffStep(s, e) && !ForgetStep(s, e) ==> (r.callback.ForgetVirtual? <==> s.callback.ForgetVirtual?))
  {
    hide ValidLoop, ValidPc, Measured, ControlState, Integrated, CommandedAcceleration, Wanted, Guarded, ValidConfig, LowNow;
  }

  /** The flag goes off at `d`, on again at `a` for the first time since, and not off again before `n`. */
  ghost predicate Toggled(u: Setup, events: seq<Event>, d: nat, a: nat, n: nat)
    requires ValidConfig(u.c) && ValidEvents(events) && n <= |events|
  {
    && d < a < n && OffStep(At(u, events, d), events[d]) && OnStep(At(u, events, a), events[a])
    && (forall j | d < j < n :: !OffStep(At(u, events, j), events[j]))
    && (forall j | d < j < a :: !OnStep(At(u, events, j), events[j]))
  }

  /** From the deactivation on, the callback is either still about to forget the virtual state, or has done so once. */
  lemma {:induction false} ForgetOnce(u: Setup, events: seq<Event>, d: nat, a: nat, n: nat, t: nat)
    requires ValidConfig(u.c) && ValidEvents(events) && n <= |events| && Toggled(u, events, d, a, n) && d < t <= n
    ensures var f := Last(u, events, t, ForgetStep);
      if At(u, events, t).callback.ForgetVirtual? then forall j | d <= j < t :: !ForgetStep(At(u, events, j), events[j])
      else f.Some? && d < f.value && forall j | d <= j < t && j != f.value :: !ForgetStep(At(u, events, j), events[j])
    ensures t <= a ==> !At(u, events, t).active
  {
    hide Next, ValidEvent, ValidConfig, ValidLoop, ValidPc, At;
    AtNext(u, events, t - 1);
    FlagNext(u, At(u, events, t - 1), events[t - 1]);
    if t > d + 1 { ForgetOnce(u, events, d, a, n, t - 1); }
  }

  /** A command kept at `i`, after the callback forgot at `v`, with no standby pass up to `n`. */
  ghost predicate Survives(u: Setup, events: seq<Event>, v: nat, i: nat, n: nat)
    requires ValidConfig(u.c) && ValidEvents(events) && n <= |events|
  {
    v < i < n && KeepStep(At(u, events, i), events[i]) && forall j | i < j < n :: !ClearStep(At(u, events, j), events[j])
  }

  /** The first tick after the toggle: it passed the flag check at `g` and is about to blend at `n`. */
  ghost predicate FirstBlend(u: Setup, events: seq<Event>, a: nat, g: nat, n: nat)
    requires ValidConfig(u.c) && ValidEvents(events) && n <= |events|
  {
    && a < g < n && PassStep(At(u, events, g), events[g]) && At(u, events, n).pc.BlendStates?
    && forall j | a < j < n && j != g :: !PassStep(At(u, events, j), events[j])
  }

  /** A command kept between deactivation and first blending is that of a tick that passed its flag check before the
      deactivation, and there is at most one. */
  lemma KeptIsOld(u: Setup, events: seq<Event>, d: nat, a: nat, g: nat, n: nat, i: nat)
    requires ValidConfig(u.c) && ValidEvents(events) && u.gated && n <= |events|
    requires Toggled(u, events, d, a, n) && FirstBlend(u, events, a, g, n)
    requires d < i < n && KeepStep(At(u, events, i), events[i])
    ensures Last(u, events, i, PassStep).Some? && Last(u, events, i, PassStep).value < d
    ensures forall j | d < j < n && j != i :: !KeepStep(At(u, events, j), events[j])
  {
    hide ValidEvent, ValidConfig, ValidLoop, ValidPc, At;
    KeptBefore(u, events, d, a, g, n, i);
    forall j | d < j < n && j != i
      ensures !KeepStep(At(u, events, j), events[j])
    {
      if KeepStep(At(u, events, j), events[j]) { KeptBefore(u, events, d, a, g, n, j); }
    }
  }

  lemma KeptBefore(u: Setup, events: seq<Event>, d: nat, a: nat, g: nat, n: nat, i: nat)
    requires ValidConfig(u.c) && ValidEvents(events) && u.gated && n <= |events|
    requires Toggled(u, events, d, a, n) && FirstBlend(u, events, a, g, n)
    requires d < i < n && KeepStep(At(u, events, i), events[i])
    ensures Last(u, events, i, PassStep).Some? && Last(u, events, i, PassStep).value < d
    ensures forall j | Last(u, events, i, PassStep).value < j < i :: !KeepStep(At(u, events, j), events[j])
  {
    hide ValidEvent, ValidConfig, ValidLoop, ValidPc, At;
    TickTraced(u, events, n);
    TickTraced(u, events, i);
    var p := Last(u, events, i, PassStep).value;
    if d < p <= a { ForgetOnce(u, events, d, a, n, p); }
  }

  /** Exactly when the old session's virtual state is in use again: at the first blending after the flag went off and on
      there is one if and only if a command was kept after the callback had forgotten, with no standby pass in between;
      it is then that command, and its tick had passed the flag check before the deactivation. */
  lemma OldVirtualInUseIff(u: Setup, events: seq<Event>, d: nat, a: nat, g: nat, n: nat)
    requires ValidConfig(u.c) && ValidEvents(events) && u.gated && n <= |events|
    requires Toggled(u, events, d, a, n) && FirstBlend(u, events, a, g, n)
    ensures var f := Last(u, events, n, ForgetStep);
      && f.Some? && d < f.value < a
      && (At(u, events, n).loop.virtual.Some? <==> exists i :: Survives(u, events, f.value, i, n))
      && forall i | Survives(u, events, f.value, i, n) ::
           && At(u, events, n).loop.virtual == Some(At(u, events, i).pc.command)
           && Last(u, events, i, PassStep).Some? && Last(u, events, i, PassStep).value < d
  {
    hide ValidEvent, ValidConfig, ValidLoop, ValidPc, At;
    ForgetOnce(u, events, d, a, n, a);
    ForgetOnce(u, events, d, a, n, n);
    VirtualIs(u, events, n);
    var v := Last(u, events, n, ForgetStep).value;
    var k := Last(u, events, n, VirtualStep);
    if At(u, events, n).loop.virtual.Some? { assert Survives(u, events, v, k.value, n); }
    forall i | Survives(u, events, v, i, n)
      ensures At(u, events, n).loop.virtual == Some(At(u, events, i).pc.command)
      ensures Last(u, events, i, PassStep).Some? && Last(u, events, i, PassStep).value < d
    {
      KeptIsOld(u, events, d, a, g, n, i);
      assert k.Some? && k.value == i;
    }
  }
}
