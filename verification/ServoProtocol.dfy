/** The direct servo backend as interleaved threads: the control loop that queues commands, the data thread
    that reports safety stops, the servo thread that takes and sends, and the reader of command responses. */
module ServoProtocol {
  import opened LinearAlgebra

  /** `apply_command`: past the readiness check, then past the safety check. */
  datatype ControlPc = ControlIdle | ReadyChecked(v: Vec) | SafetyChecked(v: Vec)

  /** `on_state`: between raising the safety flag and clearing the mailbox. */
  datatype DataPc = DataIdle | Clearing

  /** `servo_command_loop`: waiting, holding a command before the acknowledgement gate, past the gate, and on
      the failure path. */
  datatype ServoPc = Waiting | Holding(v: Vec) | Sending(v: Vec) | Failing | Finished

  /** What has happened so far: vectors queued and handed to the sender, which queued ones those were, and the
      fate of the issued commands. `newest` is the position of the mailbox's vector among the queued ones. */
  datatype Log = Log(queued: seq<Vec>, newest: int, taken: seq<nat>, handed: seq<Vec>,
                     sent: nat, issued: nat, acks: nat, timeouts: nat, failures: nat, lost: nat)

  datatype State = State(
    pending: bool,
    mailbox: Vec,
    blocked: bool,
    servoRunning: bool,
    awaiting: bool,
    running: bool,
    connected: bool,
    control: ControlPc,
    data: DataPc,
    servo: ServoPc,
    log: Log
  )

  datatype Step =
    | CallApply(v: Vec) | ReadBlocked | Queue
    | Exchange(stop: bool) | Clear
    | Take | Exit
    | PassGate | RefuseGate | TimeOut
    | SendDone | SendFailed(hangUp: bool) | ForgetResponse
    | Response
    | Disconnect | StopClient | StopServo

  /** The gate in `send_servoj_degrees`: no response outstanding, or the client is going down. */
  predicate GateOpen(s: State) { !s.awaiting || !s.running || !s.connected }

  /** A response can still be handled after the client has stopped: the reader tests the flag before it blocks. */
  predicate Enabled(s: State, step: Step) {
    match step
    case CallApply(_) => s.control.ControlIdle?
    case ReadBlocked => s.control.ReadyChecked?
    case Queue => s.control.SafetyChecked?
    case Exchange(_) => s.data.DataIdle?
    case Clear => s.data.Clearing?
    case Take => s.servo.Waiting? && s.pending
    case Exit => s.servo.Waiting? && !s.servoRunning && !s.pending
    case PassGate => s.servo.Holding? && GateOpen(s) && s.connected
    case RefuseGate => s.servo.Holding? && GateOpen(s) && !s.connected
    case TimeOut => s.servo.Holding? && !GateOpen(s)
    case SendDone => s.servo.Sending?
    case SendFailed(_) => s.servo.Sending?
    case ForgetResponse => s.servo.Failing?
    case Response => true
    case Disconnect | StopClient | StopServo => true
  }

  function Bit(b: bool): nat { if b then 1 else 0 }

  function Apply(s: State, step: Step): State
    requires Enabled(s, step)
  {
    match step
    case CallApply(v) => s.(control := ReadyChecked(v))
    case ReadBlocked => s.(control := if s.blocked then ControlIdle else SafetyChecked(s.control.v))
    case Queue =>
      s.(control := ControlIdle, mailbox := s.control.v, pending := true,
         log := s.log.(queued := s.log.queued + [s.control.v], newest := |s.log.queued|))
    case Exchange(stop) => s.(blocked := stop, data := if stop && !s.blocked then Clearing else DataIdle)
    case Clear => s.(pending := false, data := DataIdle)
    case Take =>
      s.(pending := false, servo := Holding(s.mailbox),
         log := s.log.(handed := s.log.handed + [s.mailbox],
                       taken := s.log.taken + [if s.log.newest >= 0 then s.log.newest else 0]))
    case Exit => s.(servo := Finished)
    case PassGate =>
      s.(servo := Sending(s.servo.v), awaiting := true,
         log := s.log.(issued := s.log.issued + 1, lost := s.log.lost + Bit(s.awaiting)))
    case RefuseGate => s.(servo := Waiting)
    case TimeOut => s.(servo := Waiting, awaiting := false, log := s.log.(timeouts := s.log.timeouts + 1))
    case SendDone => s.(servo := Waiting, log := s.log.(sent := s.log.sent + 1))
    case SendFailed(hangUp) => s.(servo := Failing, connected := s.connected && !hangUp)
    case ForgetResponse =>
      s.(servo := Waiting, awaiting := false, log := s.log.(failures := s.log.failures + Bit(s.awaiting)))
    case Response => s.(awaiting := false, log := s.log.(acks := s.log.acks + Bit(s.awaiting)))
    case Disconnect => s.(connected := false)
    case StopClient => s.(running := false)
    case StopServo => s.(servoRunning := false, pending := false)
  }

  const INITIAL: State :=
    State(false, [], false, true, false, true, true, ControlIdle, DataIdle, Waiting, Log([], -1, [], [], 0, 0, 0, 0, 0, 0))

  /** The state after the steps, each enabled when it is taken. */
  ghost predicate Runs(s: State, steps: seq<Step>, end: State)
    decreases |steps|
  {
    if steps == [] then end == s else Enabled(s, steps[0]) && Runs(Apply(s, steps[0]), steps[1..], end)
  }

  ghost predicate Reachable(s: State) { exists steps :: Runs(INITIAL, steps, s) }

  // ----- the mailbox

  ghost predicate Increasing(ids: seq<nat>) { forall i, j | 0 <= i < j < |ids| :: ids[i] < ids[j] }

  ghost predicate AllBelow(ids: seq<nat>, id: int) { forall i | 0 <= i < |ids| :: ids[i] < id }

  /** The handed vectors are the queued ones at the taken positions, in that order. */
  ghost predicate FromQueue(taken: seq<nat>, handed: seq<Vec>, queued: seq<Vec>) {
    && Increasing(taken) && |handed| == |taken|
    && forall i | 0 <= i < |taken| :: taken[i] < |queued| && handed[i] == queued[taken[i]]
  }

  /** Every vector handed to the sender is a queued one, taken later than all before it. */
  ghost predicate InOrder(s: State) {
    && FromQueue(s.log.taken, s.log.handed, s.log.queued) && s.log.newest == |s.log.queued| - 1
    && (s.log.newest >= 0 ==> s.mailbox == s.log.queued[s.log.newest])
    && (s.pending ==> s.log.newest >= 0 && AllBelow(s.log.taken, s.log.newest))
    && (s.servo.Holding? || s.servo.Sending? ==> s.log.handed != [] && s.servo.v == s.log.handed[|s.log.handed| - 1])
    && s.log.sent <= |s.log.handed|
    && (s.servo.Holding? || s.servo.Sending? ==> s.log.sent < |s.log.handed|)
  }

  lemma InOrderStep(s: State, step: Step)
    requires InOrder(s) && Enabled(s, step)
    ensures InOrder(Apply(s, step))
  {
    hide FromQueue, AllBelow;
    match step {
      case CallApply(_) =>
      case ReadBlocked =>
      case Queue => QueueInOrder(s);
      case Exchange(_) =>
      case Clear =>
      case Take => TakeInOrder(s);
      case Exit =>
      case PassGate =>
      case RefuseGate =>
      case TimeOut =>
      case SendDone =>
      case SendFailed(_) =>
      case ForgetResponse =>
      case Response =>
      case Disconnect =>
      case StopClient =>
      case StopServo =>
    }
  }

  lemma QueueInOrder(s: State)
    requires InOrder(s) && Enabled(s, Queue)
    ensures InOrder(Apply(s, Queue))
  {
    hide Increasing;
    assert FromQueue(s.log.taken, s.log.handed, s.log.queued + [s.control.v]);
  }

  lemma TakeInOrder(s: State)
    requires InOrder(s) && Enabled(s, Take)
    ensures InOrder(Apply(s, Take))
  {
    Appended(s.log.taken, s.log.newest);
    hide Increasing;
    assert FromQueue(s.log.taken + [s.log.newest], s.log.handed + [s.mailbox], s.log.queued);
  }

  lemma Appended(ids: seq<nat>, id: nat)
    requires Increasing(ids) && AllBelow(ids, id)
    ensures Increasing(ids + [id])
  {
  }

  lemma {:induction false} InOrderRun(s: State, steps: seq<Step>, end: State)
    requires InOrder(s) && Runs(s, steps, end)
    ensures InOrder(end)
    decreases |steps|
  {
    hide InOrder;
    if steps != [] {
      InOrderStep(s, steps[0]);
      InOrderRun(Apply(s, steps[0]), steps[1..], end);
    }
  }

  /** Under every interleaving the vectors handed to the sender are the queued vectors at strictly increasing
      positions: none duplicated, invented or reordered. At most that many are sent. */
  lemma HandedInOrder(s: State)
    requires Reachable(s)
    ensures Increasing(s.log.taken) && |s.log.handed| == |s.log.taken| && s.log.sent <= |s.log.handed|
    ensures forall i | 0 <= i < |s.log.taken| :: s.log.taken[i] < |s.log.queued| && s.log.handed[i] == s.log.queued[s.log.taken[i]]
  {
    hide Runs, Apply, Enabled;
    var steps :| Runs(INITIAL, steps, s);
    InOrderRun(INITIAL, steps, s);
  }

  // ----- the acknowledgement flag

  /** Every issued command is accounted for; while the client runs, none is lost under another. */
  ghost predicate Balanced(s: State) {
    && s.log.issued == s.log.acks + s.log.timeouts + s.log.failures + s.log.lost + Bit(s.awaiting)
    && (s.running ==> s.log.lost == 0)
  }

  lemma BalancedStep(s: State, step: Step)
    requires Balanced(s) && Enabled(s, step)
    ensures Balanced(Apply(s, step))
  {
    match step {
      case CallApply(_) =>
      case ReadBlocked =>
      case Queue =>
      case Exchange(_) =>
      case Clear =>
      case Take =>
      case Exit =>
      case PassGate =>
      case RefuseGate =>
      case TimeOut =>
      case SendDone =>
      case SendFailed(_) =>
      case ForgetResponse =>
      case Response =>
      case Disconnect =>
      case StopClient =>
      case StopServo =>
    }
  }

  lemma {:induction false} BalancedRun(s: State, steps: seq<Step>, end: State)
    requires Balanced(s) && Runs(s, steps, end)
    ensures Balanced(end)
    decreases |steps|
  {
    hide Balanced, Apply, Enabled;
    if steps != [] {
      BalancedStep(s, steps[0]);
      BalancedRun(Apply(s, steps[0]), steps[1..], end);
    }
  }

  /** While the client runs, commands issued are commands acknowledged, timed out or failed, plus the one
      outstanding; so no two ever await a response together. */
  lemma OneOutstanding(s: State)
    requires Reachable(s) && s.running
    ensures s.log.issued == s.log.acks + s.log.timeouts + s.log.failures + Bit(s.awaiting)
  {
    hide Runs, Apply, Enabled;
    var steps :| Runs(INITIAL, steps, s);
    BalancedRun(INITIAL, steps, s);
  }

  /** Somewhere in the run the gate is passed by a client that is being stopped, with a response outstanding. */
  ghost predicate PassedOver(s: State, steps: seq<Step>)
    decreases |steps|
  {
    steps != [] && Enabled(s, steps[0])
    && ((steps[0].PassGate? && s.awaiting && !s.running) || PassedOver(Apply(s, steps[0]), steps[1..]))
  }

  lemma LostStep(s: State, step: Step)
    requires Enabled(s, step)
    ensures Apply(s, step).log.lost == s.log.lost + Bit(step.PassGate? && s.awaiting && !s.running)
  {
    match step {
      case PassGate =>
      case Exchange(_) =>
      case _ =>
    }
  }

  lemma {:induction false} LostRun(s: State, steps: seq<Step>, end: State)
    requires Runs(s, steps, end)
    ensures end.log.lost >= s.log.lost && (end.log.lost == s.log.lost <==> !PassedOver(s, steps))
    decreases |steps|
  {
    hide Apply, Enabled;
    if steps != [] {
      LostStep(s, steps[0]);
      LostRun(Apply(s, steps[0]), steps[1..], end);
    }
  }

  /** Over every run the accounting is right if and only if no stopping client passed the gate with a response
      outstanding. */
  lemma AccountedIff(steps: seq<Step>, s: State)
    requires Runs(INITIAL, steps, s)
    ensures s.log.issued == s.log.acks + s.log.timeouts + s.log.failures + Bit(s.awaiting) <==> !PassedOver(INITIAL, steps)
  {
    hide Runs, Apply, Enabled, PassedOver;
    BalancedRun(INITIAL, steps, s);
    LostRun(INITIAL, steps, s);
  }

  lemma {:induction false} RunsThen(start: State, steps: seq<Step>, s: State, step: Step)
    requires Runs(start, steps, s) && Enabled(s, step)
    ensures Runs(start, steps + [step], Apply(s, step))
    decreases |steps|
  {
    hide Apply, Enabled;
    if steps == [] {
      assert steps + [step] == [step] && [step][1..] == [];
    } else {
      RunsThen(Apply(start, steps[0]), steps[1..], s, step);
      assert (steps + [step])[1..] == steps[1..] + [step];
    }
  }

  /** Extends a run by one step. */
  lemma Go(start: State, steps: seq<Step>, s: State, step: Step) returns (more: seq<Step>, next: State)
    requires Runs(start, steps, s) && Enabled(s, step)
    ensures more == steps + [step] && next == Apply(s, step) && Runs(start, more, next)
  {
    RunsThen(start, steps, s, step);
    more, next := steps + [step], Apply(s, step);
  }

  /** A command queued, taken and past the gate. */
  lemma GoIssue(start: State, steps: seq<Step>, s: State, v: Vec) returns (more: seq<Step>, next: State)
    requires Runs(start, steps, s) && s.control.ControlIdle? && !s.blocked && s.servo.Waiting? && s.connected && GateOpen(s)
    ensures Runs(start, more, next)
    ensures next.log.issued == s.log.issued + 1 && next.awaiting && next.connected && next.running == s.running && !next.blocked
    ensures next.log.lost == s.log.lost + Bit(s.awaiting) && next.control.ControlIdle? && next.servo.Sending? && next.data == s.data
  {
    hide Runs;
    more, next := Go(start, steps, s, CallApply(v));
    more, next := Go(start, more, next, ReadBlocked);
    more, next := Go(start, more, next, Queue);
    more, next := Go(start, more, next, Take);
    more, next := Go(start, more, next, PassGate);
  }

  /** Once the client is being stopped the gate opens with a response outstanding, and that command is lost:
      the count above needs the running client. */
  lemma StoppingLosesOne(v: Vec, w: Vec)
    ensures exists s :: Reachable(s) && !s.running && s.connected && s.log.issued == 2 && s.log.lost == 1
  {
    assert Runs(INITIAL, [], INITIAL);
    var steps, s := GoIssue(INITIAL, [], INITIAL, v);
    hide Runs;
    steps, s := Go(INITIAL, steps, s, SendDone);
    steps, s := Go(INITIAL, steps, s, StopClient);
    steps, s := GoIssue(INITIAL, steps, s, w);
    assert Reachable(s);
  }

  // ----- the safety stop

  /** Commands that can still reach the socket although the stop is active: one past the safety check, one in
      the mailbox, one in the servo thread. */
  function InFlight(s: State): nat {
    Bit(s.control.SafetyChecked?) + Bit(s.pending) + Bit(s.servo.Holding? || s.servo.Sending?)
  }

  ghost predicate StaysBlocked(steps: seq<Step>) { forall i | 0 <= i < |steps| :: steps[i] != Exchange(false) }

  lemma BlockedStep(s: State, step: Step)
    requires s.blocked && step != Exchange(false) && Enabled(s, step)
    ensures var t := Apply(s, step); t.blocked && s.log.sent <= t.log.sent && t.log.sent + InFlight(t) <= s.log.sent + InFlight(s)
  {
    match step {
      case CallApply(_) =>
      case ReadBlocked =>
      case Queue =>
      case Exchange(_) =>
      case Clear =>
      case Take =>
      case Exit =>
      case PassGate =>
      case RefuseGate =>
      case TimeOut =>
      case SendDone =>
      case SendFailed(_) =>
      case ForgetResponse =>
      case Response =>
      case Disconnect =>
      case StopClient =>
      case StopServo =>
    }
  }

  /** While the stop stays active, commands sent plus commands in flight never grows. */
  lemma {:induction false} BlockedRun(s: State, steps: seq<Step>, end: State)
    requires s.blocked && StaysBlocked(steps) && Runs(s, steps, end)
    ensures end.blocked && s.log.sent <= end.log.sent && end.log.sent + InFlight(end) <= s.log.sent + InFlight(s)
    decreases |steps|
  {
    hide Apply, Enabled, InFlight;
    if steps != [] {
      BlockedStep(s, steps[0]);
      BlockedRun(Apply(s, steps[0]), steps[1..], end);
    }
  }

  /** Once the mailbox has been cleared for a stop, and while the stop stays active, at most two more commands
      are sent: one held by the servo thread and one already past the safety check. */
  lemma AtMostTwoSends(s: State, steps: seq<Step>, end: State)
    requires s.blocked && Enabled(s, Clear) && StaysBlocked(steps) && Runs(Apply(s, Clear), steps, end)
    ensures end.log.sent <= s.log.sent + 2
    ensures !s.control.SafetyChecked? ==> end.log.sent <= s.log.sent + 1
    ensures !s.control.SafetyChecked? && !s.servo.Holding? && !s.servo.Sending? ==> end.log.sent == s.log.sent
  {
    BlockedRun(Apply(s, Clear), steps, end);
  }

  lemma ClearingStep(s: State, step: Step)
    requires (s.data.Clearing? ==> s.blocked) && Enabled(s, step)
    ensures var t := Apply(s, step); t.data.Clearing? ==> t.blocked
  {
    match step {
      case Exchange(_) =>
      case Clear =>
      case _ =>
    }
  }

  /** Whenever the data thread is about to clear, the stop is active. */
  lemma {:induction false} ClearingIsBlocked(s: State, steps: seq<Step>, end: State)
    requires Runs(s, steps, end) && (s.data.Clearing? ==> s.blocked)
    ensures end.data.Clearing? ==> end.blocked
    decreases |steps|
  {
    hide Apply, Enabled;
    if steps != [] {
      ClearingStep(s, steps[0]);
      ClearingIsBlocked(Apply(s, steps[0]), steps[1..], end);
    }
  }

  /** A state about to clear, with one command in the servo thread and one past the safety check. */
  lemma ReachClear(v: Vec, w: Vec) returns (s: State)
    ensures Reachable(s) && s.blocked && s.data.Clearing? && s.servo.Holding? && s.control.SafetyChecked?
    ensures !s.awaiting && s.connected && s.running && s.log.sent == 0
  {
    hide Runs;
    NoSteps(INITIAL);
    var first: seq<Step>;
    first, s := Go(INITIAL, [], INITIAL, CallApply(v));
    first, s := Go(INITIAL, first, s, ReadBlocked);
    first, s := Go(INITIAL, first, s, Queue);
    first, s := Go(INITIAL, first, s, Take);
    first, s := Go(INITIAL, first, s, CallApply(w));
    first, s := Go(INITIAL, first, s, ReadBlocked);
    first, s := Go(INITIAL, first, s, Exchange(true));
    assert Reachable(s);
  }

  /** From there two more sends can follow. */
  lemma TwoMore(s: State) returns (steps: seq<Step>, end: State)
    requires s.blocked && s.servo.Holding? && s.control.SafetyChecked? && !s.awaiting && s.connected && s.running
    ensures StaysBlocked(steps) && Runs(s, steps, end) && end.log.sent == s.log.sent + 2
  {
    hide Runs;
    NoSteps(s);
    steps, end := Go(s, [], s, PassGate);
    steps, end := Go(s, steps, end, SendDone);
    steps, end := Go(s, steps, end, Queue);
    steps, end := Go(s, steps, end, Response);
    steps, end := OneMore(s, steps, end);
  }

  lemma OneMore(start: State, steps: seq<Step>, s: State) returns (more: seq<Step>, end: State)
    requires Runs(start, steps, s) && StaysBlocked(steps)
    requires s.pending && s.servo.Waiting? && !s.awaiting && s.connected && s.running
    ensures StaysBlocked(more) && Runs(start, more, end) && end.log.sent == s.log.sent + 1
  {
    hide Runs;
    more, end := Go(start, steps, s, Take);
    more, end := Go(start, more, end, PassGate);
    more, end := Go(start, more, end, SendDone);
  }

  /** The bound is reached: a run with two sends after the mailbox was cleared. */
  lemma TwoSendsHappen(v: Vec, w: Vec)
    ensures exists s, steps, end ::
      Reachable(s) && Enabled(s, Clear) && s.blocked && StaysBlocked(steps) && Runs(Apply(s, Clear), steps, end)
      && end.log.sent == s.log.sent + 2
  {
    hide Runs, Reachable, StaysBlocked;
    var s := ReachClear(v, w);
    var steps, end := TwoMore(Apply(s, Clear));
  }

  lemma NoSteps(s: State)
    ensures Runs(s, [], s)
  {
  }
}
