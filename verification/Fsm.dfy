/** What one run of the FSM interpreter computes, as functions on the run's
    state.  The loops of the interpreter are recursive functions here; each
    recursion is bounded by the iteration budget that is left. */
module Fsm {
  import opened Wrappers
  import opened Workflow

  // ---- Workflows ----

  /** The step types whose effect comes from outside the interpreter. */
  datatype Service = LlmCall | SkillCall | ToolCall | Spawn | Handoff | AgentCall

  /** What a `for` iterates over: literal items, a variable holding them, an
      `items` field that is not a list, or a range whose bounds may fail to
      convert to integers. */
  datatype Source =
    | Items(values: seq<Value>)
    | FromVariable(name: string)
    | NotAList
    | Range(start: Option<int>, end: Option<int>, stride: Option<int>)

  datatype Op =
    | External(service: Service, onError: string)
    | Switch(variable: string)
    | Sleep(seconds: int)
    | End(status: string)
    | SetVariable(name: string, value: string)
    | Break
    | Continue
    | While(condition: Option<Condition>, body: seq<FsmStep>)
    | For(variable: string, source: Source, body: seq<FsmStep>)
    | If(condition: Option<Condition>, body: seq<FsmStep>)
    | Group(body: seq<FsmStep>)
    | Unknown(stepType: string)

  type FsmStep = Step<Op>

  // ---- The state of a run ----

  /** `Diverged` is not a status of the interpreter: it marks a run that never
      returns, namely one stuck in a `while` whose body does nothing. */
  datatype Status = Running | Success | Failed | Sleeping | Aborted | Diverged

  datatype Reason =
    | NoReason
    | NoEntryPoint
    | LimitReached(limit: int)
    | StepMissing(id: string, inBody: bool)
    | UnknownType(stepType: string)
    | KilledBySignal
    | EndStatus(status: string)
    | StepError(error: string)

  /** `_loop_ctl`. */
  datatype Ctl = Clear | BreakFlag | ContinueFlag

  datatype Kind = Leaf | Control | Composite

  /** One handler invocation. */
  datatype Dispatch = Dispatch(id: string, kind: Kind)

  /** The fields of `FSMResult` that decide the course of a run, and the
      handlers invoked so far. */
  datatype Run = Run(
    status: Status,
    vars: Vars,
    msgs: seq<Message>,
    next: string,
    sleepSeconds: Option<int>,
    reason: Reason,
    iterations: nat,
    paused: bool,
    ctl: Ctl,
    trace: seq<Dispatch>)

  // ---- The outside world ----

  /** What an external step comes back with.  Every answer carries the
      variables, the messages and the pause flag it leaves behind. */
  datatype Answer =
    | Done
    | Refused(error: string)  // the call returned, reporting a failure
    | Raised(error: string)   // the call raised
    | Unusable(error: string) // the step names no target, or nobody handles its type
    | Killed                  // a kill arrived while the answer was streaming

  datatype Reply = Reply(answer: Answer, vars: Vars, msgs: seq<Message>, paused: bool)

  /** The net effect of one call of `signal_check`. */
  datatype Check = Check(kill: bool, pause: Option<bool>, updates: Vars)

  /** `reply` receives the iteration count, which differs at every dispatch,
      so that two calls may be answered in unrelated ways.  `signals` lists the
      effects of the successive signal checks; once it is exhausted, a pause
      has been released and no further signal arrives. */
  datatype Env = Env(
    limit: int,
    text: Text,
    reply: (nat, FsmStep, Vars, seq<Message>) -> Reply,
    signals: Option<seq<Check>>)

  /** The iterations still allowed. */
  function Left(e: Env, st: Run): nat {
    if st.iterations < e.limit then e.limit - st.iterations else 0
  }

  // ---- Steps without a body ----

  function Fail(st: Run, reason: Reason): Run {
    st.(status := Failed, reason := reason)
  }

  function LimitFailure(e: Env, st: Run): Run {
    Fail(st, LimitReached(e.limit))
  }

  /** The outcome of a handler: whether to go on, and the new state. */
  type Outcome = (bool, Run)

  function Proceed(st: Run, next: string): Outcome {
    (true, st.(next := next))
  }

  /** `_branch_on_error`. */
  function BranchOnError(onError: string, st: Run, error: string): Outcome {
    var st1 := st.(vars := st.vars["_last_error" := Str(error)]["_last_call_ok" := Bool(false)]);
    if onError != "" then Proceed(st1, onError) else (false, Fail(st1, StepError(error)))
  }

  /** The external step types, which differ in how they treat a failure. */
  function ExternalStep(e: Env, s: FsmStep, st: Run): Outcome
    requires s.op.External?
  {
    var r := e.reply(st.iterations, s, st.vars, st.msgs);
    var st1 := st.(vars := r.vars, msgs := r.msgs, paused := r.paused);
    match r.answer
    case Done => Proceed(st1, s.next)
    case Killed =>
      if s.op.service.LlmCall? then (false, st1.(status := Aborted, reason := KilledBySignal))
      else ExternalFailure(s, st1, "AgentAbort", true)
    case Refused(error) => ExternalFailure(s, st1, error, false)
    case Raised(error) => ExternalFailure(s, st1, error, true)
    case Unusable(error) => (false, Fail(st1, StepError(error)))
  }

  function ExternalFailure(s: FsmStep, st: Run, error: string, raised: bool): Outcome
    requires s.op.External?
  {
    var onError := s.op.onError;
    match s.op.service
    case LlmCall => BranchOnError(onError, st, error)
    case AgentCall =>
      if onError != "" then BranchOnError(onError, st, error) else (false, Fail(st, StepError(error)))
    case SkillCall =>
      if raised then (false, Fail(st, StepError(error)))
      else if onError != "" then Proceed(st, onError)
      else (false, Fail(st.(next := s.next), StepError(error)))
    case ToolCall => (false, Fail(st, StepError(error)))
    case Spawn => (false, Fail(st, StepError(error)))
    case Handoff => (false, Fail(st, StepError(error)))
  }

  function LeafStep(e: Env, s: FsmStep, st: Run): Outcome
    requires KindOf(s.op).Leaf?
  {
    match s.op
    case External(_, _) => ExternalStep(e, s, st)
    case Switch(variable) =>
      var value := Show(e.text, Lookup(st.vars, variable));
      Proceed(st, SwitchTarget(e.text, s.branches, value, s.default_))
    case Sleep(seconds) =>
      (false, st.(sleepSeconds := Some(seconds), status := Sleeping, next := s.next))
    case End(status) =>
      (false, st.(status := if status == "SUCCESS" then Success else Failed, reason := EndStatus(status)))
    case SetVariable(name, value) =>
      Proceed(st.(vars := st.vars[name := Str(e.text.resolve(value, st.vars))]), s.next)
    case Unknown(stepType) => (false, Fail(st, UnknownType(stepType)))
  }

  function KindOf(op: Op): Kind {
    match op
    case Break => Control
    case Continue => Control
    case While(_, _) => Composite
    case For(_, _, _) => Composite
    case If(_, _) => Composite
    case Group(_) => Composite
    case _ => Leaf
  }

  // ---- The values of a `for` ----

  /** `range(start, end, stride)`. */
  function RangeValues(start: int, end: int, stride: int): (values: seq<Value>)
    requires stride != 0
    ensures forall k | 0 <= k < |values| :: values[k] == Int(start + k * stride)
    ensures forall k: nat :: k < |values| <==> if stride > 0 then start + k * stride < end else start + k * stride > end
    decreases if stride > 0 then end - start else start - end
  {
    if (stride > 0 && start >= end) || (stride < 0 && start <= end) then
      assert forall k: nat :: if stride > 0 then k * stride >= 0 else k * stride <= 0;
      []
    else
      var rest := RangeValues(start + stride, end, stride);
      var values := [Int(start)] + rest;
      assert forall k: nat {:trigger k * stride} :: k > 0 ==> (k - 1) * stride == k * stride - stride;
      values
  }

  function LoopValues(source: Source, vars: Vars): seq<Value> {
    match source
    case Items(values) => values
    case FromVariable(name) => if name in vars && vars[name].List? then vars[name].items else []
    case NotAList => []
    case Range(start, end, stride) =>
      var increment := stride.GetOr(1);
      RangeValues(start.GetOr(0), end.GetOr(0), if increment == 0 then 1 else increment)
  }

  // ---- Steps with a body ----

  /** How a pass through a body ended. */
  datatype Code = Normal | BreakCode | ContinueCode | Stop

  /** A handler exists for every step type but the unknown ones. */
  function Invoke(s: FsmStep, st: Run): Run {
    if s.op.Unknown? then st else st.(trace := st.trace + [Dispatch(s.id, KindOf(s.op))])
  }

  /** `getattr(self, "_step_...")` and the call of the handler it finds. */
  function Handle(e: Env, s: FsmStep, st: Run): (r: Outcome)
    ensures st.iterations <= r.1.iterations
    decreases Left(e, st), 5
  {
    var st1 := Invoke(s, st);
    match KindOf(s.op)
    case Leaf => LeafStep(e, s, st1)
    case Control => (false, st1.(ctl := if s.op.Break? then BreakFlag else ContinueFlag))
    case Composite => CompositeStep(e, s, st1)
  }

  function CompositeStep(e: Env, s: FsmStep, st: Run): (r: Outcome)
    requires KindOf(s.op).Composite?
    ensures st.iterations <= r.1.iterations
    decreases Left(e, st), 4
  {
    match s.op
    case While(_, _) => WhileStep(e, s, st)
    case For(_, source, _) => ForStep(e, s, LoopValues(source, st.vars), st)
    case If(condition, _) =>
      if EvalCondition(e.text, condition, st.vars) then BodyStep(e, s, st) else Proceed(st, s.next)
    case Group(_) => BodyStep(e, s, st)
  }

  /** The common part of `_step_if` and `_step_group`: every code but a stop
      counts as a normal end. */
  function BodyStep(e: Env, s: FsmStep, st: Run): (r: Outcome)
    requires s.op.If? || s.op.Group?
    ensures st.iterations <= r.1.iterations
    decreases Left(e, st), 3
  {
    var (code, st1) := RunBody(e, s.op.body, st);
    if code.Stop? then (false, st1) else Proceed(st1, s.next)
  }

  /** `_step_while`. */
  function WhileStep(e: Env, s: FsmStep, st: Run): (r: Outcome)
    requires s.op.While?
    ensures st.iterations <= r.1.iterations
    decreases Left(e, st), 3
  {
    if !EvalCondition(e.text, s.op.condition, st.vars) then Proceed(st, s.next)
    else if st.iterations >= e.limit then (false, LimitFailure(e, st))
    else if EntryPoint(s.op.body) == "" then (false, st.(status := Diverged))
    else
      var (code, st1) := RunBody(e, s.op.body, st);
      if code.Stop? then (false, st1)
      else if code.BreakCode? then Proceed(st1, s.next)
      else WhileStep(e, s, st1)
  }

  /** `_step_for`, once the values are known. */
  function ForStep(e: Env, s: FsmStep, values: seq<Value>, st: Run): (r: Outcome)
    requires s.op.For?
    ensures st.iterations <= r.1.iterations
    decreases Left(e, st), 3
  {
    var (code, st1) := ForPasses(e, s, values, st);
    if code.Stop? then (false, st1) else Proceed(st1, s.next)
  }

  /** The passes of a `for` over `values`; the code is `Normal` when the values
      ran out. */
  function ForPasses(e: Env, s: FsmStep, values: seq<Value>, st: Run): (r: (Code, Run))
    requires s.op.For?
    ensures st.iterations <= r.1.iterations
    decreases Left(e, st), 2, |values|
  {
    if values == [] then (Normal, st)
    else if st.iterations >= e.limit then (Stop, LimitFailure(e, st))
    else
      var (code, st1) := RunBody(e, s.op.body, st.(vars := st.vars[s.op.variable := values[0]]));
      if code.Stop? || code.BreakCode? then (code, st1)
      else ForPasses(e, s, values[1..], st1)
  }

  /** `_run_body`. */
  function RunBody(e: Env, body: seq<FsmStep>, st: Run): (r: (Code, Run))
    ensures st.iterations <= r.1.iterations
    ensures EntryPoint(body) != "" && !r.0.Stop? ==> st.iterations < r.1.iterations
    decreases Left(e, st), 1
  {
    BodyFrom(e, body, EntryPoint(body), st)
  }

  /** The loop of `_run_body`, from the step `cur` on. */
  function BodyFrom(e: Env, body: seq<FsmStep>, cur: string, st: Run): (r: (Code, Run))
    ensures st.iterations <= r.1.iterations
    ensures cur != "" && !r.0.Stop? ==> st.iterations < r.1.iterations
    decreases Left(e, st), 0
  {
    if cur == "" then (Normal, st)
    else if st.iterations >= e.limit then (Stop, LimitFailure(e, st))
    else
      match Find(body, cur)
      case None => (Stop, Fail(st, StepMissing(cur, true)))
      case Some(i) =>
        var (go, st1) := Handle(e, body[i], Begin(st));
        if st1.ctl.BreakFlag? then (BreakCode, st1.(ctl := Clear))
        else if st1.ctl.ContinueFlag? then (ContinueCode, st1.(ctl := Clear))
        else if !st1.status.Running? || !go then (Stop, st1)
        else BodyFrom(e, body, st1.next, st1)
  }

  lemma {:induction false} EmptyBody(e: Env, st: Run)
    ensures RunBody(e, [], st) == (Normal, st)
  {}

  /** A step is about to be dispatched. */
  function Begin(st: Run): Run {
    st.(iterations := st.iterations + 1, next := "")
  }

  // ---- The run ----

  /** The effect of the k-th signal check. */
  function CheckAt(e: Env, k: nat): Check
    requires e.signals.Some?
  {
    if k < |e.signals.value| then e.signals.value[k] else Check(false, Some(false), map[])
  }

  function SignalsLeft(e: Env, k: nat): nat {
    if e.signals.Some? && k < |e.signals.value| then |e.signals.value| - k else 0
  }

  /** `_check_signals`. */
  function ApplyCheck(st: Run, c: Check): Run {
    var st1 := st.(vars := st.vars + c.updates, paused := c.pause.GetOr(st.paused));
    if c.kill then st1.(status := Aborted, reason := KilledBySignal) else st1
  }

  /** The waiting loop of a pause, and the number of the next check. */
  function Wait(e: Env, st: Run, k: nat): (r: (Run, nat))
    requires e.signals.Some?
    ensures r.1 >= k && (st.paused && st.status.Running? ==> r.1 > k)
    ensures r.0.status.Running? ==> !r.0.paused
    ensures r.0.iterations == st.iterations && r.0.trace == st.trace && r.0.ctl == st.ctl
    ensures st.status.Running? ==> r.0.status.Running? || r.0.status.Aborted?
    decreases SignalsLeft(e, k), st.paused
  {
    if st.paused && st.status.Running? then Wait(e, ApplyCheck(st, CheckAt(e, k)), k + 1) else (st, k)
  }

  /** The main loop of `run`, from the step `cur` and the k-th check on. */
  function RunFrom(e: Env, steps: seq<FsmStep>, cur: string, st: Run, k: nat): (r: Run)
    ensures st.iterations <= r.iterations
    decreases Left(e, st), SignalsLeft(e, k), 1
  {
    if cur == "" || st.iterations >= e.limit then st
    else if e.signals.None? then DispatchFrom(e, steps, cur, st, k)
    else
      var st1 := ApplyCheck(st, CheckAt(e, k));
      if !st1.paused then DispatchFrom(e, steps, cur, st1, k + 1)
      else
        var (st2, k2) := Wait(e, st1, k + 1);
        if st2.status.Running? then RunFrom(e, steps, cur, st2, k2) else st2
  }

  /** One step of the main loop, and what follows it. */
  function DispatchFrom(e: Env, steps: seq<FsmStep>, cur: string, st: Run, k: nat): (r: Run)
    requires cur != "" && st.iterations < e.limit
    ensures st.iterations <= r.iterations
    decreases Left(e, st), SignalsLeft(e, k), 0
  {
    match Find(steps, cur)
    case None => Fail(st, StepMissing(cur, false))
    case Some(i) =>
      var (go, st1) := Handle(e, steps[i], Begin(st));
      if !st1.status.Running? || !go then st1 else RunFrom(e, steps, st1.next, st1, k)
  }

  function Start(msgs: seq<Message>, vars: Vars): Run {
    Run(Running, vars, msgs, "", None, NoReason, 0, false, Clear, [])
  }

  /** The check that closes a run. */
  function Finish(e: Env, st: Run): Run {
    if st.iterations >= e.limit && st.status.Running? then LimitFailure(e, st) else st
  }

  /** `run`, from `start` or, when that is "", from the entry point. */
  function Execute(e: Env, steps: seq<FsmStep>, msgs: seq<Message>, vars: Vars, start: string): Run {
    var st := Start(msgs, vars);
    var cur := if start != "" then start else EntryPoint(steps);
    if cur == "" then Fail(st, NoEntryPoint) else Finish(e, RunFrom(e, steps, cur, st, 0))
  }
}
