/** The flat executor of the agent DSL: a graph of steps without bodies, which a
    sleep suspends and the caller resumes by a new run. */
module Dsl {
  import opened Wrappers
  import opened Workflow

  /** `Notify` stands for the steps that only call an injected function
      (`save_state`, `connect`, `disconnect`), `Transform` for those delegated
      to the pipeline (`concat`, `extract_context`, `translate_context`,
      `call_function`). */
  datatype Op =
    | LlmCall
    | ToolCall
    | Transform
    | Notify
    | Switch(variable: string)
    | Sleep(seconds: int)
    | End(status: string, successor: string)
    | SignalSuccessor(successor: string)
    | SetVariable(name: string, value: string)
    | Unknown(stepType: string)

  type DslStep = Step<Op>

  datatype Status = Running | Success | Failed | Sleeping

  datatype Reason =
    | NoReason
    | NoEntryPoint
    | LimitReached(limit: int)
    | StepMissing(id: string)
    | UnknownType(stepType: string)
    | NotConfigured
    | CallError(error: string)
    | EndStatus(status: string)

  datatype Result = Result(
    status: Status,
    vars: Vars,
    msgs: seq<Message>,
    next: string,
    sleepSeconds: Option<int>,
    successor: string,
    reason: Reason,
    iterations: nat)

  datatype Reply = Answered(vars: Vars, msgs: seq<Message>) | Raised(error: string)

  /** The injected functions, which see the step, the variables and the
      messages; a missing LLM or tool function is `None`. */
  datatype Env = Env(
    limit: int,
    text: Text,
    llm: Option<(DslStep, Vars, seq<Message>) -> Reply>,
    tool: Option<(DslStep, Vars, seq<Message>) -> Reply>,
    transform: (DslStep, Vars, seq<Message>) -> (Vars, seq<Message>),
    hasSignal: bool)

  type Outcome = (bool, Result)

  function Fail(r: Result, reason: Reason): Result {
    r.(status := Failed, reason := reason)
  }

  function Proceed(r: Result, next: string): Outcome {
    (true, r.(next := next))
  }

  /** `_dsl_llm_call` and `_dsl_tool_call`. */
  function Call(f: Option<(DslStep, Vars, seq<Message>) -> Reply>, s: DslStep, r: Result): Outcome {
    if f.None? then (false, Fail(r, NotConfigured))
    else
      match f.value(s, r.vars, r.msgs)
      case Answered(vars, msgs) => Proceed(r.(vars := vars, msgs := msgs), s.next)
      case Raised(error) => (false, Fail(r, CallError(error)))
  }

  function Handle(e: Env, s: DslStep, r: Result): Outcome {
    match s.op
    case LlmCall => Call(e.llm, s, r)
    case ToolCall => Call(e.tool, s, r)
    case Transform =>
      var (vars, msgs) := e.transform(s, r.vars, r.msgs);
      Proceed(r.(vars := vars, msgs := msgs), s.next)
    case Notify => Proceed(r, s.next)
    case Switch(variable) =>
      Proceed(r, SwitchTarget(e.text, s.branches, Show(e.text, Lookup(r.vars, variable)), s.default_))
    case Sleep(seconds) => (false, r.(sleepSeconds := Some(seconds), status := Sleeping, next := s.next))
    case End(status, successor) =>
      var r1 := r.(status := if status == "SUCCESS" then Success else Failed, reason := EndStatus(status));
      (false, if successor != "" && e.hasSignal then r1.(successor := successor) else r1)
    case SignalSuccessor(successor) => Proceed(r.(successor := successor), s.next)
    case SetVariable(name, value) => Proceed(r.(vars := r.vars[name := Str(e.text.resolve(value, r.vars))]), s.next)
    case Unknown(stepType) => (false, Fail(r, UnknownType(stepType)))
  }

  function Begin(r: Result): Result {
    r.(iterations := r.iterations + 1, next := "")
  }

  function Left(e: Env, r: Result): nat {
    if r.iterations < e.limit then e.limit - r.iterations else 0
  }

  /** No handler touches the iteration count, and one that goes on leaves the
      status and the end reason alone. */
  lemma {:induction false} HandleKeepsCount(e: Env, s: DslStep, r: Result)
    ensures var (go, r1) := Handle(e, s, r);
      r1.iterations == r.iterations && (go ==> r1.status == r.status && r1.reason == r.reason)
  {}

  /** The loop of `run`, from the step `cur` on. */
  function RunFrom(e: Env, steps: seq<DslStep>, cur: string, r: Result): (end: Result)
    ensures r.iterations <= end.iterations
    decreases Left(e, r)
  {
    if cur == "" || r.iterations >= e.limit then r
    else
      match Find(steps, cur)
      case None => Fail(r, StepMissing(cur))
      case Some(i) =>
        HandleKeepsCount(e, steps[i], Begin(r));
        var (go, r1) := Handle(e, steps[i], Begin(r));
        if !r1.status.Running? || !go then r1 else RunFrom(e, steps, r1.next, r1)
  }

  function Start(msgs: seq<Message>, vars: Vars): Result {
    Result(Running, vars, msgs, "", None, "", NoReason, 0)
  }

  function Finish(e: Env, r: Result): Result {
    if r.iterations >= e.limit && r.status.Running? then Fail(r, LimitReached(e.limit)) else r
  }

  /** `run`, from `start` or, when that is "", from the entry point. */
  function Execute(e: Env, steps: seq<DslStep>, msgs: seq<Message>, vars: Vars, start: string): Result {
    var r := Start(msgs, vars);
    var cur := FirstStep(steps, start);
    if cur == "" then Fail(r, NoEntryPoint) else Finish(e, RunFrom(e, steps, cur, r))
  }

  function FirstStep(steps: seq<DslStep>, start: string): string {
    if start != "" then start else EntryPoint(steps)
  }

  // ---- Suspending and resuming ----

  /** The workflow in which every sleep has become a step that only goes on. */
  function Awake(steps: seq<DslStep>): (r: seq<DslStep>)
    ensures |r| == |steps|
    ensures forall i | 0 <= i < |steps| :: r[i] == if steps[i].op.Sleep? then steps[i].(op := Notify) else steps[i]
    ensures SameEdges(steps, r)
  {
    seq(|steps|, i requires 0 <= i < |steps| => if steps[i].op.Sleep? then steps[i].(op := Notify) else steps[i])
  }

  /** What the caller of `run` is asked to do: as long as the result is
      `sleeping`, run again from the step it names, with its variables and
      messages; at most `resumes` times.  Also returns the iterations of all
      the runs together. */
  function Drive(
      e: Env, steps: seq<DslStep>, msgs: seq<Message>, vars: Vars, start: string, resumes: nat): (Result, nat)
  {
    DriveOn(e, steps, Execute(e, steps, msgs, vars, start), resumes)
  }

  function DriveOn(e: Env, steps: seq<DslStep>, r: Result, resumes: nat): (Result, nat)
    decreases resumes
  {
    if r.status.Sleeping? && resumes > 0 then
      var (last, n) := DriveOn(e, steps, Execute(e, steps, r.msgs, r.vars, r.next), resumes - 1);
      (last, r.iterations + n)
    else (r, r.iterations)
  }

  /** The same outcome, whatever the counters and the past sleeps. */
  ghost predicate Agree(r: Result, r': Result) {
    r.status == r'.status && r.vars == r'.vars && r.msgs == r'.msgs && r.reason == r'.reason
  }

  /** The step its own identifier designates; the others are never run. */
  predicate IsDesignated(steps: seq<DslStep>, i: nat)
    requires i < |steps|
  {
    steps[i].id != "" && Find(steps, steps[i].id) == Some(i)
  }

  ghost predicate SleepsGoOn(steps: seq<DslStep>) {
    forall i: nat | i < |steps| && IsDesignated(steps, i) && steps[i].op.Sleep? :: steps[i].next != ""
  }

  /** A handler other than sleep treats agreeing states alike. */
  lemma {:induction false} HandleAgrees(e: Env, s: DslStep, r: Result, r': Result)
    requires Agree(r, r') && !s.op.Sleep?
    ensures var (go, r1), (go', r1') := Handle(e, s, r), Handle(e, s, r');
      go == go' && Agree(r1, r1') && (go ==> r1.next == r1'.next) && (r.status.Running? ==> !r1.status.Sleeping?)
  {
    match s.op
    case LlmCall => CallAgrees(e.llm, s, r, r');
    case ToolCall => CallAgrees(e.tool, s, r, r');
    case Transform =>
    case Notify =>
    case Switch(_) =>
    case End(_, _) =>
    case SignalSuccessor(_) =>
    case SetVariable(_, _) =>
    case Unknown(_) =>
  }

  lemma {:induction false} CallAgrees(
      f: Option<(DslStep, Vars, seq<Message>) -> Reply>, s: DslStep, r: Result, r': Result)
    requires Agree(r, r')
    ensures var (go, r1), (go', r1') := Call(f, s, r), Call(f, s, r');
      go == go' && Agree(r1, r1') && (go ==> r1.next == r1'.next) && (r.status.Running? ==> !r1.status.Sleeping?)
  {}

  /** The run `seg`, entered in state `r`, sleeps where the sleepless run,
      entered in state `full`, passes through `mid`. */
  ghost predicate Suspended(seg: Result, r: Result, full: Result, mid: Result) {
    && seg.status.Sleeping? && seg.next != ""
    && mid.status.Running? && mid.vars == seg.vars && mid.msgs == seg.msgs && mid.reason == full.reason
    && seg.iterations - r.iterations == mid.iterations - full.iterations > 0
  }

  /** The run `seg`, entered in state `r`, ends like the sleepless run `end`,
      entered in state `full`. */
  ghost predicate Completed(seg: Result, r: Result, full: Result, end: Result) {
    !seg.status.Sleeping? && Agree(seg, end) && seg.iterations - r.iterations == end.iterations - full.iterations
  }

  ghost predicate Unlimited(e: Env, r: Result) {
    r.status.Running? ==> r.iterations < e.limit
  }

  /** The step `cur` of both workflows, when it is not a sleep: the two runs
      take it alike, and what remains is to run on from the new states. */
  lemma {:induction false} TwinStep(e: Env, steps: seq<DslStep>, cur: string, r: Result, full: Result, i: nat)
      returns (go: bool, r1: Result, full1: Result)
    requires Agree(r, full) && r.status.Running? && r.iterations <= full.iterations < e.limit
    requires cur != "" && Find(steps, cur) == Some(i) && !steps[i].op.Sleep?
    ensures Agree(r1, full1) && !r1.status.Sleeping?
    ensures go ==> r1.status.Running? && r1.next == full1.next && full1.reason == full.reason
    ensures r1.iterations == r.iterations + 1 && full1.iterations == full.iterations + 1
    ensures RunFrom(e, steps, cur, r) == if go then RunFrom(e, steps, r1.next, r1) else r1
    ensures RunFrom(e, Awake(steps), cur, full) == if go then RunFrom(e, Awake(steps), full1.next, full1) else full1
  {
    SameFind(steps, Awake(steps), cur);
    var (go0, r0) := Handle(e, steps[i], Begin(r));
    go, r1, full1 := go0 && r0.status.Running?, r0, Handle(e, steps[i], Begin(full)).1;
    HandleKeepsCount(e, steps[i], Begin(r));
    HandleKeepsCount(e, steps[i], Begin(full));
    HandleAgrees(e, steps[i], Begin(r), Begin(full));
  }

  /** The step `cur` when it is a sleep with a successor. */
  lemma {:induction false} SleepStep(e: Env, steps: seq<DslStep>, cur: string, r: Result, full: Result, i: nat)
    requires Agree(r, full) && r.status.Running? && r.iterations <= full.iterations < e.limit
    requires cur != "" && Find(steps, cur) == Some(i) && steps[i].op.Sleep? && steps[i].next != ""
    ensures var seg, mid := RunFrom(e, steps, cur, r), Begin(full).(next := steps[i].next);
      Suspended(seg, r, full, mid) && RunFrom(e, Awake(steps), cur, full) == RunFrom(e, Awake(steps), seg.next, mid)
  {
    SameFind(steps, Awake(steps), cur);
    assert Handle(e, Awake(steps)[i], Begin(full)) == (true, Begin(full).(next := steps[i].next));
  }

  lemma {:induction false} SegmentMatches(e: Env, steps: seq<DslStep>, cur: string, r: Result, full: Result)
      returns (mid: Result)
    requires SleepsGoOn(steps) && Agree(r, full) && r.status.Running? && r.iterations <= full.iterations
    requires Unlimited(e, RunFrom(e, Awake(steps), cur, full))
    ensures var seg := RunFrom(e, steps, cur, r);
      if seg.status.Sleeping? then
        && Suspended(seg, r, full, mid)
        && RunFrom(e, Awake(steps), cur, full) == RunFrom(e, Awake(steps), seg.next, mid)
      else Completed(seg, r, full, RunFrom(e, Awake(steps), cur, full))
    decreases Left(e, full)
  {
    mid := full;
    if cur != "" && full.iterations < e.limit {
      SameFind(steps, Awake(steps), cur);
      match Find(steps, cur)
      case None =>
      case Some(i) =>
        if steps[i].op.Sleep? {
          assert IsDesignated(steps, i);
          SleepStep(e, steps, cur, r, full, i);
          mid := Begin(full).(next := steps[i].next);
        } else {
          var go, r1, full1 := TwinStep(e, steps, cur, r, full, i);
          if go {
            mid := SegmentMatches(e, steps, r1.next, r1, full1);
          }
        }
    }
  }

  /** `SegmentMatches` for a run of `run`. */
  lemma {:induction false} ExecutedSegment(e: Env, steps: seq<DslStep>, start: string, full: Result)
      returns (mid: Result)
    requires SleepsGoOn(steps) && FirstStep(steps, start) != "" && full.status.Running? && full.reason.NoReason?
    requires Unlimited(e, RunFrom(e, Awake(steps), FirstStep(steps, start), full))
    ensures var seg := Execute(e, steps, full.msgs, full.vars, start);
      var r, end := Start(full.msgs, full.vars), RunFrom(e, Awake(steps), FirstStep(steps, start), full);
      if seg.status.Sleeping? then Suspended(seg, r, full, mid) && end == RunFrom(e, Awake(steps), seg.next, mid)
      else Completed(seg, r, full, end)
  {
    var cur, r := FirstStep(steps, start), Start(full.msgs, full.vars);
    mid := SegmentMatches(e, steps, cur, r, full);
    assert Finish(e, RunFrom(e, steps, cur, r)) == RunFrom(e, steps, cur, r);
  }

  /** The run `seg`, entered in state `r`, is a first part of the sleepless run
      `end`, entered in state `full`, up to `mid`, or all of it. */
  ghost predicate Matches(
      e: Env, steps: seq<DslStep>, seg: Result, r: Result, full: Result, mid: Result, end: Result)
  {
    if seg.status.Sleeping? then Suspended(seg, r, full, mid) && end == RunFrom(e, Awake(steps), seg.next, mid)
    else Completed(seg, r, full, end)
  }

  lemma {:induction false} NextSegment(
      e: Env, steps: seq<DslStep>, seg: Result, r: Result, full: Result, mid: Result, end: Result)
      returns (seg': Result, r': Result, mid': Result)
    requires SleepsGoOn(steps) && full.reason.NoReason? && Unlimited(e, end)
    requires seg.status.Sleeping? && Matches(e, steps, seg, r, full, mid, end)
    ensures seg' == Execute(e, steps, seg.msgs, seg.vars, seg.next)
    ensures r'.iterations == 0 && Matches(e, steps, seg', r', mid, mid', end)
    ensures mid.reason.NoReason? && mid.iterations <= end.iterations
    ensures seg.iterations - r.iterations == mid.iterations - full.iterations > 0
  {
    seg', r' := Execute(e, steps, seg.msgs, seg.vars, seg.next), Start(mid.msgs, mid.vars);
    assert FirstStep(steps, seg.next) == seg.next;
    mid' := ExecutedSegment(e, steps, seg.next, mid);
  }

  /** The run `seg` and what is resumed after it. */
  lemma {:induction false} ResumeOn(
      e: Env, steps: seq<DslStep>, seg: Result, r: Result, full: Result, mid: Result, end: Result, resumes: nat)
    requires SleepsGoOn(steps) && full.reason.NoReason? && Unlimited(e, end)
    requires r.iterations == 0 && Matches(e, steps, seg, r, full, mid, end)
    requires end.iterations - full.iterations <= resumes
    ensures var (last, n) := DriveOn(e, steps, seg, resumes);
      Agree(last, end) && n == end.iterations - full.iterations
    decreases resumes
  {
    if seg.status.Sleeping? {
      var seg', r', mid' := NextSegment(e, steps, seg, r, full, mid, end);
      ResumeOn(e, steps, seg', r', mid, mid', end, resumes - 1);
      var (last, n) := DriveOn(e, steps, seg', resumes - 1);
      assert DriveOn(e, steps, seg, resumes) == (last, seg.iterations + n);
    } else {
      assert DriveOn(e, steps, seg, resumes) == (seg, seg.iterations);
    }
  }

  /** Sleeping is transparent: if every sleep has a successor and the sleepless
      workflow does not reach its iteration limit, then driving the real one,
      through any number of sleeps, gives the same status, variables, messages
      and end reason, and all the runs together take as many iterations. */
  lemma {:induction false} SleepIsTransparent(
      e: Env, steps: seq<DslStep>, msgs: seq<Message>, vars: Vars, start: string, resumes: nat)
    requires SleepsGoOn(steps)
    requires var plain := Execute(e, Awake(steps), msgs, vars, start);
      !plain.reason.LimitReached? && plain.iterations <= resumes
    ensures var plain := Execute(e, Awake(steps), msgs, vars, start);
      var (last, n) := Drive(e, steps, msgs, vars, start, resumes);
      Agree(last, plain) && n == plain.iterations
  {
    SameEntryPoint(steps, Awake(steps));
    var cur := FirstStep(steps, start);
    if cur == "" {
      assert Execute(e, steps, msgs, vars, start) == Fail(Start(msgs, vars), NoEntryPoint);
    } else {
      var end := RunFrom(e, Awake(steps), cur, Start(msgs, vars));
      assert Execute(e, Awake(steps), msgs, vars, start) == Finish(e, end);
      var r := Start(msgs, vars);
      var mid := ExecutedSegment(e, steps, start, r);
      ResumeOn(e, steps, Execute(e, steps, msgs, vars, start), r, r, mid, end, resumes);
    }
  }

  // ---- What the protocol needs ----

  /** Driving the workflow from one start gives what the sleepless one gives,
      unless that runs into its limit. */
  ghost predicate IsTransparent(
      e: Env, steps: seq<DslStep>, msgs: seq<Message>, vars: Vars, start: string, resumes: nat)
  {
    var plain := Execute(e, Awake(steps), msgs, vars, start);
    !plain.reason.LimitReached? && plain.iterations <= resumes ==>
      var (last, n) := Drive(e, steps, msgs, vars, start, resumes);
      Agree(last, plain) && n == plain.iterations
  }

  lemma {:induction false} RunAtSleep(e: Env, steps: seq<DslStep>, i: nat, r: Result)
    requires i < |steps| && IsDesignated(steps, i) && steps[i].op.Sleep? && r.status.Running? && r.iterations < e.limit
    ensures var end := RunFrom(e, steps, steps[i].id, r);
      && end.status.Sleeping? && end.next == steps[i].next && end.iterations == r.iterations + 1
      && end.vars == r.vars && end.msgs == r.msgs
  {}

  lemma {:induction false} AwakeAtLastSleep(e: Env, steps: seq<DslStep>, i: nat, r: Result)
    requires i < |steps| && IsDesignated(steps, i) && steps[i].op.Sleep? && steps[i].next == ""
    requires r.status.Running? && r.iterations < e.limit
    ensures RunFrom(e, Awake(steps), steps[i].id, r) == Begin(r)
  {
    SameFind(steps, Awake(steps), steps[i].id);
    assert Handle(e, Awake(steps)[i], Begin(r)) == (true, Begin(r));
    assert RunFrom(e, Awake(steps), "", Begin(r)) == Begin(r);
  }

  /** A workflow run from its entry point takes a step or fails. */
  lemma {:induction false} FreshRunCounts(e: Env, steps: seq<DslStep>, msgs: seq<Message>, vars: Vars)
    requires e.limit > 0
    ensures var r := Execute(e, steps, msgs, vars, ""); r.status.Running? ==> r.iterations >= 1
  {
    var cur, r := EntryPoint(steps), Start(msgs, vars);
    var found := Find(steps, cur);
    if cur != "" && found.Some? {
      HandleKeepsCount(e, steps[found.value], Begin(r));
    }
  }

  lemma {:induction false} ExecuteAtLastSleep(e: Env, steps: seq<DslStep>, i: nat, msgs: seq<Message>, vars: Vars)
    requires e.limit > 1 && i < |steps| && IsDesignated(steps, i) && steps[i].op.Sleep? && steps[i].next == ""
    ensures Execute(e, Awake(steps), msgs, vars, steps[i].id) == Begin(Start(msgs, vars))
    ensures var r := Execute(e, steps, msgs, vars, steps[i].id);
      r.status.Sleeping? && r.next == "" && r.iterations == 1 && r.vars == vars && r.msgs == msgs
  {
    AwakeAtLastSleep(e, steps, i, Start(msgs, vars));
    RunAtSleep(e, steps, i, Start(msgs, vars));
  }

  lemma {:induction false} DriveOnce(e: Env, steps: seq<DslStep>, r: Result)
    requires r.status.Sleeping?
    ensures var again := Execute(e, steps, r.msgs, r.vars, r.next);
      DriveOn(e, steps, r, 1) == (again, r.iterations + again.iterations)
  {
    var again := Execute(e, steps, r.msgs, r.vars, r.next);
    assert DriveOn(e, steps, again, 0) == (again, again.iterations);
  }

  /** A sleep without a successor breaks the protocol: started there, the
      sleepless workflow is over after one step, and the real one is resumed at
      the entry point, or fails for want of one. */
  lemma {:induction false} SuccessorIsNeeded(e: Env, steps: seq<DslStep>, i: nat, msgs: seq<Message>, vars: Vars)
    requires e.limit > 1 && i < |steps| && IsDesignated(steps, i) && steps[i].op.Sleep? && steps[i].next == ""
    ensures var plain := Execute(e, Awake(steps), msgs, vars, steps[i].id);
      plain.status.Running? && plain.iterations == 1 && !plain.reason.LimitReached?
    ensures !IsTransparent(e, steps, msgs, vars, steps[i].id, 1)
  {
    ExecuteAtLastSleep(e, steps, i, msgs, vars);
    DriveOnce(e, steps, Execute(e, steps, msgs, vars, steps[i].id));
    FreshRunCounts(e, steps, msgs, vars);
  }

  lemma {:induction false} OneStepRun(e: Env, steps: seq<DslStep>, cur: string, r: Result)
    requires e.limit <= 1 && cur != "" && r.status.Running? && r.iterations == 0
    ensures var end, plain := RunFrom(e, steps, cur, r), RunFrom(e, Awake(steps), cur, r);
      if plain.status.Running? then plain.iterations >= e.limit else end == plain && !end.status.Sleeping?
  {
    SameFind(steps, Awake(steps), cur);
    var found := Find(steps, cur);
    if e.limit == 1 && found.Some? {
      var s := Awake(steps)[found.value];
      HandleKeepsCount(e, s, Begin(r));
      HandleAgrees(e, s, Begin(r), Begin(r));
      var (go, r1) := Handle(e, s, Begin(r));
      if go {
        assert RunFrom(e, Awake(steps), cur, r) == r1;
      }
    }
  }

  /** With a limit of one step no run gets past a sleep without reaching it. */
  lemma {:induction false} OneStepIsTransparent(
      e: Env, steps: seq<DslStep>, msgs: seq<Message>, vars: Vars, start: string, resumes: nat)
    requires e.limit <= 1
    ensures IsTransparent(e, steps, msgs, vars, start, resumes)
  {
    SameEntryPoint(steps, Awake(steps));
    var cur := FirstStep(steps, start);
    var r, plain := Execute(e, steps, msgs, vars, start), Execute(e, Awake(steps), msgs, vars, start);
    if cur != "" {
      OneStepRun(e, steps, cur, Start(msgs, vars));
    }
    assert plain.reason.LimitReached? || (r == plain && !r.status.Sleeping?);
  }

  /** The documented protocol is sound for a workflow exactly when every sleep
      that can be reached by its identifier has a successor, or no run may take
      a second step. */
  lemma {:induction false} ProtocolIsSound(e: Env, steps: seq<DslStep>)
    ensures (forall msgs, vars, start, resumes :: IsTransparent(e, steps, msgs, vars, start, resumes))
            <==> e.limit <= 1 || SleepsGoOn(steps)
  {
    if e.limit <= 1 || SleepsGoOn(steps) {
      forall msgs, vars, start, resumes
        ensures IsTransparent(e, steps, msgs, vars, start, resumes)
      {
        if e.limit <= 1 {
          OneStepIsTransparent(e, steps, msgs, vars, start, resumes);
        } else {
          var plain := Execute(e, Awake(steps), msgs, vars, start);
          if !plain.reason.LimitReached? && plain.iterations <= resumes {
            SleepIsTransparent(e, steps, msgs, vars, start, resumes);
          }
        }
      }
    } else {
      var i: nat :| i < |steps| && IsDesignated(steps, i) && steps[i].op.Sleep? && steps[i].next == "";
      SuccessorIsNeeded(e, steps, i, [], map[]);
    }
  }

  // ---- Where a run is suspended ----

  lemma {:induction false} SleepingRun(e: Env, steps: seq<DslStep>, cur: string, r: Result) returns (i: nat)
    requires r.status.Running?
    ensures var end := RunFrom(e, steps, cur, r);
      end.status.Sleeping? ==>
        && i < |steps| && IsDesignated(steps, i) && steps[i].op.Sleep?
        && end.next == steps[i].next && end.sleepSeconds == Some(steps[i].op.seconds)
    decreases Left(e, r)
  {
    i := 0;
    var found := Find(steps, cur);
    if cur != "" && r.iterations < e.limit && found.Some? {
      i := found.value;
      HandleKeepsCount(e, steps[i], Begin(r));
      if !steps[i].op.Sleep? {
        HandleAgrees(e, steps[i], Begin(r), Begin(r));
        var (go, r1) := Handle(e, steps[i], Begin(r));
        if go {
          i := SleepingRun(e, steps, r1.next, r1);
        }
      }
    }
  }

  /** A run that ends sleeping was suspended by a sleep of the workflow, whose
      duration it reports; resumed as told, it goes on at the successor of that
      sleep exactly when there is one, or nothing to start over from. */
  lemma {:induction false} ResumesAfterSleep(e: Env, steps: seq<DslStep>, msgs: seq<Message>, vars: Vars, start: string)
      returns (i: nat)
    requires Execute(e, steps, msgs, vars, start).status.Sleeping?
    ensures var r := Execute(e, steps, msgs, vars, start);
      && i < |steps| && IsDesignated(steps, i) && steps[i].op.Sleep? && r.sleepSeconds == Some(steps[i].op.seconds)
      && (FirstStep(steps, r.next) == steps[i].next <==> steps[i].next != "" || EntryPoint(steps) == "")
  {
    i := SleepingRun(e, steps, FirstStep(steps, start), Start(msgs, vars));
  }

  /** A workflow that begins with such a sleep sleeps for ever, however often it
      is resumed. */
  lemma {:induction false} SleepWithoutSuccessor(
      e: Env, steps: seq<DslStep>, i: nat, msgs: seq<Message>, vars: Vars, resumes: nat)
    requires e.limit > 0 && i < |steps| && IsDesignated(steps, i) && EntryPoint(steps) == steps[i].id
    requires steps[i].op.Sleep? && steps[i].next == ""
    ensures Drive(e, steps, msgs, vars, "", resumes).0.status.Sleeping?
    decreases resumes
  {
    var r := Execute(e, steps, msgs, vars, "");
    RunAtSleep(e, steps, i, Start(msgs, vars));
    assert r.status.Sleeping? && r.next == "";
    if resumes > 0 {
      SleepWithoutSuccessor(e, steps, i, r.msgs, r.vars, resumes - 1);
      assert Drive(e, steps, msgs, vars, "", resumes).0 == Drive(e, steps, r.msgs, r.vars, "", resumes - 1).0;
    }
  }
}
