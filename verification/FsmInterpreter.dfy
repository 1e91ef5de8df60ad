/** The FSM interpreter itself: handlers that update one `FsmResult` in place,
    each proved to compute what the functions of module `Fsm` say. */
module FsmInterpreter {
  import opened Wrappers
  import opened Workflow
  import opened Fsm
  import opened FsmProofs

  class FsmResult {
    var status: Status
    var variables: Vars
    var messages: seq<Message>
    var nextStepId: string
    var sleepSeconds: Option<int>
    var endReason: Reason
    var iterations: nat
    var paused: bool
    var loopCtl: Ctl
    ghost var trace: seq<Dispatch>

    ghost function State(): Run
      reads this
    {
      Run(status, variables, messages, nextStepId, sleepSeconds, endReason, iterations, paused, loopCtl, trace)
    }

    constructor (msgs: seq<Message>, vars: Vars)
      ensures State() == Start(msgs, vars)
    {
      status, variables, messages, nextStepId := Running, vars, msgs, "";
      sleepSeconds, endReason, iterations, paused, loopCtl := None, NoReason, 0, false, Clear;
      trace := [];
    }

    method Fail(reason: Reason)
      modifies this
      ensures State() == Fsm.Fail(old(State()), reason)
    {
      status, endReason := Failed, reason;
    }
  }

  class Interpreter {
    /** The collaborators of the current run and its iteration limit. */
    var env: Env

    constructor (env: Env)
      ensures this.env == env
    {
      this.env := env;
    }

    // ---- Handlers without a body ----

    method StepExternal(s: FsmStep, result: FsmResult) returns (go: bool)
      requires s.op.External?
      modifies result
      ensures (go, result.State()) == ExternalStep(env, s, old(result.State()))
    {
      var r := env.reply(result.iterations, s, result.variables, result.messages);
      result.variables, result.messages, result.paused := r.vars, r.msgs, r.paused;
      match r.answer
      case Done =>
        result.nextStepId := s.next;
        go := true;
      case Killed =>
        if s.op.service.LlmCall? {
          result.status, result.endReason := Aborted, KilledBySignal;
          go := false;
        } else {
          go := OnFailure(s, result, "AgentAbort", true);
        }
      case Refused(error) =>
        go := OnFailure(s, result, error, false);
      case Raised(error) =>
        go := OnFailure(s, result, error, true);
      case Unusable(error) =>
        result.Fail(StepError(error));
        go := false;
    }

    method OnFailure(s: FsmStep, result: FsmResult, error: string, raised: bool) returns (go: bool)
      requires s.op.External?
      modifies result
      ensures (go, result.State()) == ExternalFailure(s, old(result.State()), error, raised)
    {
      var onError := s.op.onError;
      if s.op.service.LlmCall? || (s.op.service.AgentCall? && onError != "") {
        go := BranchOnError(onError, result, error);
      } else if s.op.service.SkillCall? && !raised {
        if onError != "" {
          result.nextStepId := onError;
          go := true;
        } else {
          result.Fail(StepError(error));
          result.nextStepId := s.next;
          go := false;
        }
      } else {
        result.Fail(StepError(error));
        go := false;
      }
    }

    method BranchOnError(onError: string, result: FsmResult, error: string) returns (go: bool)
      modifies result
      ensures (go, result.State()) == Fsm.BranchOnError(onError, old(result.State()), error)
    {
      result.variables := result.variables["_last_error" := Str(error)];
      result.variables := result.variables["_last_call_ok" := Bool(false)];
      if onError != "" {
        result.nextStepId := onError;
        return true;
      }
      result.Fail(StepError(error));
      return false;
    }

    method StepSwitch(s: FsmStep, result: FsmResult) returns (go: bool)
      requires s.op.Switch?
      modifies result
      ensures (go, result.State()) == LeafStep(env, s, old(result.State()))
    {
      var value := Show(env.text, Lookup(result.variables, s.op.variable));
      result.nextStepId := ChooseTarget(env.text, s.branches, value, s.default_);
      return true;
    }

    method StepLeaf(s: FsmStep, result: FsmResult) returns (go: bool)
      requires KindOf(s.op).Leaf?
      modifies result
      ensures (go, result.State()) == LeafStep(env, s, old(result.State()))
    {
      match s.op
      case External(_, _) =>
        go := StepExternal(s, result);
      case Switch(_) =>
        go := StepSwitch(s, result);
      case Sleep(seconds) =>
        result.sleepSeconds, result.status, result.nextStepId := Some(seconds), Sleeping, s.next;
        go := false;
      case End(status) =>
        result.status := if status == "SUCCESS" then Success else Failed;
        result.endReason := EndStatus(status);
        go := false;
      case SetVariable(name, value) =>
        result.variables := result.variables[name := Str(env.text.resolve(value, result.variables))];
        result.nextStepId := s.next;
        go := true;
      case Unknown(stepType) =>
        result.Fail(UnknownType(stepType));
        go := false;
    }

    // ---- Handlers with a body ----

    // A method may be called whenever what it computes is not a hang.

    method Dispatch(s: FsmStep, result: FsmResult) returns (go: bool)
      requires IsLive(result.State()) && !Handle(env, s, result.State()).1.status.Diverged?
      modifies result
      ensures (go, result.State()) == Handle(env, s, old(result.State()))
      decreases Left(env, result.State()), 7
    {
      if !s.op.Unknown? {
        result.trace := result.trace + [Fsm.Dispatch(s.id, KindOf(s.op))];
      }
      match KindOf(s.op)
      case Leaf =>
        go := StepLeaf(s, result);
      case Control =>
        result.loopCtl := if s.op.Break? then BreakFlag else ContinueFlag;
        go := false;
      case Composite =>
        go := StepComposite(s, result);
    }

    method StepComposite(s: FsmStep, result: FsmResult) returns (go: bool)
      requires KindOf(s.op).Composite?
      requires IsLive(result.State()) && !CompositeStep(env, s, result.State()).1.status.Diverged?
      modifies result
      ensures (go, result.State()) == CompositeStep(env, s, old(result.State()))
      decreases Left(env, result.State()), 6
    {
      match s.op
      case While(_, _) =>
        go := StepWhile(s, result);
      case For(_, _, _) =>
        go := StepFor(s, result);
      case If(condition, _) =>
        if EvalCondition(env.text, condition, result.variables) {
          go := StepBody(s, result);
        } else {
          result.nextStepId := s.next;
          go := true;
        }
      case Group(_) =>
        go := StepBody(s, result);
    }

    method StepBody(s: FsmStep, result: FsmResult) returns (go: bool)
      requires s.op.If? || s.op.Group?
      requires IsLive(result.State()) && !BodyStep(env, s, result.State()).1.status.Diverged?
      modifies result
      ensures (go, result.State()) == BodyStep(env, s, old(result.State()))
      decreases Left(env, result.State()), 5
    {
      if s.op.body != [] {
        var code := RunBody(s.op.body, result);
        if code.Stop? {
          return false;
        }
      } else {
        EmptyBody(env, result.State());
      }
      result.nextStepId := s.next;
      return true;
    }

    method StepWhile(s: FsmStep, result: FsmResult) returns (go: bool)
      requires s.op.While?
      requires IsLive(result.State()) && !WhileStep(env, s, result.State()).1.status.Diverged?
      modifies result
      ensures (go, result.State()) == WhileStep(env, s, old(result.State()))
      decreases Left(env, result.State()), 5
    {
      while EvalCondition(env.text, s.op.condition, result.variables)
        invariant WhileStep(env, s, result.State()) == WhileStep(env, s, old(result.State()))
        invariant old(result.iterations) <= result.iterations && IsLive(result.State())
        decreases Left(env, result.State())
      {
        if result.iterations >= env.limit {
          result.Fail(LimitReached(env.limit));
          return false;
        }
        ghost var w := PassHangs(env, s.op.body, result.State());
        var code := RunBody(s.op.body, result);
        if code.Stop? {
          return false;
        }
        if code.BreakCode? {
          break;
        }
      }
      result.nextStepId := s.next;
      return true;
    }

    method StepFor(s: FsmStep, result: FsmResult) returns (go: bool)
      requires s.op.For? && IsLive(result.State())
      requires !ForStep(env, s, LoopValues(s.op.source, result.variables), result.State()).1.status.Diverged?
      modifies result
      ensures (go, result.State()) ==
        ForStep(env, s, LoopValues(s.op.source, old(result.variables)), old(result.State()))
      decreases Left(env, result.State()), 5
    {
      var values := LoopValues(s.op.source, result.variables);
      for i := 0 to |values|
        invariant ForPasses(env, s, values[i..], result.State()) == ForPasses(env, s, values, old(result.State()))
        invariant old(result.iterations) <= result.iterations && IsLive(result.State())
      {
        if result.iterations >= env.limit {
          result.Fail(LimitReached(env.limit));
          return false;
        }
        assert values[i..][1..] == values[i + 1..];
        result.variables := result.variables[s.op.variable := values[i]];
        ghost var w := PassHangs(env, s.op.body, result.State());
        var code := RunBody(s.op.body, result);
        if code.Stop? {
          return false;
        }
        if code.BreakCode? {
          break;
        }
      }
      result.nextStepId := s.next;
      return true;
    }

    /** Counts the iteration, then dispatches. */
    method Enter(s: FsmStep, result: FsmResult) returns (go: bool)
      requires result.iterations < env.limit
      requires IsLive(result.State()) && !Handle(env, s, Begin(result.State())).1.status.Diverged?
      modifies result
      ensures (go, result.State()) == Handle(env, s, Begin(old(result.State())))
      decreases Left(env, result.State()), 0
    {
      result.iterations, result.nextStepId := result.iterations + 1, "";
      go := Dispatch(s, result);
    }

    method RunBody(body: seq<FsmStep>, result: FsmResult) returns (code: Code)
      requires IsLive(result.State()) && !Fsm.RunBody(env, body, result.State()).1.status.Diverged?
      modifies result
      ensures (code, result.State()) == Fsm.RunBody(env, body, old(result.State()))
      decreases Left(env, result.State()), 4
    {
      var entry := FindEntryPoint(body);
      code := BodyLoop(body, entry, result);
    }

    /** Dispatches a step of a body and consumes the flag it may raise. */
    method EnterBody(s: FsmStep, result: FsmResult) returns (ended: bool, code: Code)
      requires result.iterations < env.limit
      requires IsLive(result.State()) && !Handle(env, s, Begin(result.State())).1.status.Diverged?
      modifies result
      ensures var (go, st1) := Handle(env, s, Begin(old(result.State())));
        && result.State() == st1.(ctl := Clear)
        && ended == (!st1.ctl.Clear? || !st1.status.Running? || !go)
        && code == match st1.ctl case BreakFlag => BreakCode case ContinueFlag => ContinueCode case Clear => Stop
      decreases Left(env, result.State()), 1
    {
      var go := Enter(s, result);
      ended := !result.loopCtl.Clear? || !result.status.Running? || !go;
      code := match result.loopCtl case BreakFlag => BreakCode case ContinueFlag => ContinueCode case Clear => Stop;
      result.loopCtl := Clear;
    }

    /** The step a pass is at; `code` is that of the pass when it ends there. */
    method TakeBodyStep(body: seq<FsmStep>, byId: map<string, nat>, cur: string, result: FsmResult)
        returns (ended: bool, code: Code)
      requires IsDictionary(byId, body) && cur != ""
      requires IsLive(result.State()) && !BodyFrom(env, body, cur, result.State()).1.status.Diverged?
      modifies result
      ensures var whole := BodyFrom(env, body, cur, old(result.State()));
        if ended then (code, result.State()) == whole
        else BodyFrom(env, body, result.nextStepId, result.State()) == whole && IsLive(result.State())
      ensures !ended ==> old(result.iterations) < result.iterations && old(result.iterations) < env.limit
      decreases Left(env, result.State()), 2
    {
      ended, code := true, Stop;
      if result.iterations >= env.limit {
        result.Fail(LimitReached(env.limit));
        return;
      }
      if cur !in byId {
        result.Fail(StepMissing(cur, true));
        return;
      }
      StepIsLive(env, body[byId[cur]], result.State());
      ended, code := EnterBody(body[byId[cur]], result);
    }

    /** The loop of `_run_body`. */
    method BodyLoop(body: seq<FsmStep>, entry: string, result: FsmResult) returns (code: Code)
      requires IsLive(result.State()) && !BodyFrom(env, body, entry, result.State()).1.status.Diverged?
      modifies result
      ensures (code, result.State()) == BodyFrom(env, body, entry, old(result.State()))
      decreases Left(env, result.State()), 3
    {
      var byId := StepsById(body);
      var cur := entry;
      while cur != ""
        invariant BodyFrom(env, body, cur, result.State()) == BodyFrom(env, body, entry, old(result.State()))
        invariant old(result.iterations) <= result.iterations && IsLive(result.State())
        decreases Left(env, result.State())
      {
        var ended;
        ended, code := TakeBodyStep(body, byId, cur, result);
        if ended {
          return;
        }
        cur := result.nextStepId;
      }
      return Normal;
    }

    // ---- The run ----

    method CheckSignals(result: FsmResult, k: nat)
      requires env.signals.Some?
      modifies result
      ensures result.State() == ApplyCheck(old(result.State()), CheckAt(env, k))
    {
      var c := CheckAt(env, k);
      result.variables := result.variables + c.updates;
      result.paused := c.pause.GetOr(result.paused);
      if c.kill {
        result.status, result.endReason := Aborted, KilledBySignal;
      }
    }

    /** The waiting loop of a pause; returns the number of the next check. */
    method AwaitResume(result: FsmResult, first: nat) returns (k: nat)
      requires env.signals.Some?
      modifies result
      ensures (result.State(), k) == Wait(env, old(result.State()), first)
    {
      k := first;
      while result.paused && result.status.Running?
        invariant Wait(env, result.State(), k) == Wait(env, old(result.State()), first)
        decreases SignalsLeft(env, k), result.paused
      {
        CheckSignals(result, k);
        k := k + 1;
      }
    }

    /** The check before a step and the pause it may begin; returns the number of
        the next check. */
    method HandleSignals(result: FsmResult, first: nat) returns (k: nat, paused: bool)
      requires env.signals.Some? && IsLive(result.State())
      modifies result
      ensures var st1 := ApplyCheck(old(result.State()), CheckAt(env, first));
        && paused == st1.paused
        && (result.State(), k) == if paused then Wait(env, st1, first + 1) else (st1, first + 1)
      ensures paused ==> SignalsLeft(env, k) < SignalsLeft(env, first)
      ensures result.iterations == old(result.iterations) && IsLive(result.State())
    {
      CheckSignals(result, first);
      k, paused := first + 1, result.paused;
      if paused {
        WaitReturns(env, result.State(), k);
        k := AwaitResume(result, k);
      }
    }

    /** The step the main loop is at, after the `k` checks made so far; `ended`
        says that the run is over. */
    method TakeStep(steps: seq<FsmStep>, byId: map<string, nat>, current: string, result: FsmResult, ghost k: nat)
        returns (ended: bool)
      requires IsDictionary(byId, steps) && current != "" && result.iterations < env.limit
      requires IsLive(result.State()) && !DispatchFrom(env, steps, current, result.State(), k).status.Diverged?
      modifies result
      ensures var whole := DispatchFrom(env, steps, current, old(result.State()), k);
        if ended then result.State() == whole
        else RunFrom(env, steps, result.nextStepId, result.State(), k) == whole && IsLive(result.State())
      ensures !ended ==> old(result.iterations) < result.iterations
    {
      if current !in byId {
        result.Fail(StepMissing(current, false));
        return true;
      }
      StepIsLive(env, steps[byId[current]], result.State());
      var go := Enter(steps[byId[current]], result);
      return !result.status.Running? || !go;
    }

    /** One turn of the main loop: the check, and the step unless a pause sends the
        loop round again.  `ended` says that the run is over. */
    method Turn(steps: seq<FsmStep>, byId: map<string, nat>, current: string, result: FsmResult, first: nat)
        returns (ended: bool, next: string, k: nat)
      requires IsDictionary(byId, steps) && current != "" && result.iterations < env.limit
      requires IsLive(result.State()) && !RunFrom(env, steps, current, result.State(), first).status.Diverged?
      modifies result
      ensures var whole := RunFrom(env, steps, current, old(result.State()), first);
        if ended then result.State() == whole
        else RunFrom(env, steps, next, result.State(), k) == whole && IsLive(result.State())
      ensures !ended ==>
        || old(result.iterations) < result.iterations
        || (old(result.iterations) == result.iterations && SignalsLeft(env, k) < SignalsLeft(env, first))
    {
      k := first;
      if env.signals.Some? {
        var paused;
        k, paused := HandleSignals(result, k);
        if paused {
          return !result.status.Running?, current, k;
        }
      }
      ended := TakeStep(steps, byId, current, result, k);
      next := result.nextStepId;
    }

    /** The main loop of `run`; `k` counts the signal checks. */
    method MainLoop(steps: seq<FsmStep>, start: string, result: FsmResult)
      requires IsLive(result.State()) && !RunFrom(env, steps, start, result.State(), 0).status.Diverged?
      modifies result
      ensures result.State() == RunFrom(env, steps, start, old(result.State()), 0)
    {
      var byId := StepsById(steps);
      var current, k, ended := start, 0, false;
      while !ended && current != "" && result.iterations < env.limit
        invariant RunFrom(env, steps, start, old(result.State()), 0)
          == if ended then result.State() else RunFrom(env, steps, current, result.State(), k)
        invariant ended || IsLive(result.State())
        decreases !ended, Left(env, result.State()), SignalsLeft(env, k)
      {
        ended, current, k := Turn(steps, byId, current, result, k);
      }
    }

    /** `run`, of a workflow that does not hang; `RunTerminates` says which do. */
    method Run(steps: seq<FsmStep>, msgs: seq<Message>, vars: Vars, start: string) returns (result: FsmResult)
      requires !Execute(env, steps, msgs, vars, start).status.Diverged?
      ensures fresh(result)
      ensures result.State() == Execute(env, steps, msgs, vars, start)
    {
      result := new FsmResult(msgs, vars);
      var current := StartingStep(steps, start);
      if current == "" {
        result.Fail(NoEntryPoint);
        return;
      }
      MainLoop(steps, current, result);
      if result.iterations >= env.limit && result.status.Running? {
        result.Fail(LimitReached(env.limit));
      }
    }
  }
}
