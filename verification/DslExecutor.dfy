/** The DSL executor itself: handlers that update one `WorkflowResult` in place,
    proved to compute what the functions of module `Dsl` say. */
module DslExecutor {
  import opened Wrappers
  import opened Workflow
  import opened Dsl

  class WorkflowResult {
    var status: Status
    var variables: Vars
    var messages: seq<Message>
    var nextStepId: string
    var sleepSeconds: Option<int>
    var successorRole: string
    var endReason: Reason
    var iterations: nat

    ghost function State(): Result
      reads this
    {
      Result(status, variables, messages, nextStepId, sleepSeconds, successorRole, endReason, iterations)
    }

    constructor (msgs: seq<Message>, vars: Vars)
      ensures State() == Start(msgs, vars)
    {
      status, variables, messages, nextStepId := Running, vars, msgs, "";
      sleepSeconds, successorRole, endReason, iterations := None, "", NoReason, 0;
    }

    method Fail(reason: Reason)
      modifies this
      ensures State() == Dsl.Fail(old(State()), reason)
    {
      status, endReason := Failed, reason;
    }
  }

  class Executor {
    const env: Env

    constructor (env: Env)
      ensures this.env == env
    {
      this.env := env;
    }

    method StepCall(f: Option<(DslStep, Vars, seq<Message>) -> Reply>, s: DslStep, result: WorkflowResult)
        returns (go: bool)
      modifies result
      ensures (go, result.State()) == Call(f, s, old(result.State()))
    {
      if f.None? {
        result.Fail(NotConfigured);
        return false;
      }
      match f.value(s, result.variables, result.messages)
      case Answered(vars, msgs) =>
        result.variables, result.messages, result.nextStepId := vars, msgs, s.next;
        return true;
      case Raised(error) =>
        result.Fail(CallError(error));
        return false;
    }

    method StepSwitch(s: DslStep, result: WorkflowResult) returns (go: bool)
      requires s.op.Switch?
      modifies result
      ensures (go, result.State()) == Handle(env, s, old(result.State()))
    {
      var value := Show(env.text, Lookup(result.variables, s.op.variable));
      result.nextStepId := ChooseTarget(env.text, s.branches, value, s.default_);
      return true;
    }

    method Dispatch(s: DslStep, result: WorkflowResult) returns (go: bool)
      modifies result
      ensures (go, result.State()) == Handle(env, s, old(result.State()))
    {
      go := true;
      match s.op
      case LlmCall =>
        go := StepCall(env.llm, s, result);
      case ToolCall =>
        go := StepCall(env.tool, s, result);
      case Transform =>
        var (vars, msgs) := env.transform(s, result.variables, result.messages);
        result.variables, result.messages, result.nextStepId := vars, msgs, s.next;
      case Notify =>
        result.nextStepId := s.next;
      case Switch(_) =>
        go := StepSwitch(s, result);
      case Sleep(seconds) =>
        result.sleepSeconds, result.status, result.nextStepId := Some(seconds), Sleeping, s.next;
        go := false;
      case End(status, successor) =>
        result.status := if status == "SUCCESS" then Success else Failed;
        result.endReason := EndStatus(status);
        if successor != "" && env.hasSignal {
          result.successorRole := successor;
        }
        go := false;
      case SignalSuccessor(successor) =>
        result.successorRole, result.nextStepId := successor, s.next;
      case SetVariable(name, value) =>
        result.variables := result.variables[name := Str(env.text.resolve(value, result.variables))];
        result.nextStepId := s.next;
      case Unknown(stepType) =>
        result.Fail(UnknownType(stepType));
        go := false;
    }

    /** Counts the iteration, then dispatches. */
    method Enter(s: DslStep, result: WorkflowResult) returns (go: bool)
      modifies result
      ensures (go, result.State()) == Handle(env, s, Begin(old(result.State())))
      ensures result.iterations == old(result.iterations) + 1
    {
      result.iterations, result.nextStepId := result.iterations + 1, "";
      HandleKeepsCount(env, s, result.State());
      go := Dispatch(s, result);
    }

    /** `run`, from `start` or, when that is "", from the entry point. */
    method Run(steps: seq<DslStep>, msgs: seq<Message>, vars: Vars, start: string) returns (result: WorkflowResult)
      ensures fresh(result)
      ensures result.State() == Execute(env, steps, msgs, vars, start)
    {
      result := new WorkflowResult(msgs, vars);
      var byId := StepsById(steps);
      var current := StartingStep(steps, start);
      if current == "" {
        result.Fail(NoEntryPoint);
        return;
      }
      ghost var whole := RunFrom(env, steps, current, result.State());
      while current != "" && result.iterations < env.limit
        invariant fresh(result)
        invariant RunFrom(env, steps, current, result.State()) == whole
        decreases Left(env, result.State())
      {
        if current !in byId {
          result.Fail(StepMissing(current));
          break;
        }
        var go := Enter(steps[byId[current]], result);
        if !result.status.Running? || !go {
          break;
        }
        current := result.nextStepId;
      }
      if result.iterations >= env.limit && result.status.Running? {
        result.Fail(LimitReached(env.limit));
      }
    }
  }
}
