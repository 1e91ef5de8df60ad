/** What holds of every run of the interpreter. */
module FsmProofs {
  import opened Wrappers
  import opened Workflow
  import opened Fsm

  // ---- Budget, loop control and the effect of a stop, at every depth ----

  /** What any part of a run does to the counters: the iterations never
      decrease nor pass the limit, and every handler invoked has cost one. */
  ghost predicate Advances(e: Env, st: Run, st': Run) {
    && st.iterations <= st'.iterations
    && (st'.iterations == st.iterations || st'.iterations <= e.limit)
    && st.trace <= st'.trace
    && |st'.trace| - |st.trace| <= st'.iterations - st.iterations
  }

  /** The handlers invoked that are neither loops, groups, `break` nor `continue`. */
  function Leaves(trace: seq<Dispatch>): nat {
    if trace == [] then 0
    else Leaves(trace[..|trace| - 1]) + if trace[|trace| - 1].kind.Leaf? then 1 else 0
  }

  /** A part of a run that was entered after the status had left `Running`
      leaves it so, and has invoked at most `budget` more leaf handlers. */
  ghost predicate StaysStopped(st: Run, st': Run, budget: nat) {
    !st.status.Running? ==> !st'.status.Running? && Leaves(st'.trace) <= Leaves(st.trace) + budget
  }

  /** The contract of a pass: it consumes every break or continue raised in it,
      and after a stop only a pass that reports it may have run a leaf. */
  ghost predicate PassOk(e: Env, st: Run, r: (Code, Run)) {
    Advances(e, st, r.1) && r.1.ctl.Clear? && StaysStopped(st, r.1, if r.0.Stop? then 1 else 0)
  }

  /** A leaf leaves the counters and the loop control alone, and never puts a
      run that has stopped back to `Running`. */
  lemma {:induction false} LeafOk(e: Env, s: FsmStep, st: Run)
    requires KindOf(s.op).Leaf?
    ensures var st' := LeafStep(e, s, st).1;
      && st'.iterations == st.iterations && st'.trace == st.trace && st'.ctl == st.ctl
      && (!st.status.Running? ==> !st'.status.Running?)
      && (st'.status.Diverged? ==> st.status.Diverged?)
  {
    if s.op.External? {
      ExternalOk(e, s, st);
    }
  }

  lemma {:induction false} ExternalOk(e: Env, s: FsmStep, st: Run)
    requires s.op.External?
    ensures var st' := ExternalStep(e, s, st).1;
      && st'.iterations == st.iterations && st'.trace == st.trace && st'.ctl == st.ctl
      && (!st.status.Running? ==> !st'.status.Running?)
      && (st'.status.Diverged? ==> st.status.Diverged?)
  {
    var r := e.reply(st.iterations, s, st.vars, st.msgs);
    var st1 := st.(vars := r.vars, msgs := r.msgs, paused := r.paused);
    match r.answer
    case Done =>
    case Killed => FailureOk(s, st1, "AgentAbort", true);
    case Refused(error) => FailureOk(s, st1, error, false);
    case Raised(error) => FailureOk(s, st1, error, true);
    case Unusable(error) =>
  }

  lemma {:induction false} FailureOk(s: FsmStep, st: Run, error: string, raised: bool)
    requires s.op.External?
    ensures var st' := ExternalFailure(s, st, error, raised).1;
      && st'.iterations == st.iterations && st'.trace == st.trace && st'.ctl == st.ctl
      && (!st.status.Running? ==> !st'.status.Running?)
      && (st'.status.Diverged? ==> st.status.Diverged?)
  {}

  /** What a handler does from its invocation on, counted from before it. */
  lemma {:induction false} InvokeOk(e: Env, s: FsmStep, st: Run, st': Run, budget: nat)
    requires st.iterations < e.limit
    requires Advances(e, Invoke(s, Begin(st)), st') && StaysStopped(Invoke(s, Begin(st)), st', budget)
    ensures Advances(e, st, st') && StaysStopped(st, st', if KindOf(s.op).Leaf? then budget + 1 else budget)
  {}

  /** The contract of a handler entered from a body: only `break` and
      `continue` raise a flag, and after a stop a composite handler that asks
      to go on has run no leaf. */
  ghost predicate HandlerOk(e: Env, s: FsmStep, st: Run, r: Outcome) {
    && Advances(e, st, r.1)
    && (r.1.ctl.BreakFlag? <==> s.op.Break?)
    && (r.1.ctl.ContinueFlag? <==> s.op.Continue?)
    && StaysStopped(st, r.1, match KindOf(s.op) case Leaf => 1 case Control => 0 case Composite => if r.0 then 0 else 1)
  }

  lemma {:induction false} HandleOk(e: Env, s: FsmStep, st: Run)
    requires st.ctl.Clear? && st.iterations < e.limit
    ensures HandlerOk(e, s, st, Handle(e, s, Begin(st)))
    decreases Left(e, Begin(st)), 5
  {
    if KindOf(s.op).Composite? {
      CompositeOk(e, s, Invoke(s, Begin(st)));
      InvokeOk(e, s, st, Handle(e, s, Begin(st)).1, if Handle(e, s, Begin(st)).0 then 0 else 1);
    } else {
      SimpleOk(e, s, st);
    }
  }

  lemma {:induction false} SimpleOk(e: Env, s: FsmStep, st: Run)
    requires st.ctl.Clear? && st.iterations < e.limit && !KindOf(s.op).Composite?
    ensures HandlerOk(e, s, st, Handle(e, s, Begin(st)))
  {
    if KindOf(s.op).Leaf? {
      LeafOk(e, s, Invoke(s, Begin(st)));
    }
    InvokeOk(e, s, st, Handle(e, s, Begin(st)).1, 0);
  }

  lemma {:induction false} CompositeOk(e: Env, s: FsmStep, st: Run)
    requires KindOf(s.op).Composite? && st.ctl.Clear?
    ensures var r := CompositeStep(e, s, st); PassOk(e, st, (if r.0 then Normal else Stop, r.1))
    decreases Left(e, st), 4
  {
    match s.op
    case While(_, _) => WhileOk(e, s, st);
    case For(_, source, _) => ForStepOk(e, s, LoopValues(source, st.vars), st);
    case If(_, _) => BodyStepOk(e, s, st);
    case Group(_) => BodyStepOk(e, s, st);
  }

  lemma {:induction false} WhileOk(e: Env, s: FsmStep, st: Run)
    requires s.op.While? && st.ctl.Clear?
    ensures var r := WhileStep(e, s, st); PassOk(e, st, (if r.0 then Normal else Stop, r.1))
    decreases Left(e, st), 3
  {
    if EvalCondition(e.text, s.op.condition, st.vars) && st.iterations < e.limit && EntryPoint(s.op.body) != "" {
      BodyOk(e, s.op.body, st);
      var (code, st1) := RunBody(e, s.op.body, st);
      if code.Normal? || code.ContinueCode? {
        WhileOk(e, s, st1);
      }
    }
  }

  lemma {:induction false} BodyStepOk(e: Env, s: FsmStep, st: Run)
    requires (s.op.If? || s.op.Group?) && st.ctl.Clear?
    ensures var r := BodyStep(e, s, st); PassOk(e, st, (if r.0 then Normal else Stop, r.1))
    decreases Left(e, st), 3
  {
    BodyOk(e, s.op.body, st);
  }

  lemma {:induction false} ForStepOk(e: Env, s: FsmStep, values: seq<Value>, st: Run)
    requires s.op.For? && st.ctl.Clear?
    ensures var r := ForStep(e, s, values, st); PassOk(e, st, (if r.0 then Normal else Stop, r.1))
    decreases Left(e, st), 3
  {
    ForOk(e, s, values, st);
  }

  lemma {:induction false} ForOk(e: Env, s: FsmStep, values: seq<Value>, st: Run)
    requires s.op.For? && st.ctl.Clear?
    ensures PassOk(e, st, ForPasses(e, s, values, st))
    decreases Left(e, st), 2, |values|
  {
    if values != [] && st.iterations < e.limit {
      var st0 := st.(vars := st.vars[s.op.variable := values[0]]);
      BodyOk(e, s.op.body, st0);
      var (code, st1) := RunBody(e, s.op.body, st0);
      if code.Normal? || code.ContinueCode? {
        ForOk(e, s, values[1..], st1);
      }
    }
  }

  lemma {:induction false} BodyOk(e: Env, body: seq<FsmStep>, st: Run)
    requires st.ctl.Clear?
    ensures PassOk(e, st, RunBody(e, body, st))
    decreases Left(e, st), 1
  {
    BodyFromOk(e, body, EntryPoint(body), st);
  }

  lemma {:induction false} BodyFromOk(e: Env, body: seq<FsmStep>, cur: string, st: Run)
    requires st.ctl.Clear?
    ensures PassOk(e, st, BodyFrom(e, body, cur, st))
    decreases Left(e, st), 0
  {
    var found := Find(body, cur);
    if cur != "" && st.iterations < e.limit && found.Some? {
      HandleOk(e, body[found.value], st);
      var (go, st1) := Handle(e, body[found.value], Begin(st));
      if st1.ctl.Clear? && st1.status.Running? && go {
        BodyFromOk(e, body, st1.next, st1);
      }
    }
  }

  // ---- Whole runs: the shared iteration budget ----

  lemma {:induction false} RunAdvances(e: Env, steps: seq<FsmStep>, cur: string, st: Run, k: nat)
    requires st.ctl.Clear?
    ensures Advances(e, st, RunFrom(e, steps, cur, st, k))
    decreases Left(e, st), SignalsLeft(e, k), 1
  {
    if cur != "" && st.iterations < e.limit {
      if e.signals.None? {
        DispatchAdvances(e, steps, cur, st, k);
      } else {
        var st1 := ApplyCheck(st, CheckAt(e, k));
        if !st1.paused {
          DispatchAdvances(e, steps, cur, st1, k + 1);
        } else {
          var (st2, k2) := Wait(e, st1, k + 1);
          if st2.status.Running? {
            RunAdvances(e, steps, cur, st2, k2);
          }
        }
      }
    }
  }

  lemma {:induction false} DispatchAdvances(e: Env, steps: seq<FsmStep>, cur: string, st: Run, k: nat)
    requires st.ctl.Clear? && cur != "" && st.iterations < e.limit
    ensures Advances(e, st, DispatchFrom(e, steps, cur, st, k))
    decreases Left(e, st), SignalsLeft(e, k), 0
  {
    var found := Find(steps, cur);
    if found.Some? {
      HandleOk(e, steps[found.value], st);
      var (go, st1) := Handle(e, steps[found.value], Begin(st));
      if st1.status.Running? && go {
        RunAdvances(e, steps, st1.next, st1, k);
      }
    }
  }

  /** Whatever the external steps and the signals do, a run invokes at most as
      many handlers, nested ones included, as it counts iterations, and counts
      no more of them than the limit allows. */
  lemma {:induction false} RunStaysInBudget(e: Env, steps: seq<FsmStep>, msgs: seq<Message>, vars: Vars, start: string)
    ensures var r := Execute(e, steps, msgs, vars, start);
      |r.trace| <= r.iterations && (r.iterations == 0 || r.iterations <= e.limit)
  {
    var cur := if start != "" then start else EntryPoint(steps);
    RunAdvances(e, steps, cur, Start(msgs, vars), 0);
  }

  // ---- Termination ----

  /** No `while` at any depth has a body without an entry point. */
  predicate Productive(s: FsmStep) {
    match s.op
    case While(_, body) => EntryPoint(body) != "" && forall b | b in body :: Productive(b)
    case For(_, _, body) => forall b | b in body :: Productive(b)
    case If(_, body) => forall b | b in body :: Productive(b)
    case Group(body) => forall b | b in body :: Productive(b)
    case _ => true
  }

  predicate AllProductive(steps: seq<FsmStep>) {
    forall s | s in steps :: Productive(s)
  }

  /** The step `w` is one of the steps, or nested in one of them. */
  predicate Occurs(w: FsmStep, steps: seq<FsmStep>) {
    exists s | s in steps :: OccursIn(w, s)
  }

  predicate OccursIn(w: FsmStep, s: FsmStep) {
    w == s ||
    match s.op
    case While(_, body) => exists b | b in body :: OccursIn(w, b)
    case For(_, _, body) => exists b | b in body :: OccursIn(w, b)
    case If(_, body) => exists b | b in body :: OccursIn(w, b)
    case Group(body) => exists b | b in body :: OccursIn(w, b)
    case _ => false
  }

  lemma {:induction false} ProductiveInside(w: FsmStep, s: FsmStep)
    requires Productive(s) && OccursIn(w, s)
    ensures Productive(w)
    decreases s
  {
    if w != s {
      match s.op
      case While(_, body) =>
        var b :| b in body && OccursIn(w, b);
        ProductiveInside(w, b);
      case For(_, _, body) =>
        var b :| b in body && OccursIn(w, b);
        ProductiveInside(w, b);
      case If(_, body) =>
        var b :| b in body && OccursIn(w, b);
        ProductiveInside(w, b);
      case Group(body) =>
        var b :| b in body && OccursIn(w, b);
        ProductiveInside(w, b);
    }
  }

  /** The run hangs in `w`: the handler invoked last is that of this `while`, its
      condition holds, its body has no entry point, and there is budget left. */
  ghost predicate HangsAt(e: Env, w: FsmStep, r: Run) {
    && w.op.While? && EntryPoint(w.op.body) == "" && EvalCondition(e.text, w.op.condition, r.vars)
    && r.iterations < e.limit && LastInvoked(r, w)
  }

  ghost predicate LastInvoked(r: Run, s: FsmStep) {
    r.trace != [] && r.trace[|r.trace| - 1] == Dispatch(s.id, KindOf(s.op))
  }

  /** A run that goes on: no flag is up and it has not hung. */
  ghost predicate IsLive(st: Run) {
    st.ctl.Clear? && !st.status.Diverged?
  }

  // If a part of a run hangs, it does so in a `while` of that part; the step
  // returned for a part that does not hang is of no interest.

  const NONE: FsmStep := Step("", "", [], "", Break)

  lemma {:induction false} HandleHangs(e: Env, s: FsmStep, st: Run) returns (w: FsmStep)
    requires IsLive(st)
    ensures var r := Handle(e, s, st).1; r.status.Diverged? ==> OccursIn(w, s) && HangsAt(e, w, r)
    decreases Left(e, st), 5
  {
    w := NONE;
    var st1 := Invoke(s, st);
    match KindOf(s.op)
    case Leaf => LeafOk(e, s, st1);
    case Control =>
    case Composite => w := CompositeHangs(e, s, st1);
  }

  lemma {:induction false} CompositeHangs(e: Env, s: FsmStep, st: Run) returns (w: FsmStep)
    requires KindOf(s.op).Composite? && IsLive(st) && LastInvoked(st, s)
    ensures var r := CompositeStep(e, s, st).1; r.status.Diverged? ==> OccursIn(w, s) && HangsAt(e, w, r)
    decreases Left(e, st), 4
  {
    match s.op
    case While(_, _) => w := WhileHangs(e, s, st);
    case For(_, source, _) => w := ForStepHangs(e, s, LoopValues(source, st.vars), st);
    case If(_, _) => w := BodyStepHangs(e, s, st);
    case Group(_) => w := BodyStepHangs(e, s, st);
  }

  lemma {:induction false} BodyStepHangs(e: Env, s: FsmStep, st: Run) returns (w: FsmStep)
    requires (s.op.If? || s.op.Group?) && IsLive(st)
    ensures var r := BodyStep(e, s, st).1; r.status.Diverged? ==> OccursIn(w, s) && HangsAt(e, w, r)
    decreases Left(e, st), 3
  {
    w := PassHangs(e, s.op.body, st);
  }

  lemma {:induction false} WhilePass(e: Env, s: FsmStep, st: Run)
    requires s.op.While? && EvalCondition(e.text, s.op.condition, st.vars)
    requires st.iterations < e.limit && EntryPoint(s.op.body) != ""
    ensures var (code, st1) := RunBody(e, s.op.body, st);
      WhileStep(e, s, st)
      == if code.Stop? then (false, st1) else if code.BreakCode? then Proceed(st1, s.next) else WhileStep(e, s, st1)
  {}

  lemma {:induction false} WhileHangs(e: Env, s: FsmStep, st: Run) returns (w: FsmStep)
    requires s.op.While? && IsLive(st) && (EntryPoint(s.op.body) == "" ==> LastInvoked(st, s))
    ensures var r := WhileStep(e, s, st).1; r.status.Diverged? ==> (w == s || Occurs(w, s.op.body)) && HangsAt(e, w, r)
    decreases Left(e, st), 3
  {
    w := s;
    if EntryPoint(s.op.body) != "" {
      w := PassHangs(e, s.op.body, st);
      if EvalCondition(e.text, s.op.condition, st.vars) && st.iterations < e.limit {
        var (code, st1) := RunBody(e, s.op.body, st);
        WhilePass(e, s, st);
        if code.Normal? || code.ContinueCode? {
          w := WhileHangs(e, s, st1);
        } else {
          assert WhileStep(e, s, st).1.status.Diverged? ==> WhileStep(e, s, st).1 == st1;
        }
      } else {
        assert !WhileStep(e, s, st).1.status.Diverged?;
      }
    }
  }

  lemma {:induction false} ForStepHangs(e: Env, s: FsmStep, values: seq<Value>, st: Run) returns (w: FsmStep)
    requires s.op.For? && IsLive(st)
    ensures var r := ForStep(e, s, values, st).1; r.status.Diverged? ==> OccursIn(w, s) && HangsAt(e, w, r)
    decreases Left(e, st), 3
  {
    w := ForHangs(e, s, values, st);
  }

  lemma {:induction false} ForHangs(e: Env, s: FsmStep, values: seq<Value>, st: Run) returns (w: FsmStep)
    requires s.op.For? && IsLive(st)
    ensures var (code, r) := ForPasses(e, s, values, st);
      r.status.Diverged? ==> code.Stop? && OccursIn(w, s) && HangsAt(e, w, r)
    decreases Left(e, st), 2, |values|
  {
    w := NONE;
    if values != [] && st.iterations < e.limit {
      var st0 := st.(vars := st.vars[s.op.variable := values[0]]);
      w := PassHangs(e, s.op.body, st0);
      var (code, st1) := RunBody(e, s.op.body, st0);
      if code.Normal? || code.ContinueCode? {
        w := ForHangs(e, s, values[1..], st1);
      }
    }
  }

  /** A pass that does not stop the run leaves it live, and one that hangs stops
      it. */
  lemma {:induction false} PassHangs(e: Env, body: seq<FsmStep>, st: Run) returns (w: FsmStep)
    requires IsLive(st)
    ensures var (code, r) := RunBody(e, body, st);
      r.ctl.Clear? && (r.status.Diverged? ==> code.Stop? && Occurs(w, body) && HangsAt(e, w, r))
    decreases Left(e, st), 1
  {
    BodyOk(e, body, st);
    w := BodyHangs(e, body, EntryPoint(body), st);
  }

  lemma {:induction false} BodyHangs(e: Env, body: seq<FsmStep>, cur: string, st: Run) returns (w: FsmStep)
    requires IsLive(st)
    ensures var (code, r) := BodyFrom(e, body, cur, st);
      r.status.Diverged? ==> code.Stop? && Occurs(w, body) && HangsAt(e, w, r)
    decreases Left(e, st), 0
  {
    w := NONE;
    var found := Find(body, cur);
    if cur != "" && st.iterations < e.limit && found.Some? {
      var s := body[found.value];
      w := HandleHangs(e, s, Begin(st));
      HandleOk(e, s, st);
      var (go, st1) := Handle(e, s, Begin(st));
      if st1.ctl.Clear? && st1.status.Running? && go {
        w := BodyHangs(e, body, st1.next, st1);
      }
    }
  }

  /** The same of a step: a flag and a hang exclude each other. */
  lemma {:induction false} StepIsLive(e: Env, s: FsmStep, st: Run)
    requires IsLive(st) && st.iterations < e.limit
    ensures var st1 := Handle(e, s, Begin(st)).1; st1.status.Diverged? ==> st1.ctl.Clear?
    ensures var (go, st1) := Handle(e, s, Begin(st)); go ==> st1.ctl.Clear?
  {
    HandleOk(e, s, st);
  }

  lemma {:induction false} RunHangs(e: Env, steps: seq<FsmStep>, cur: string, st: Run, k: nat) returns (w: FsmStep)
    requires IsLive(st)
    ensures var r := RunFrom(e, steps, cur, st, k); r.status.Diverged? ==> Occurs(w, steps) && HangsAt(e, w, r)
    decreases Left(e, st), SignalsLeft(e, k), 1
  {
    w := NONE;
    if cur != "" && st.iterations < e.limit {
      if e.signals.None? {
        w := DispatchHangs(e, steps, cur, st, k);
      } else {
        var st1 := ApplyCheck(st, CheckAt(e, k));
        if !st1.paused {
          w := DispatchHangs(e, steps, cur, st1, k + 1);
        } else {
          WaitReturns(e, st1, k + 1);
          var (st2, k2) := Wait(e, st1, k + 1);
          if st2.status.Running? {
            w := RunHangs(e, steps, cur, st2, k2);
          }
        }
      }
    }
  }

  lemma {:induction false} WaitReturns(e: Env, st: Run, k: nat)
    requires e.signals.Some? && !st.status.Diverged?
    ensures !Wait(e, st, k).0.status.Diverged?
  {}

  lemma {:induction false} DispatchHangs(e: Env, steps: seq<FsmStep>, cur: string, st: Run, k: nat) returns (w: FsmStep)
    requires IsLive(st) && cur != "" && st.iterations < e.limit
    ensures var r := DispatchFrom(e, steps, cur, st, k); r.status.Diverged? ==> Occurs(w, steps) && HangsAt(e, w, r)
    decreases Left(e, st), SignalsLeft(e, k), 0
  {
    w := NONE;
    var found := Find(steps, cur);
    if found.Some? {
      var s := steps[found.value];
      w := HandleHangs(e, s, Begin(st));
      HandleOk(e, s, st);
      var (go, st1) := Handle(e, s, Begin(st));
      if st1.status.Running? && go {
        w := RunHangs(e, steps, st1.next, st1, k);
      }
    }
  }

  /** For any answers and any signals, a run that does not return hangs in a
      `while` of the workflow whose condition holds and whose body has no entry
      point.  So a workflow without such a body returns from every run. */
  lemma {:induction false} RunTerminates(e: Env, steps: seq<FsmStep>, msgs: seq<Message>, vars: Vars, start: string)
      returns (w: FsmStep)
    ensures var r := Execute(e, steps, msgs, vars, start);
      && (r.status.Diverged? ==> Occurs(w, steps) && HangsAt(e, w, r))
      && (AllProductive(steps) ==> !r.status.Diverged?)
  {
    var cur := if start != "" then start else EntryPoint(steps);
    w := RunHangs(e, steps, cur, Start(msgs, vars), 0);
    if AllProductive(steps) && Occurs(w, steps) {
      var s :| s in steps && OccursIn(w, s);
      ProductiveInside(w, s);
    }
  }

  /** The state in which the first step of a run is dispatched, unless the first
      check pauses it. */
  function FirstState(e: Env, msgs: seq<Message>, vars: Vars): Run {
    var st := Start(msgs, vars);
    if e.signals.None? then st else ApplyCheck(st, CheckAt(e, 0))
  }

  /** And such a run does hang: any workflow started at a `while` without an
      entry point whose condition holds after the first check, unless that check
      pauses the run; even a kill does not end it. */
  lemma {:induction false} EmptyWhileHangs(e: Env, steps: seq<FsmStep>, i: nat, msgs: seq<Message>, vars: Vars)
    requires i < |steps| && steps[i].id != "" && Find(steps, steps[i].id) == Some(i)
    requires steps[i].op.While? && EntryPoint(steps[i].op.body) == "" && e.limit > 1
    requires var st1 := FirstState(e, msgs, vars);
      !st1.paused && EvalCondition(e.text, steps[i].op.condition, st1.vars)
    ensures Execute(e, steps, msgs, vars, steps[i].id).status.Diverged?
  {
    var s, st0, st1 := steps[i], Start(msgs, vars), FirstState(e, msgs, vars);
    assert Handle(e, s, Begin(st1)) == WhileStep(e, s, Invoke(s, Begin(st1)));
    assert RunFrom(e, steps, s.id, st0, 0) == DispatchFrom(e, steps, s.id, st1, if e.signals.None? then 0 else 1);
  }

  /** A `while` about to start a pass returns exactly when its body has an entry
      point, given that whatever is nested in it returns. */
  lemma {:induction false} WhileReturnsIff(e: Env, s: FsmStep, st: Run)
    requires s.op.While? && AllProductive(s.op.body) && IsLive(st)
    requires EvalCondition(e.text, s.op.condition, st.vars) && st.iterations < e.limit
    ensures !WhileStep(e, s, st).1.status.Diverged? <==> EntryPoint(s.op.body) != ""
  {
    if EntryPoint(s.op.body) != "" {
      var w := WhileHangs(e, s, st);
      if WhileStep(e, s, st).1.status.Diverged? {
        ProductiveInside(w, s);
      }
    }
  }

  /** That `Diverged` stands for an endless loop: a pass through a body without an
      entry point changes nothing at all, so the next one finds the condition
      true again; any other pass that does not stop the run consumes budget. */
  lemma {:induction false} PassMakesProgress(e: Env, body: seq<FsmStep>, st: Run)
    requires st.iterations < e.limit
    ensures EntryPoint(body) == "" <==> RunBody(e, body, st) == (Normal, st)
  {}

  // ---- Kill ----

  /** Once the check made between two steps has seen a kill, at most one more
      leaf handler runs, however deep, and the run ends; none runs if the agent
      is paused. */
  lemma {:induction false} KillStopsRun(e: Env, steps: seq<FsmStep>, cur: string, st: Run, k: nat)
    requires e.signals.Some? && CheckAt(e, k).kill
    requires cur != "" && st.iterations < e.limit && st.ctl.Clear?
    ensures var r := RunFrom(e, steps, cur, st, k);
      && !r.status.Running? && Finish(e, r) == r
      && Leaves(r.trace) <= Leaves(st.trace) + 1
      && (ApplyCheck(st, CheckAt(e, k)).paused ==> r.status.Aborted? && r.trace == st.trace)
  {
    var st1 := ApplyCheck(st, CheckAt(e, k));
    var found := Find(steps, cur);
    if !st1.paused && found.Some? {
      HandleOk(e, steps[found.value], st1);
    }
  }

  /** A kill seen while the run waits in a pause ends it before any handler. */
  lemma {:induction false} KillEndsPause(e: Env, st: Run, k: nat, n: nat)
    requires e.signals.Some? && st.paused && st.status.Running?
    requires forall i | k <= i < k + n :: !CheckAt(e, i).kill && CheckAt(e, i).pause.GetOr(true)
    requires CheckAt(e, k + n).kill
    ensures var r := Wait(e, st, k); r.0.status.Aborted? && r.0.trace == st.trace && r.1 == k + n + 1
    decreases n
  {
    var st1 := ApplyCheck(st, CheckAt(e, k));
    if n > 0 {
      KillEndsPause(e, st1, k + 1, n - 1);
    }
  }

  // ---- Which step spares the status of a killed run ----

  /** The steps without a body that leave the status of a run alone: of those
      from outside, the ones that succeed, that report the kill themselves, or
      whose failure is sent to an error branch. */
  predicate LeavesStatus(op: Op, answer: Answer) {
    match op
    case External(service, onError) =>
      || answer.Done?
      || (service.LlmCall? && answer.Killed?)
      || (onError != "" && !answer.Unusable? &&
          (service.LlmCall? || service.AgentCall? || (service.SkillCall? && answer.Refused?)))
    case Switch(_) => true
    case SetVariable(_, _) => true
    case Break => true
    case Continue => true
    case _ => false
  }

  /** The step a body starts with, if it has an entry point that designates one. */
  function First(body: seq<FsmStep>): (i: Option<nat>)
    ensures i.Some? ==> i.value < |body|
  {
    if EntryPoint(body) == "" then None else Find(body, EntryPoint(body))
  }

  predicate StartsWithContinue(body: seq<FsmStep>) {
    First(body).Some? && body[First(body).value].op.Continue?
  }

  /** Whether a step dispatched in the state `st` of a killed run leaves the
      status alone.  At most one leaf decides: a body runs its first step only,
      except that a `continue` sends a loop round again, a `while` until the
      limit and a `for` as long as it has values. */
  predicate Spares(e: Env, s: FsmStep, st: Run)
    decreases s
  {
    var st1 := Invoke(s, st);
    match s.op
    case If(condition, body) =>
      !EvalCondition(e.text, condition, st1.vars) || EntryPoint(body) == "" || FirstSpares(e, body, st1)
    case Group(body) => EntryPoint(body) == "" || FirstSpares(e, body, st1)
    case While(condition, body) =>
      !EvalCondition(e.text, condition, st1.vars) || (!StartsWithContinue(body) && FirstSpares(e, body, st1))
    case For(variable, source, body) =>
      var values := LoopValues(source, st1.vars);
      || values == []
      || (EntryPoint(body) == "" && st1.iterations < e.limit)
      || (StartsWithContinue(body) && st1.iterations + |values| <= e.limit)
      || (!StartsWithContinue(body) && FirstSpares(e, body, st1.(vars := st1.vars[variable := values[0]])))
    case _ => LeavesStatus(s.op, e.reply(st1.iterations, s, st1.vars, st1.msgs).answer)
  }

  /** The first step of a body exists, is within the limit and spares the
      status. */
  predicate FirstSpares(e: Env, body: seq<FsmStep>, st: Run)
    decreases body
  {
    First(body).Some? && st.iterations < e.limit && Spares(e, body[First(body).value], Begin(st))
  }

  /** A pass entered after a kill, told by its first step. */
  lemma {:induction false} FirstPass(e: Env, body: seq<FsmStep>, st: Run)
    requires !st.status.Running? && st.ctl.Clear?
    ensures var r := RunBody(e, body, st);
      if EntryPoint(body) == "" then r == (Normal, st)
      else if st.iterations >= e.limit || First(body).None? then r.0.Stop? && r.1.status.Failed?
      else
        var s := body[First(body).value];
        var st1 := Handle(e, s, Begin(st)).1;
        if s.op.Break? then r.0.BreakCode? && r.1 == Invoke(s, Begin(st))
        else if s.op.Continue? then r == (ContinueCode, Invoke(s, Begin(st)))
        else r == (Stop, st1)
  {
    if First(body).Some? && st.iterations < e.limit {
      HandleOk(e, body[First(body).value], st);
    }
    assert RunBody(e, body, st) == BodyFrom(e, body, EntryPoint(body), st);
  }

  /** A `while` entered with its condition true and a body that starts with a
      `continue` goes round until the limit. */
  lemma {:induction false} WhileSpins(e: Env, s: FsmStep, st: Run)
    requires s.op.While? && StartsWithContinue(s.op.body) && EvalCondition(e.text, s.op.condition, st.vars)
    requires !st.status.Running? && st.ctl.Clear?
    ensures WhileStep(e, s, st).1.status.Failed?
    decreases Left(e, st)
  {
    if st.iterations < e.limit {
      FirstPass(e, s.op.body, st);
      WhileSpins(e, s, RunBody(e, s.op.body, st).1);
    }
  }

  /** A `for` whose body starts with a `continue` takes one iteration a value. */
  lemma {:induction false} ForSkips(e: Env, s: FsmStep, values: seq<Value>, st: Run)
    requires s.op.For? && StartsWithContinue(s.op.body) && st.status.Aborted? && st.ctl.Clear?
    ensures ForPasses(e, s, values, st).1.status.Aborted? <==> values == [] || st.iterations + |values| <= e.limit
    decreases |values|
  {
    if values != [] && st.iterations < e.limit {
      var st0 := st.(vars := st.vars[s.op.variable := values[0]]);
      FirstPass(e, s.op.body, st0);
      ForSkips(e, s, values[1..], RunBody(e, s.op.body, st0).1);
    }
  }

  /** A `for` whose body has no entry point only sets its variable. */
  lemma {:induction false} ForIdles(e: Env, s: FsmStep, values: seq<Value>, st: Run)
    requires s.op.For? && EntryPoint(s.op.body) == "" && st.status.Aborted? && st.ctl.Clear?
    ensures ForPasses(e, s, values, st).1.status.Aborted? <==> values == [] || st.iterations < e.limit
    decreases |values|
  {
    if values != [] && st.iterations < e.limit {
      var st0 := st.(vars := st.vars[s.op.variable := values[0]]);
      FirstPass(e, s.op.body, st0);
      ForIdles(e, s, values[1..], st0);
    }
  }

  lemma {:induction false} SparedPass(e: Env, body: seq<FsmStep>, st: Run)
    requires st.status.Aborted? && st.ctl.Clear? && EntryPoint(body) != ""
    ensures var r := RunBody(e, body, st);
      && (r.1.status.Aborted? <==> FirstSpares(e, body, st))
      && (r.0.ContinueCode? <==> StartsWithContinue(body) && st.iterations < e.limit)
      && !r.0.Normal?
    decreases body
  {
    FirstPass(e, body, st);
    if First(body).Some? && st.iterations < e.limit {
      SparedStep(e, body[First(body).value], Begin(st));
    }
  }

  lemma {:induction false} SparedBody(e: Env, s: FsmStep, st: Run)
    requires (s.op.If? || s.op.Group?) && st.status.Aborted? && st.ctl.Clear?
    ensures BodyStep(e, s, st).1.status.Aborted? <==> EntryPoint(s.op.body) == "" || FirstSpares(e, s.op.body, st)
    decreases s, 1
  {
    FirstPass(e, s.op.body, st);
    if EntryPoint(s.op.body) != "" {
      SparedPass(e, s.op.body, st);
    }
  }

  lemma {:induction false} SparedWhile(e: Env, s: FsmStep, st: Run)
    requires s.op.While? && st.status.Aborted? && st.ctl.Clear? && EvalCondition(e.text, s.op.condition, st.vars)
    ensures WhileStep(e, s, st).1.status.Aborted? <==> !StartsWithContinue(s.op.body) && FirstSpares(e, s.op.body, st)
    decreases s, 1
  {
    if StartsWithContinue(s.op.body) {
      WhileSpins(e, s, st);
    } else if EntryPoint(s.op.body) != "" {
      SparedPass(e, s.op.body, st);
    }
  }

  lemma {:induction false} SparedFor(e: Env, s: FsmStep, values: seq<Value>, st: Run)
    requires s.op.For? && st.status.Aborted? && st.ctl.Clear? && values != []
    ensures var body := s.op.body;
      ForPasses(e, s, values, st).1.status.Aborted?
      <==> (|| (EntryPoint(body) == "" && st.iterations < e.limit)
            || (StartsWithContinue(body) && st.iterations + |values| <= e.limit)
            || (!StartsWithContinue(body) && FirstSpares(e, body, st.(vars := st.vars[s.op.variable := values[0]]))))
    decreases s, 1
  {
    if EntryPoint(s.op.body) == "" {
      ForIdles(e, s, values, st);
    } else if StartsWithContinue(s.op.body) {
      ForSkips(e, s, values, st);
    } else {
      SparedPass(e, s.op.body, st.(vars := st.vars[s.op.variable := values[0]]));
    }
  }

  lemma {:induction false} SparedLeaf(e: Env, s: FsmStep, st: Run)
    requires KindOf(s.op).Leaf? && st.status.Aborted?
    ensures LeafStep(e, s, st).1.status.Aborted? <==>
      LeavesStatus(s.op, e.reply(st.iterations, s, st.vars, st.msgs).answer)
  {
    if s.op.External? {
      SparedExternal(e, s, st);
    }
  }

  lemma {:induction false} SparedExternal(e: Env, s: FsmStep, st: Run)
    requires s.op.External? && st.status.Aborted?
    ensures ExternalStep(e, s, st).1.status.Aborted? <==>
      LeavesStatus(s.op, e.reply(st.iterations, s, st.vars, st.msgs).answer)
  {}

  /** A step of a killed run leaves `aborted` alone exactly when `Spares` says. */
  lemma {:induction false} SparedStep(e: Env, s: FsmStep, st: Run)
    requires st.status.Aborted? && st.ctl.Clear?
    ensures Handle(e, s, st).1.status.Aborted? <==> Spares(e, s, st)
    decreases s
  {
    var st1 := Invoke(s, st);
    if KindOf(s.op).Leaf? {
      SparedLeaf(e, s, st1);
    } else if s.op.While? {
      assert Handle(e, s, st) == WhileStep(e, s, st1);
      if EvalCondition(e.text, s.op.condition, st1.vars) {
        SparedWhile(e, s, st1);
      } else {
        assert WhileStep(e, s, st1) == Proceed(st1, s.next);
      }
    } else if s.op.For? {
      var values := LoopValues(s.op.source, st1.vars);
      assert Handle(e, s, st) == ForStep(e, s, values, st1);
      assert ForStep(e, s, values, st1).1.status == ForPasses(e, s, values, st1).1.status;
      if values != [] {
        SparedFor(e, s, values, st1);
      }
    } else if s.op.If? || s.op.Group? {
      SparedBody(e, s, st1);
      if s.op.Group? || EvalCondition(e.text, s.op.condition, st1.vars) {
        assert Handle(e, s, st) == BodyStep(e, s, st1);
      } else {
        assert Handle(e, s, st) == Proceed(st1, s.next);
      }
    }
  }

  /** A killed run is reported as aborted exactly when it is paused, or the step
      the kill precedes exists and spares the status, at every nesting depth:
      a step that ends or suspends the run, fails without an error branch or
      runs into the limit overwrites `aborted`. */
  lemma {:induction false} KilledRunIsAborted(e: Env, steps: seq<FsmStep>, cur: string, st: Run, k: nat)
    requires e.signals.Some? && CheckAt(e, k).kill
    requires cur != "" && st.iterations < e.limit && st.ctl.Clear?
    ensures var found, st1 := Find(steps, cur), ApplyCheck(st, CheckAt(e, k));
      RunFrom(e, steps, cur, st, k).status.Aborted?
      <==> st1.paused || (found.Some? && Spares(e, steps[found.value], Begin(st1)))
  {
    var found, st1 := Find(steps, cur), ApplyCheck(st, CheckAt(e, k));
    if st1.paused {
      KillStopsRun(e, steps, cur, st, k);
    } else {
      assert RunFrom(e, steps, cur, st, k) == DispatchFrom(e, steps, cur, st1, k + 1);
      if found.Some? {
        HandleOk(e, steps[found.value], st1);
        SparedStep(e, steps[found.value], Begin(st1));
      }
    }
  }
}
