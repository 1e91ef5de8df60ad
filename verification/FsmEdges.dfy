/** Which step a run takes next and what each step changes, said edge by edge and
    answer by answer. */
module FsmEdges {
  import opened Wrappers
  import opened Workflow
  import opened Fsm
  import FsmProofs

  // ---- The steps answered from outside ----

  /** What comes back to the step when it is dispatched in the state `st`. */
  function ReplyTo(e: Env, s: FsmStep, st: Run): Reply {
    e.reply(st.iterations + 1, s, st.vars, st.msgs)
  }

  function ErrorText(a: Answer): string {
    match a
    case Done => ""
    case Refused(error) => error
    case Raised(error) => error
    case Unusable(error) => error
    case Killed => "AgentAbort"
  }

  /** The answers that send a step on along its error branch. */
  predicate IsCaught(service: Service, onError: string, a: Answer) {
    onError != "" &&
    match service
    case LlmCall => a.Refused? || a.Raised?
    case AgentCall => a.Refused? || a.Raised? || a.Killed?
    case SkillCall => a.Refused?
    case _ => false
  }

  /** The answers that are recorded in the two error variables. */
  predicate IsRecorded(service: Service, onError: string, a: Answer) {
    match service
    case LlmCall => a.Refused? || a.Raised?
    case AgentCall => IsCaught(service, onError, a)
    case _ => false
  }

  function Recorded(vars: Vars, a: Answer): Vars {
    vars["_last_error" := Str(ErrorText(a))]["_last_call_ok" := Bool(false)]
  }

  /** Where the step goes on, if it does: at its successor after an answer, at
      its error branch after a failure that is caught. */
  ghost predicate GoesOn(s: FsmStep, a: Answer, go: bool, next: string)
    requires s.op.External?
  {
    && (go <==> a.Done? || IsCaught(s.op.service, s.op.onError, a))
    && (a.Done? ==> next == s.next)
    && (IsCaught(s.op.service, s.op.onError, a) ==> next == s.op.onError)
    && (!go ==> next == if s.op.service.SkillCall? && a.Refused? then s.next else "")
  }

  /** How the run ends if the step does not go on. */
  ghost predicate EndsRun(s: FsmStep, a: Answer, st: Run, go: bool, st': Run)
    requires s.op.External?
  {
    if go then st'.status == st.status && st'.reason == st.reason
    else if s.op.service.LlmCall? && a.Killed? then st'.status.Aborted? && st'.reason.KilledBySignal?
    else st'.status.Failed? && st'.reason == StepError(ErrorText(a))
  }

  /** Nothing but what the reply and the tables above say is changed. */
  ghost predicate KeepsRest(s: FsmStep, reply: Reply, st: Run, st': Run)
    requires s.op.External?
  {
    && st'.msgs == reply.msgs && st'.paused == reply.paused
    && st'.vars == (
         if IsRecorded(s.op.service, s.op.onError, reply.answer) then Recorded(reply.vars, reply.answer)
         else reply.vars)
    && st'.iterations == st.iterations + 1 && st'.trace == st.trace + [Dispatch(s.id, Leaf)]
    && st'.ctl == st.ctl && st'.sleepSeconds == st.sleepSeconds
  }

  lemma {:induction false} FailureTable(s: FsmStep, st: Run, a: Answer)
    requires s.op.External? && st.next == ""
    requires a.Refused? || a.Raised? || (a.Killed? && !s.op.service.LlmCall?)
    ensures var (go, st') := ExternalFailure(s, st, ErrorText(a), !a.Refused?);
      && GoesOn(s, a, go, st'.next) && EndsRun(s, a, st, go, st')
      && st' == st.(next := st'.next, status := st'.status, reason := st'.reason, vars :=
           if IsRecorded(s.op.service, s.op.onError, a) then Recorded(st.vars, a) else st.vars)
  {
    match s.op.service
    case LlmCall =>
    case AgentCall =>
    case SkillCall =>
    case _ =>
  }

  /** A step from outside, for every service and every answer. */
  lemma {:induction false} ExternalTable(e: Env, s: FsmStep, st: Run)
    requires s.op.External?
    ensures var (go, st') := Handle(e, s, Begin(st));
      var reply := ReplyTo(e, s, st);
      GoesOn(s, reply.answer, go, st'.next) && EndsRun(s, reply.answer, st, go, st') && KeepsRest(s, reply, st, st')
  {
    var reply, st1 := ReplyTo(e, s, st), Invoke(s, Begin(st));
    var st2 := st1.(vars := reply.vars, msgs := reply.msgs, paused := reply.paused);
    assert Handle(e, s, Begin(st)) == ExternalStep(e, s, st1);
    match reply.answer
    case Done =>
    case Unusable(_) =>
    case Refused(error) => FailureTable(s, st2, reply.answer);
    case Raised(error) => FailureTable(s, st2, reply.answer);
    case Killed =>
      if !s.op.service.LlmCall? {
        FailureTable(s, st2, reply.answer);
      }
  }

  // ---- The steps without a body that the interpreter answers itself ----

  /** What one of these steps makes of the state `base` it is entered in. */
  ghost predicate DoesItsPart(e: Env, s: FsmStep, base: Run, go: bool, st': Run) {
    match s.op
    case Switch(variable) =>
      go && st' == base.(next := st'.next)
      && IsChosen(e.text, s.branches, SwitchValue(e.text, variable, base.vars), s.default_, st'.next)
    case SetVariable(name, value) =>
      go && st' == base.(next := s.next, vars := base.vars[name := Str(e.text.resolve(value, base.vars))])
    case Sleep(seconds) =>
      !go && st' == base.(next := s.next, status := Sleeping, sleepSeconds := Some(seconds))
    case End(status) =>
      !go && st' == base.(status := if status == "SUCCESS" then Success else Failed, reason := EndStatus(status))
    case Unknown(stepType) => !go && st' == base.(status := Failed, reason := UnknownType(stepType))
    case Break => !go && st' == base.(ctl := BreakFlag)
    case Continue => !go && st' == base.(ctl := ContinueFlag)
    case _ => true
  }

  lemma {:induction false} LeafTable(e: Env, s: FsmStep, base: Run)
    requires KindOf(s.op).Leaf? && !s.op.External?
    ensures var (go, st') := LeafStep(e, s, base); DoesItsPart(e, s, base, go, st')
  {
    if s.op.Switch? {
      SwitchTable(e.text, s.branches, s.default_, s.op.variable, base.vars);
    }
  }

  /** What each of these steps does, besides costing an iteration. */
  lemma {:induction false} InnerTable(e: Env, s: FsmStep, st: Run)
    requires !s.op.External? && !KindOf(s.op).Composite?
    ensures var (go, st') := Handle(e, s, Begin(st));
      var base := st.(
        iterations := st.iterations + 1, next := "",
        trace := st.trace + if s.op.Unknown? then [] else [Dispatch(s.id, KindOf(s.op))]);
      DoesItsPart(e, s, base, go, st')
  {
    var st1 := Invoke(s, Begin(st));
    assert s.op.Unknown? ==> st.trace + [] == st.trace;
    if KindOf(s.op).Leaf? {
      LeafTable(e, s, st1);
      assert Handle(e, s, Begin(st)) == LeafStep(e, s, st1);
    }
  }

  // ---- The steps with a body ----

  lemma {:induction false} WhileGoesOn(e: Env, s: FsmStep, st: Run)
    requires s.op.While?
    ensures var (go, st') := WhileStep(e, s, st); go ==> st'.next == s.next
    decreases Left(e, st)
  {
    if EvalCondition(e.text, s.op.condition, st.vars) && st.iterations < e.limit && EntryPoint(s.op.body) != "" {
      FsmProofs.WhilePass(e, s, st);
      var (code, st1) := RunBody(e, s.op.body, st);
      if code.Normal? || code.ContinueCode? {
        WhileGoesOn(e, s, st1);
      }
    }
  }

  lemma {:induction false} CompositeGoesOn(e: Env, s: FsmStep, st: Run)
    requires KindOf(s.op).Composite?
    ensures var (go, st') := CompositeStep(e, s, st); go ==> st'.next == s.next
  {
    if s.op.While? {
      WhileGoesOn(e, s, st);
    }
  }

  /** An `if` whose condition holds is a group; one whose condition does not hold
      goes on at once. */
  lemma {:induction false} IfIsGroup(e: Env, s: FsmStep, st: Run)
    requires s.op.If?
    ensures var group := s.(op := Group(s.op.body));
      CompositeStep(e, s, st) ==
      if EvalCondition(e.text, s.op.condition, st.vars) then CompositeStep(e, group, st)
      else (true, st.(next := s.next))
  {
    var group := s.(op := Group(s.op.body));
    assert BodyStep(e, s, st) == BodyStep(e, group, st);
  }

  /** A group goes on at its successor unless its body was stopped, whatever else
      ended that; so does a `for`, after the passes over its values. */
  lemma {:induction false} GroupAndForTable(e: Env, s: FsmStep, st: Run)
    requires s.op.Group? || s.op.For?
    ensures var (code, end) := if s.op.Group? then RunBody(e, s.op.body, st)
                               else ForPasses(e, s, LoopValues(s.op.source, st.vars), st);
      var (go, st') := CompositeStep(e, s, st);
      && (go <==> code.Normal? || code.BreakCode? || code.ContinueCode?)
      && st' == end.(next := if go then s.next else end.next)
  {}

  /** One value of a `for`: the variable is set, then the body passed through. */
  lemma {:induction false} ForOne(e: Env, s: FsmStep, v: Value, st: Run)
    requires s.op.For?
    ensures var (code, st1) := RunBody(e, s.op.body, st.(vars := st.vars[s.op.variable := v]));
      ForPasses(e, s, [v], st) ==
      if st.iterations >= e.limit then (Stop, st.(status := Failed, reason := LimitReached(e.limit)))
      else (if code.ContinueCode? then Normal else code, st1)
  {
    assert [v][1..] == [];
  }

  /** The values of a `for`: its items, those of the variable if it holds a list,
      or the range, by default from 0 to 0 by 1; a stride of 0 counts as 1. */
  lemma {:induction false} LoopValuesTable(values: seq<Value>, name: string, vars: Vars, start: Option<int>,
      end: Option<int>, stride: Option<int>, k: nat)
    ensures LoopValues(Items(values), vars) == values
    ensures LoopValues(NotAList, vars) == []
    ensures LoopValues(FromVariable(name), vars) ==
      if name in vars && vars[name].List? then vars[name].items else []
    ensures var first, last := if start.Some? then start.value else 0, if end.Some? then end.value else 0;
      var pace := if stride.Some? && stride.value != 0 then stride.value else 1;
      var range := LoopValues(Range(start, end, stride), vars);
      && (k < |range| <==> if pace > 0 then first + k * pace < last else first + k * pace > last)
      && (k < |range| ==> range[k] == Int(first + k * pace))
  {}

  // ---- The edge a step names ----

  /** The step `s`, dispatched in the state `st`, names `id` as its successor. */
  ghost predicate Names(e: Env, s: FsmStep, st: Run, id: string) {
    match s.op
    case External(service, onError) =>
      var a := ReplyTo(e, s, st).answer;
      (a.Done? && id == s.next) || (IsCaught(service, onError, a) && id == onError)
    case Switch(variable) => IsChosen(e.text, s.branches, SwitchValue(e.text, variable, st.vars), s.default_, id)
    case SetVariable(_, _) => id == s.next
    case While(_, _) => id == s.next
    case For(_, _, _) => id == s.next
    case If(_, _) => id == s.next
    case Group(_) => id == s.next
    case _ => false
  }

  /** A step that goes on goes on where it says. */
  lemma {:induction false} GoesToNamed(e: Env, s: FsmStep, st: Run)
    ensures var (go, st') := Handle(e, s, Begin(st)); go ==> Names(e, s, st, st'.next)
  {
    if s.op.External? {
      ExternalTable(e, s, st);
    } else if KindOf(s.op).Composite? {
      CompositeGoesOn(e, s, Invoke(s, Begin(st)));
    } else {
      InnerTable(e, s, st);
    }
  }

  // ---- Runs ----

  /** A step dispatched by a list of steps itself, and the state it found. */
  datatype Visit = Visit(step: nat, before: Run)

  /** The steps the main loop dispatches. */
  function Visits(e: Env, steps: seq<FsmStep>, cur: string, st: Run, k: nat): (vs: seq<Visit>)
    ensures forall v | v in vs :: v.step < |steps|
    decreases Left(e, st), SignalsLeft(e, k), 1
  {
    if cur == "" || st.iterations >= e.limit then []
    else if e.signals.None? then VisitsFrom(e, steps, cur, st, k)
    else
      var st1 := ApplyCheck(st, CheckAt(e, k));
      if !st1.paused then VisitsFrom(e, steps, cur, st1, k + 1)
      else
        var (st2, k2) := Wait(e, st1, k + 1);
        if st2.status.Running? then Visits(e, steps, cur, st2, k2) else []
  }

  function VisitsFrom(e: Env, steps: seq<FsmStep>, cur: string, st: Run, k: nat): (vs: seq<Visit>)
    requires cur != "" && st.iterations < e.limit
    ensures forall v | v in vs :: v.step < |steps|
    decreases Left(e, st), SignalsLeft(e, k), 0
  {
    match Find(steps, cur)
    case None => []
    case Some(i) =>
      var (go, st1) := Handle(e, steps[i], Begin(st));
      [Visit(i, st)] + if st1.status.Running? && go then Visits(e, steps, st1.next, st1, k) else []
  }

  /** The steps one pass through a body dispatches. */
  function BodyVisits(e: Env, body: seq<FsmStep>, cur: string, st: Run): (vs: seq<Visit>)
    ensures forall v | v in vs :: v.step < |body|
    decreases Left(e, st)
  {
    if cur == "" || st.iterations >= e.limit || Find(body, cur).None? then []
    else
      var i := Find(body, cur).value;
      var (go, st1) := Handle(e, body[i], Begin(st));
      [Visit(i, st)] + if st1.ctl.Clear? && st1.status.Running? && go then BodyVisits(e, body, st1.next, st1) else []
  }

  /** The state a visit leaves behind. */
  function AfterVisit(e: Env, steps: seq<FsmStep>, v: Visit): Run
    requires v.step < |steps|
  {
    Handle(e, steps[v.step], Begin(v.before)).1
  }

  /** What signal checks may change between two steps. */
  ghost predicate OnlyChecked(st: Run, st': Run) {
    st' == st.(vars := st'.vars, paused := st'.paused, status := st'.status, reason := st'.reason)
  }

  /** The second visit is to the step the first one names, and finds what it left,
      but for the effect of signals. */
  ghost predicate Links(e: Env, steps: seq<FsmStep>, v: Visit, w: Visit)
    requires v.step < |steps|
  {
    && Names(e, steps[v.step], v.before, AfterVisit(e, steps, v).next)
    && Find(steps, AfterVisit(e, steps, v).next) == Some(w.step)
    && OnlyChecked(AfterVisit(e, steps, v), w.before)
    && (e.signals.None? ==> w.before == AfterVisit(e, steps, v))
  }

  ghost predicate IsChain(e: Env, steps: seq<FsmStep>, vs: seq<Visit>)
    requires forall v | v in vs :: v.step < |steps|
  {
    |vs| >= 2 ==> Links(e, steps, vs[0], vs[1]) && IsChain(e, steps, vs[1..])
  }

  /** The first visit of a part of a run that starts at `cur` in the state `st`. */
  ghost predicate StartsAt(e: Env, steps: seq<FsmStep>, vs: seq<Visit>, cur: string, st: Run) {
    vs != [] ==>
      Find(steps, cur) == Some(vs[0].step) && OnlyChecked(st, vs[0].before) && (e.signals.None? ==> vs[0].before == st)
  }

  lemma {:induction false} WaitOnlyChecks(e: Env, st: Run, k: nat)
    requires e.signals.Some?
    ensures OnlyChecked(st, Wait(e, st, k).0)
    decreases SignalsLeft(e, k), st.paused
  {
    if st.paused && st.status.Running? {
      WaitOnlyChecks(e, ApplyCheck(st, CheckAt(e, k)), k + 1);
    }
  }

  lemma {:induction false} VisitsChain(e: Env, steps: seq<FsmStep>, cur: string, st: Run, k: nat)
    ensures var vs := Visits(e, steps, cur, st, k); StartsAt(e, steps, vs, cur, st) && IsChain(e, steps, vs)
    decreases Left(e, st), SignalsLeft(e, k), 1
  {
    if cur != "" && st.iterations < e.limit {
      if e.signals.None? {
        VisitsFromChain(e, steps, cur, st, k);
      } else {
        var st1 := ApplyCheck(st, CheckAt(e, k));
        if !st1.paused {
          VisitsFromChain(e, steps, cur, st1, k + 1);
        } else {
          WaitOnlyChecks(e, st1, k + 1);
          var (st2, k2) := Wait(e, st1, k + 1);
          if st2.status.Running? {
            VisitsChain(e, steps, cur, st2, k2);
          }
        }
      }
    }
  }

  lemma {:induction false} VisitsFromChain(e: Env, steps: seq<FsmStep>, cur: string, st: Run, k: nat)
    requires cur != "" && st.iterations < e.limit
    ensures var vs := VisitsFrom(e, steps, cur, st, k);
      && (vs != [] ==> vs[0].before == st && Find(steps, cur) == Some(vs[0].step))
      && IsChain(e, steps, vs)
    decreases Left(e, st), SignalsLeft(e, k), 0
  {
    var found := Find(steps, cur);
    if found.Some? {
      var (go, st1) := Handle(e, steps[found.value], Begin(st));
      if st1.status.Running? && go {
        var rest := Visits(e, steps, st1.next, st1, k);
        VisitsChain(e, steps, st1.next, st1, k);
        GoesToNamed(e, steps[found.value], st);
        OneMoreVisit(e, steps, Visit(found.value, st), rest);
      }
    }
  }

  lemma {:induction false} OneMoreVisit(e: Env, steps: seq<FsmStep>, v: Visit, rest: seq<Visit>)
    requires v.step < |steps| && forall w | w in rest :: w.step < |steps|
    requires IsChain(e, steps, rest) && (rest != [] ==> Links(e, steps, v, rest[0]))
    ensures IsChain(e, steps, [v] + rest)
  {
    assert ([v] + rest)[1..] == rest;
  }

  lemma {:induction false} BodyVisitsChain(e: Env, body: seq<FsmStep>, cur: string, st: Run)
    ensures var vs := BodyVisits(e, body, cur, st);
      && (vs != [] ==> vs[0].before == st && Find(body, cur) == Some(vs[0].step))
      && IsChain(e, body, vs)
    decreases Left(e, st)
  {
    if cur != "" && st.iterations < e.limit && Find(body, cur).Some? {
      var i := Find(body, cur).value;
      var (go, st1) := Handle(e, body[i], Begin(st));
      if st1.ctl.Clear? && st1.status.Running? && go {
        BodyVisitsChain(e, body, st1.next, st1);
        GoesToNamed(e, body[i], st);
        OneMoreVisit(e, body, Visit(i, st), BodyVisits(e, body, st1.next, st1));
      }
    }
  }

  /** What the visits of a pass, entered at `cur` in the state `st`, come to: a
      flag raised by the last of them is taken down and reported, a step that
      does not go on stops everything, a successor that is missing or beyond
      the limit fails the run, and no successor ends the pass normally. */
  ghost predicate PassEndsWith(
      e: Env, body: seq<FsmStep>, vs: seq<Visit>, cur: string, st: Run, code: Code, end: Run)
    requires forall v | v in vs :: v.step < |body|
  {
    var (go, last) := if vs == [] then (true, st) else Handle(e, body[vs[|vs| - 1].step], Begin(vs[|vs| - 1].before));
    var next := if vs == [] then cur else last.next;
    if vs != [] && last.ctl.BreakFlag? then code.BreakCode? && end == last.(ctl := Clear)
    else if vs != [] && last.ctl.ContinueFlag? then code.ContinueCode? && end == last.(ctl := Clear)
    else if vs != [] && (!go || !last.status.Running?) then code.Stop? && end == last
    else if next == "" then code.Normal? && end == last
    else
      && code.Stop? && end == last.(status := Failed, reason := end.reason)
      && end.reason == (if last.iterations >= e.limit then LimitReached(e.limit) else StepMissing(next, true))
      && (last.iterations < e.limit ==> Find(body, next).None?)
  }

  lemma {:induction false} PassEnds(e: Env, body: seq<FsmStep>, cur: string, st: Run)
    ensures var (code, end) := BodyFrom(e, body, cur, st);
      PassEndsWith(e, body, BodyVisits(e, body, cur, st), cur, st, code, end)
    decreases Left(e, st)
  {
    if cur != "" && st.iterations < e.limit && Find(body, cur).Some? {
      var i := Find(body, cur).value;
      var vs := BodyVisits(e, body, cur, st);
      var (go, st1) := Handle(e, body[i], Begin(st));
      if st1.ctl.Clear? && st1.status.Running? && go {
        PassEnds(e, body, st1.next, st1);
        var rest := BodyVisits(e, body, st1.next, st1);
        assert vs == [Visit(i, st)] + rest;
        assert rest != [] ==> vs[|vs| - 1] == rest[|rest| - 1];
      } else {
        assert vs == [Visit(i, st)];
      }
    }
  }

  /** One pass through a body starts at its entry point, follows the edges its
      steps name, and ends as the last of them tells. */
  lemma {:induction false} PassFollowsEdges(e: Env, body: seq<FsmStep>, st: Run)
      returns (first: string, vs: seq<Visit>)
    ensures IsEntryPoint(body, first) && forall v | v in vs :: v.step < |body|
    ensures vs != [] ==> vs[0].before == st && Find(body, first) == Some(vs[0].step)
    ensures IsChain(e, body, vs)
    ensures var (code, end) := RunBody(e, body, st); PassEndsWith(e, body, vs, first, st, code, end)
  {
    first := EntryPoint(body);
    vs := BodyVisits(e, body, first, st);
    EntryPointIsExact(body, first);
    BodyVisitsChain(e, body, first, st);
    PassEnds(e, body, first, st);
  }

  // ---- The visits are what the run does ----

  /** The trace that some visits, entered in the state `st`, leave. */
  function TraceAfter(e: Env, steps: seq<FsmStep>, vs: seq<Visit>, st: Run): seq<Dispatch>
    requires forall v | v in vs :: v.step < |steps|
  {
    if vs == [] then st.trace else AfterVisit(e, steps, vs[|vs| - 1]).trace
  }

  lemma {:induction false} TraceOfMore(e: Env, steps: seq<FsmStep>, v: Visit, rest: seq<Visit>, st: Run)
    requires v.step < |steps| && forall w | w in rest :: w.step < |steps|
    ensures TraceAfter(e, steps, [v] + rest, st) == TraceAfter(e, steps, rest, AfterVisit(e, steps, v))
  {
    var vs := [v] + rest;
    assert rest != [] ==> vs[|vs| - 1] == rest[|rest| - 1];
  }

  /** Nothing is dispatched but by the visits: the trace of the run is the one
      the last of them leaves. */
  lemma {:induction false} TraceIsVisits(e: Env, steps: seq<FsmStep>, cur: string, st: Run, k: nat)
    ensures RunFrom(e, steps, cur, st, k).trace == TraceAfter(e, steps, Visits(e, steps, cur, st, k), st)
    decreases Left(e, st), SignalsLeft(e, k), 1
  {
    if cur != "" && st.iterations < e.limit {
      if e.signals.None? {
        TraceIsVisitsFrom(e, steps, cur, st, k);
      } else {
        var st1 := ApplyCheck(st, CheckAt(e, k));
        if !st1.paused {
          TraceIsVisitsFrom(e, steps, cur, st1, k + 1);
        } else {
          var (st2, k2) := Wait(e, st1, k + 1);
          if st2.status.Running? {
            TraceIsVisits(e, steps, cur, st2, k2);
          }
        }
      }
    }
  }

  lemma {:induction false} TraceIsVisitsFrom(e: Env, steps: seq<FsmStep>, cur: string, st: Run, k: nat)
    requires cur != "" && st.iterations < e.limit
    ensures DispatchFrom(e, steps, cur, st, k).trace == TraceAfter(e, steps, VisitsFrom(e, steps, cur, st, k), st)
    decreases Left(e, st), SignalsLeft(e, k), 0
  {
    var found := Find(steps, cur);
    if found.Some? {
      var (go, st1) := Handle(e, steps[found.value], Begin(st));
      if st1.status.Running? && go {
        TraceIsVisits(e, steps, st1.next, st1, k);
        TraceOfMore(e, steps, Visit(found.value, st), Visits(e, steps, st1.next, st1, k), st);
      }
    }
  }

  // ---- What a run costs ----

  /** Iterations and handlers invoked stay in step, except that a step of an
      unknown type, which ends the run, costs an iteration and invokes none. */
  ghost predicate IsCounted(st: Run, st': Run) {
    && st'.iterations - |st'.trace| == st.iterations - |st.trace| + (if st'.reason.UnknownType? then 1 else 0)
    && (st'.reason.UnknownType? ==> !st'.status.Running?)
  }

  lemma {:induction false} HandleIsCounted(e: Env, s: FsmStep, st: Run)
    requires st.ctl.Clear? && !st.reason.UnknownType? && st.iterations < e.limit
    ensures var (go, r) := Handle(e, s, Begin(st));
      IsCounted(st, r) && (go || !r.ctl.Clear? ==> !r.reason.UnknownType?)
    decreases Left(e, Begin(st)), 5
  {
    if s.op.External? {
      ExternalTable(e, s, st);
    } else if KindOf(s.op).Composite? {
      FsmProofs.HandleOk(e, s, st);
      CompositeIsCounted(e, s, Invoke(s, Begin(st)));
    } else {
      InnerTable(e, s, st);
    }
  }

  lemma {:induction false} CompositeIsCounted(e: Env, s: FsmStep, st: Run)
    requires KindOf(s.op).Composite? && st.ctl.Clear? && !st.reason.UnknownType?
    ensures var (go, r) := CompositeStep(e, s, st); IsCounted(st, r) && (go ==> !r.reason.UnknownType?)
    decreases Left(e, st), 4
  {
    match s.op
    case While(_, _) => WhileIsCounted(e, s, st);
    case For(_, source, _) => ForIsCounted(e, s, LoopValues(source, st.vars), st);
    case If(_, _) => BodyIsCounted(e, s, st);
    case Group(_) => BodyIsCounted(e, s, st);
  }

  lemma {:induction false} BodyIsCounted(e: Env, s: FsmStep, st: Run)
    requires (s.op.If? || s.op.Group?) && st.ctl.Clear? && !st.reason.UnknownType?
    ensures var (go, r) := BodyStep(e, s, st); IsCounted(st, r) && (go ==> !r.reason.UnknownType?)
    decreases Left(e, st), 3
  {
    PassIsCounted(e, s.op.body, EntryPoint(s.op.body), st);
  }

  lemma {:induction false} WhileIsCounted(e: Env, s: FsmStep, st: Run)
    requires s.op.While? && st.ctl.Clear? && !st.reason.UnknownType?
    ensures var (go, r) := WhileStep(e, s, st); IsCounted(st, r) && (go ==> !r.reason.UnknownType?)
    decreases Left(e, st), 3
  {
    if EvalCondition(e.text, s.op.condition, st.vars) && st.iterations < e.limit && EntryPoint(s.op.body) != "" {
      FsmProofs.WhilePass(e, s, st);
      FsmProofs.BodyOk(e, s.op.body, st);
      PassIsCounted(e, s.op.body, EntryPoint(s.op.body), st);
      var (code, st1) := RunBody(e, s.op.body, st);
      if code.Normal? || code.ContinueCode? {
        WhileIsCounted(e, s, st1);
      }
    }
  }

  lemma {:induction false} ForIsCounted(e: Env, s: FsmStep, values: seq<Value>, st: Run)
    requires s.op.For? && st.ctl.Clear? && !st.reason.UnknownType?
    ensures var (code, r) := ForPasses(e, s, values, st); IsCounted(st, r) && (!code.Stop? ==> !r.reason.UnknownType?)
    decreases Left(e, st), 2, |values|
  {
    if values != [] && st.iterations < e.limit {
      var st0 := st.(vars := st.vars[s.op.variable := values[0]]);
      FsmProofs.BodyOk(e, s.op.body, st0);
      PassIsCounted(e, s.op.body, EntryPoint(s.op.body), st0);
      var (code, st1) := RunBody(e, s.op.body, st0);
      if code.Normal? || code.ContinueCode? {
        ForIsCounted(e, s, values[1..], st1);
      }
    }
  }

  lemma {:induction false} PassIsCounted(e: Env, body: seq<FsmStep>, cur: string, st: Run)
    requires st.ctl.Clear? && !st.reason.UnknownType?
    ensures var (code, r) := BodyFrom(e, body, cur, st); IsCounted(st, r) && (!code.Stop? ==> !r.reason.UnknownType?)
    decreases Left(e, st), 0
  {
    var found := Find(body, cur);
    if cur != "" && st.iterations < e.limit && found.Some? {
      HandleIsCounted(e, body[found.value], st);
      var (go, st1) := Handle(e, body[found.value], Begin(st));
      if st1.ctl.Clear? && st1.status.Running? && go {
        PassIsCounted(e, body, st1.next, st1);
      }
    }
  }

  lemma {:induction false} RunIsCounted(e: Env, steps: seq<FsmStep>, cur: string, st: Run, k: nat)
    requires st.ctl.Clear? && !st.reason.UnknownType?
    ensures IsCounted(st, RunFrom(e, steps, cur, st, k))
    decreases Left(e, st), SignalsLeft(e, k), 1
  {
    if cur != "" && st.iterations < e.limit {
      if e.signals.None? {
        DispatchIsCounted(e, steps, cur, st, k);
      } else {
        var st1 := ApplyCheck(st, CheckAt(e, k));
        if !st1.paused {
          DispatchIsCounted(e, steps, cur, st1, k + 1);
        } else {
          WaitKeepsReason(e, st1, k + 1);
          var (st2, k2) := Wait(e, st1, k + 1);
          if st2.status.Running? {
            RunIsCounted(e, steps, cur, st2, k2);
          }
        }
      }
    }
  }

  lemma {:induction false} WaitKeepsReason(e: Env, st: Run, k: nat)
    requires e.signals.Some? && !st.reason.UnknownType?
    ensures !Wait(e, st, k).0.reason.UnknownType?
    decreases SignalsLeft(e, k), st.paused
  {
    if st.paused && st.status.Running? {
      WaitKeepsReason(e, ApplyCheck(st, CheckAt(e, k)), k + 1);
    }
  }

  lemma {:induction false} DispatchIsCounted(e: Env, steps: seq<FsmStep>, cur: string, st: Run, k: nat)
    requires st.ctl.Clear? && !st.reason.UnknownType? && cur != "" && st.iterations < e.limit
    ensures IsCounted(st, DispatchFrom(e, steps, cur, st, k))
    decreases Left(e, st), SignalsLeft(e, k), 0
  {
    var found := Find(steps, cur);
    if found.Some? {
      FsmProofs.HandleOk(e, steps[found.value], st);
      HandleIsCounted(e, steps[found.value], st);
      var (go, st1) := Handle(e, steps[found.value], Begin(st));
      if st1.status.Running? && go {
        RunIsCounted(e, steps, st1.next, st1, k);
      }
    }
  }

  /** Every run counts exactly one iteration per handler invoked, nested ones
      included, and one more if it ended at a step of unknown type; it reports
      the limit only when that many iterations have been spent. */
  lemma {:induction false} IterationsAreHandlers(
      e: Env, steps: seq<FsmStep>, msgs: seq<Message>, vars: Vars, start: string)
    ensures var r := Execute(e, steps, msgs, vars, start);
      && r.iterations == |r.trace| + (if r.reason.UnknownType? then 1 else 0)
      && (r.status.Running? ==> r.iterations < e.limit)
  {
    var cur := if start != "" then start else EntryPoint(steps);
    RunIsCounted(e, steps, cur, Start(msgs, vars), 0);
    var r := Execute(e, steps, msgs, vars, start);
    assert cur != "" ==> r == Finish(e, RunFrom(e, steps, cur, Start(msgs, vars), 0));
  }

  // ---- From the first step on ----

  /** The run `end` is what the visits, entered at `cur` in the state `st`, make of
      it: it ends with the last of them if that does not go on, goes on to
      nowhere, or spends the last iteration; else a kill ends it during a pause,
      or the step to go on at is missing. */
  ghost predicate EndsWith(e: Env, steps: seq<FsmStep>, vs: seq<Visit>, cur: string, st: Run, end: Run)
    requires forall v | v in vs :: v.step < |steps|
  {
    var (go, last) := if vs == [] then (true, st) else Handle(e, steps[vs[|vs| - 1].step], Begin(vs[|vs| - 1].before));
    var next := if vs == [] then cur else last.next;
    if !go || !last.status.Running? || next == "" || last.iterations >= e.limit then end == last
    else
      && OnlyChecked(last, end)
      && (e.signals.None? ==> end.vars == last.vars && end.paused == last.paused)
      && if end.status.Aborted? then e.signals.Some? && end.reason.KilledBySignal?
         else Find(steps, next).None? && end.status.Failed? && end.reason == StepMissing(next, false)
  }

  lemma {:induction false} MoreEndsWith(
      e: Env, steps: seq<FsmStep>, v: Visit, rest: seq<Visit>, cur: string, st: Run, end: Run)
    requires v.step < |steps| && forall w | w in rest :: w.step < |steps|
    requires var (go, st') := Handle(e, steps[v.step], Begin(v.before));
      go && st'.status.Running? && EndsWith(e, steps, rest, st'.next, st', end)
    ensures EndsWith(e, steps, [v] + rest, cur, st, end)
  {
    var vs := [v] + rest;
    if rest != [] {
      assert vs[|vs| - 1] == rest[|rest| - 1];
    }
  }

  lemma {:induction false} RunEnds(e: Env, steps: seq<FsmStep>, cur: string, st0: Run, st: Run, k: nat)
    requires OnlyChecked(st0, st) && st0.status.Running? && st.status.Running?
    requires e.signals.None? || cur == "" || st.iterations >= e.limit ==> st == st0
    ensures EndsWith(e, steps, Visits(e, steps, cur, st, k), cur, st0, RunFrom(e, steps, cur, st, k))
    decreases Left(e, st), SignalsLeft(e, k), 1
  {
    if cur != "" && st.iterations < e.limit {
      if e.signals.None? {
        DispatchEnds(e, steps, cur, st0, st, k);
      } else {
        var st1 := ApplyCheck(st, CheckAt(e, k));
        if !st1.paused {
          DispatchEnds(e, steps, cur, st0, st1, k + 1);
        } else {
          WaitOnlyChecks(e, st1, k + 1);
          var (st2, k2) := Wait(e, st1, k + 1);
          WaitReports(e, st1, k + 1);
          if st2.status.Running? {
            RunEnds(e, steps, cur, st0, st2, k2);
          }
        }
      }
    }
  }

  lemma {:induction false} WaitReports(e: Env, st: Run, k: nat)
    requires e.signals.Some? && (st.status.Running? || (st.status.Aborted? && st.reason.KilledBySignal?))
    ensures var st' := Wait(e, st, k).0; st'.status.Running? || (st'.status.Aborted? && st'.reason.KilledBySignal?)
    decreases SignalsLeft(e, k), st.paused
  {
    if st.paused && st.status.Running? {
      WaitReports(e, ApplyCheck(st, CheckAt(e, k)), k + 1);
    }
  }

  lemma {:induction false} DispatchEnds(e: Env, steps: seq<FsmStep>, cur: string, st0: Run, st: Run, k: nat)
    requires OnlyChecked(st0, st) && st0.status.Running? && cur != "" && st.iterations < e.limit
    requires e.signals.None? ==> st == st0
    ensures EndsWith(e, steps, VisitsFrom(e, steps, cur, st, k), cur, st0, DispatchFrom(e, steps, cur, st, k))
    decreases Left(e, st), SignalsLeft(e, k), 0
  {
    var found := Find(steps, cur);
    if found.Some? {
      var (go, st1) := Handle(e, steps[found.value], Begin(st));
      if st1.status.Running? && go {
        RunEnds(e, steps, st1.next, st1, st1, k);
        var rest := Visits(e, steps, st1.next, st1, k);
        MoreEndsWith(e, steps, Visit(found.value, st), rest, cur, st0, RunFrom(e, steps, st1.next, st1, k));
      } else {
        assert VisitsFrom(e, steps, cur, st, k) == [Visit(found.value, st)];
      }
    }
  }

  /** Every run starts at the step asked for, or else at the entry point, and
      fails if there is none; each step it dispatches after another is the one
      that names, given the answer it got, and finds what it left but for the
      effect of signals.  It ends where the last step does not lead on, and
      nothing else is dispatched. */
  lemma {:induction false} RunFollowsEdges(e: Env, steps: seq<FsmStep>, msgs: seq<Message>, vars: Vars, start: string)
      returns (first: string, vs: seq<Visit>, end: Run)
    ensures start != "" ==> first == start
    ensures start == "" ==> IsEntryPoint(steps, first)
    ensures forall v | v in vs :: v.step < |steps|
    ensures var st := Run(Running, vars, msgs, "", None, NoReason, 0, false, Clear, []);
      && StartsAt(e, steps, vs, first, st) && IsChain(e, steps, vs)
      && EndsWith(e, steps, vs, first, st, end) && end.trace == TraceAfter(e, steps, vs, st)
    ensures Execute(e, steps, msgs, vars, start) ==
      if first == "" then end.(status := Failed, reason := NoEntryPoint)
      else if end.status.Running? && end.iterations >= e.limit then
        end.(status := Failed, reason := LimitReached(e.limit))
      else end
  {
    first := if start != "" then start else EntryPoint(steps);
    EntryPointIsExact(steps, EntryPoint(steps));
    var st := Start(msgs, vars);
    vs, end := Visits(e, steps, first, st, 0), RunFrom(e, steps, first, st, 0);
    VisitsChain(e, steps, first, st, 0);
    TraceIsVisits(e, steps, first, st, 0);
    RunEnds(e, steps, first, st, st, 0);
  }
}
