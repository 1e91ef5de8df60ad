/** Which step a run of the flat executor takes next and what each step changes,
    said edge by edge and answer by answer. */
module DslEdges {
  import opened Wrappers
  import opened Workflow
  import opened Dsl

  // ---- What each step does ----

  /** What a call makes of the state `base` it is entered in: without the
      function it calls, and when that raises, the run fails. */
  ghost predicate IsCalled(
      f: Option<(DslStep, Vars, seq<Message>) -> Reply>, s: DslStep, base: Result, go: bool, r: Result)
  {
    && (go <==> f.Some? && f.value(s, base.vars, base.msgs).Answered?)
    && (go ==> r.next == s.next && Answered(r.vars, r.msgs) == f.value(s, base.vars, base.msgs))
    && (go ==> r.status == base.status && r.reason == base.reason)
    && (!go ==> r.status.Failed? && r.vars == base.vars && r.msgs == base.msgs && r.next == "")
    && (!go && f.None? ==> r.reason.NotConfigured?)
    && (!go && f.Some? ==>
         r.reason.CallError? && f.value(s, base.vars, base.msgs) == Raised(r.reason.error))
    && r.sleepSeconds == base.sleepSeconds && r.successor == base.successor && r.iterations == base.iterations
  }

  ghost predicate DoesItsPart(e: Env, s: DslStep, base: Result, go: bool, r: Result) {
    match s.op
    case LlmCall => IsCalled(e.llm, s, base, go, r)
    case ToolCall => IsCalled(e.tool, s, base, go, r)
    case Transform =>
      && go && (r.vars, r.msgs) == e.transform(s, base.vars, base.msgs)
      && r == base.(vars := r.vars, msgs := r.msgs, next := s.next)
    case Notify => go && r == base.(next := s.next)
    case Switch(variable) =>
      && go && r == base.(next := r.next)
      && IsChosen(e.text, s.branches, SwitchValue(e.text, variable, base.vars), s.default_, r.next)
    case Sleep(seconds) => !go && r == base.(status := Sleeping, sleepSeconds := Some(seconds), next := s.next)
    case End(status, successor) =>
      && !go && (r.status.Success? <==> status == "SUCCESS") && (r.status.Failed? <==> status != "SUCCESS")
      && r.reason == EndStatus(status)
      && r.successor == (if successor == "" || !e.hasSignal then base.successor else successor)
      && r == base.(status := r.status, reason := r.reason, successor := r.successor)
    case SignalSuccessor(successor) => go && r == base.(next := s.next, successor := successor)
    case SetVariable(name, value) =>
      go && r == base.(next := s.next, vars := base.vars[name := Str(e.text.resolve(value, base.vars))])
    case Unknown(stepType) => !go && r == base.(status := Failed, reason := UnknownType(stepType))
  }

  /** Every step, whatever it is answered, besides costing an iteration. */
  lemma {:induction false} StepTable(e: Env, s: DslStep, r: Result)
    ensures var (go, r') := Handle(e, s, Begin(r));
      DoesItsPart(e, s, r.(iterations := r.iterations + 1, next := ""), go, r')
  {
    if s.op.Switch? {
      SwitchTable(e.text, s.branches, s.default_, s.op.variable, r.vars);
    }
  }

  /** The step `s`, run in the state `r`, names `id` as its successor. */
  ghost predicate Names(e: Env, s: DslStep, r: Result, id: string) {
    match s.op
    case LlmCall => id == s.next && e.llm.Some? && e.llm.value(s, r.vars, r.msgs).Answered?
    case ToolCall => id == s.next && e.tool.Some? && e.tool.value(s, r.vars, r.msgs).Answered?
    case Switch(variable) => IsChosen(e.text, s.branches, SwitchValue(e.text, variable, r.vars), s.default_, id)
    case Sleep(_) => false
    case End(_, _) => false
    case Unknown(_) => false
    case _ => id == s.next
  }

  lemma {:induction false} GoesToNamed(e: Env, s: DslStep, r: Result)
    ensures var (go, r') := Handle(e, s, Begin(r)); go ==> Names(e, s, r, r'.next)
  {
    StepTable(e, s, r);
  }

  // ---- Runs ----

  /** A step run, and the state it found. */
  datatype Visit = Visit(step: nat, before: Result)

  function Visits(e: Env, steps: seq<DslStep>, cur: string, r: Result): (vs: seq<Visit>)
    ensures forall v | v in vs :: v.step < |steps|
    decreases Left(e, r)
  {
    if cur == "" || r.iterations >= e.limit || Find(steps, cur).None? then []
    else
      var i := Find(steps, cur).value;
      HandleKeepsCount(e, steps[i], Begin(r));
      var (go, r1) := Handle(e, steps[i], Begin(r));
      [Visit(i, r)] + if r1.status.Running? && go then Visits(e, steps, r1.next, r1) else []
  }

  /** Whether the run may go on after a visit, and the state it leaves. */
  function AfterVisit(e: Env, steps: seq<DslStep>, v: Visit): Outcome
    requires v.step < |steps|
  {
    Handle(e, steps[v.step], Begin(v.before))
  }

  /** The second visit is to the step the first one names, and finds what it left. */
  ghost predicate Links(e: Env, steps: seq<DslStep>, v: Visit, w: Visit)
    requires v.step < |steps|
  {
    && Names(e, steps[v.step], v.before, w.before.next)
    && Find(steps, w.before.next) == Some(w.step)
    && AfterVisit(e, steps, v) == (true, w.before)
  }

  ghost predicate IsChain(e: Env, steps: seq<DslStep>, vs: seq<Visit>)
    requires forall v | v in vs :: v.step < |steps|
  {
    |vs| >= 2 ==> Links(e, steps, vs[0], vs[1]) && IsChain(e, steps, vs[1..])
  }

  lemma {:induction false} VisitsChain(e: Env, steps: seq<DslStep>, cur: string, r: Result)
    ensures var vs := Visits(e, steps, cur, r);
      (vs != [] ==> vs[0].before == r && Find(steps, cur) == Some(vs[0].step)) && IsChain(e, steps, vs)
    decreases Left(e, r)
  {
    var vs := Visits(e, steps, cur, r);
    if vs != [] {
      var i := Find(steps, cur).value;
      HandleKeepsCount(e, steps[i], Begin(r));
      var (go, r1) := Handle(e, steps[i], Begin(r));
      if r1.status.Running? && go {
        VisitsChain(e, steps, r1.next, r1);
        GoesToNamed(e, steps[i], r);
        assert vs[1..] == Visits(e, steps, r1.next, r1);
      }
    }
  }

  /** The run `end` is what the visits, entered at `cur` in the state `r`, make of
      it: it ends with the last of them if that does not go on, goes on to
      nowhere, or spends the last iteration; else the step to go on at is
      missing. */
  ghost predicate EndsWith(e: Env, steps: seq<DslStep>, vs: seq<Visit>, cur: string, r: Result, end: Result)
    requires forall v | v in vs :: v.step < |steps|
  {
    var (go, last) := if vs == [] then (true, r) else AfterVisit(e, steps, vs[|vs| - 1]);
    var next := if vs == [] then cur else last.next;
    if !go || next == "" || last.iterations >= e.limit then end == last
    else Find(steps, next).None? && end == last.(status := Failed, reason := StepMissing(next))
  }

  lemma {:induction false} RunIsVisits(e: Env, steps: seq<DslStep>, cur: string, r: Result)
    requires r.status.Running?
    ensures var vs, end := Visits(e, steps, cur, r), RunFrom(e, steps, cur, r);
      EndsWith(e, steps, vs, cur, r, end) && end.iterations == r.iterations + |vs|
    decreases Left(e, r)
  {
    var vs := Visits(e, steps, cur, r);
    if vs != [] {
      var i := Find(steps, cur).value;
      HandleKeepsCount(e, steps[i], Begin(r));
      var (go, r1) := Handle(e, steps[i], Begin(r));
      if r1.status.Running? && go {
        RunIsVisits(e, steps, r1.next, r1);
        var rest := Visits(e, steps, r1.next, r1);
        assert rest != [] ==> vs[|vs| - 1] == rest[|rest| - 1];
      } else {
        assert vs == [Visit(i, r)];
      }
    }
  }

  /** Every run starts at the step asked for, or else at the entry point, and
      fails if there is none; each step it runs after another is the one that
      names, given the answer it got, and finds what it left.  It ends where
      the last step does not lead on, having spent one iteration on each, and
      reports the limit only when that is spent. */
  lemma {:induction false} RunFollowsEdges(e: Env, steps: seq<DslStep>, msgs: seq<Message>, vars: Vars, start: string)
      returns (first: string, vs: seq<Visit>, end: Result)
    ensures start != "" ==> first == start
    ensures start == "" ==> IsEntryPoint(steps, first)
    ensures forall v | v in vs :: v.step < |steps|
    ensures vs != [] ==>
      Find(steps, first) == Some(vs[0].step) && vs[0].before == Result(Running, vars, msgs, "", None, "", NoReason, 0)
    ensures IsChain(e, steps, vs)
    ensures EndsWith(e, steps, vs, first, Result(Running, vars, msgs, "", None, "", NoReason, 0), end)
    ensures var r := Execute(e, steps, msgs, vars, start);
      && r.iterations == |vs|
      && r == if first == "" then end.(status := Failed, reason := NoEntryPoint)
              else if !end.status.Running? || |vs| < e.limit then end
              else end.(status := Failed, reason := LimitReached(e.limit))
  {
    first := FirstStep(steps, start);
    EntryPointIsExact(steps, EntryPoint(steps));
    var r := Start(msgs, vars);
    vs, end := Visits(e, steps, first, r), RunFrom(e, steps, first, r);
    VisitsChain(e, steps, first, r);
    RunIsVisits(e, steps, first, r);
  }
}
