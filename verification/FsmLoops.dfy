/** The meaning of the loops of the interpreter: splitting, unrolling, and what
    `break` and `continue` end. */
module FsmLoops {
  import opened Wrappers
  import opened Workflow
  import opened Fsm
  import FsmProofs

  // ---- `for` ----

  /** The passes over xs + ys are those over xs, followed, unless a break or a
      stop ended them, by those over ys. */
  lemma {:induction false} ForAppend(e: Env, s: FsmStep, xs: seq<Value>, ys: seq<Value>, st: Run)
    requires s.op.For?
    ensures var (code, st1) := ForPasses(e, s, xs, st);
      ForPasses(e, s, xs + ys, st) == if code.Normal? then ForPasses(e, s, ys, st1) else (code, st1)
    decreases |xs|
  {
    if xs == [] {
      assert xs + ys == ys;
    } else {
      assert (xs + ys)[1..] == xs[1..] + ys;
      if st.iterations < e.limit {
        var (code, st1) := RunBody(e, s.op.body, st.(vars := st.vars[s.op.variable := xs[0]]));
        if code.Normal? || code.ContinueCode? {
          ForAppend(e, s, xs[1..], ys, st1);
        }
      }
    }
  }

  /** Equal but for the successor field. */
  ghost predicate SameButNext(st: Run, st': Run) {
    st'.(next := st.next) == st
  }

  /** The successor left by an earlier step has no influence on a pass, except
      that a pass which ends before dispatching anything still carries it. */
  lemma {:induction false} PassIgnoresNext(e: Env, body: seq<FsmStep>, st: Run, st': Run)
    requires SameButNext(st, st')
    ensures var r, r' := RunBody(e, body, st), RunBody(e, body, st'); r.0 == r'.0 && SameButNext(r.1, r'.1)
  {
    BodyIgnoresNext(e, body, EntryPoint(body), st, st');
  }

  lemma {:induction false} BodyIgnoresNext(e: Env, body: seq<FsmStep>, cur: string, st: Run, st': Run)
    requires SameButNext(st, st')
    ensures var r, r' := BodyFrom(e, body, cur, st), BodyFrom(e, body, cur, st'); r.0 == r'.0 && SameButNext(r.1, r'.1)
  {
    if cur != "" && st.iterations < e.limit && Find(body, cur).Some? {
      assert Begin(st) == Begin(st');
      assert BodyFrom(e, body, cur, st) == BodyFrom(e, body, cur, st');
    }
  }

  lemma {:induction false} NextIsIrrelevant(e: Env, s: FsmStep, values: seq<Value>, st: Run, st': Run)
    requires s.op.For? && SameButNext(st, st')
    ensures var r, r' := ForPasses(e, s, values, st), ForPasses(e, s, values, st');
      r.0 == r'.0 && SameButNext(r.1, r'.1)
    decreases |values|
  {
    if values != [] && st.iterations < e.limit {
      var st0 := st.(vars := st.vars[s.op.variable := values[0]]);
      var st0' := st'.(vars := st'.vars[s.op.variable := values[0]]);
      PassIgnoresNext(e, s.op.body, st0, st0');
      var (code, st1) := RunBody(e, s.op.body, st0);
      var (code', st1') := RunBody(e, s.op.body, st0');
      if code.Normal? || code.ContinueCode? {
        NextIsIrrelevant(e, s, values[1..], st1, st1');
      }
    }
  }

  function WithItems(s: FsmStep, values: seq<Value>): FsmStep
    requires s.op.For?
  {
    s.(op := For(s.op.variable, Items(values), s.op.body))
  }

  /** The handlers of a loop depend on the step only through its fields. */
  lemma {:induction false} ItemsAreIrrelevant(e: Env, s: FsmStep, values: seq<Value>, st: Run, items: seq<Value>)
    requires s.op.For?
    ensures ForPasses(e, WithItems(s, items), values, st) == ForPasses(e, s, values, st)
    decreases |values|
  {
    if values != [] && st.iterations < e.limit {
      var (code, st1) := RunBody(e, s.op.body, st.(vars := st.vars[s.op.variable := values[0]]));
      if code.Normal? || code.ContinueCode? {
        ItemsAreIrrelevant(e, s, values[1..], st1, items);
      }
    }
  }

  /** A `for` step over xs + ys leaves the same state, but for the successor
      field, as one over xs followed by one over ys; if the first was broken
      or stopped, it is the first alone. */
  lemma {:induction false} ForStepSplits(e: Env, s: FsmStep, xs: seq<Value>, ys: seq<Value>, st: Run)
    requires s.op.For?
    ensures var whole := CompositeStep(e, WithItems(s, xs + ys), st);
      var first := CompositeStep(e, WithItems(s, xs), st);
      if ForPasses(e, s, xs, st).0.Normal? then
        var second := CompositeStep(e, WithItems(s, ys), first.1);
        whole.0 == second.0 && SameButNext(whole.1, second.1)
      else whole == first
  {
    ItemsAreIrrelevant(e, s, xs + ys, st, xs + ys);
    ItemsAreIrrelevant(e, s, xs, st, xs);
    ForAppend(e, s, xs, ys, st);
    var (code, st1) := ForPasses(e, s, xs, st);
    var whole := ForStep(e, WithItems(s, xs + ys), xs + ys, st);
    var first := ForStep(e, WithItems(s, xs), xs, st);
    assert CompositeStep(e, WithItems(s, xs + ys), st) == whole;
    assert CompositeStep(e, WithItems(s, xs), st) == first;
    if code.Normal? {
      assert first.1 == st1.(next := s.next);
      ItemsAreIrrelevant(e, s, ys, first.1, ys);
      NextIsIrrelevant(e, s, ys, st1, first.1);
      assert CompositeStep(e, WithItems(s, ys), first.1) == ForStep(e, WithItems(s, ys), ys, first.1);
    }
  }

  // ---- `while` ----

  /** The states of a `while` at the start of its successive passes, every one
      of which but the last began with the condition true and fell through. */
  ghost predicate Passes(e: Env, s: FsmStep, states: seq<Run>)
    requires s.op.While?
  {
    states != [] && forall i | 0 <= i < |states| - 1 :: FallsThrough(e, s, states[i], states[i + 1])
  }

  ghost predicate FallsThrough(e: Env, s: FsmStep, st: Run, st': Run)
    requires s.op.While?
  {
    && EvalCondition(e.text, s.op.condition, st.vars)
    && st.iterations < e.limit
    && EntryPoint(s.op.body) != ""
    && (RunBody(e, s.op.body, st) == (Normal, st') || RunBody(e, s.op.body, st) == (ContinueCode, st'))
  }

  /** How a `while` ends that is about to start a pass in the state `st`, when
      it does end there. */
  ghost predicate EndsWith(e: Env, s: FsmStep, st: Run, r: Outcome)
    requires s.op.While?
  {
    if !EvalCondition(e.text, s.op.condition, st.vars) then r == Proceed(st, s.next)
    else if st.iterations >= e.limit then r == (false, LimitFailure(e, st))
    else
      var (code, st1) := RunBody(e, s.op.body, st);
      (code.Stop? && r == (false, st1)) || (code.BreakCode? && r == Proceed(st1, s.next))
  }

  /** Unrolling: a `while` may be resumed from the start of any of its passes. */
  lemma {:induction false} WhileUnrolls(e: Env, s: FsmStep, states: seq<Run>)
    requires s.op.While? && Passes(e, s, states)
    ensures WhileStep(e, s, states[0]) == WhileStep(e, s, states[|states| - 1])
    decreases |states|
  {
    if |states| > 1 {
      assert FallsThrough(e, s, states[0], states[1]);
      forall i | 0 <= i < |states[1..]| - 1
        ensures FallsThrough(e, s, states[1..][i], states[1..][i + 1])
      {
        assert FallsThrough(e, s, states[i + 1], states[i + 2]);
      }
      WhileUnrolls(e, s, states[1..]);
      assert states[1..][0] == states[1];
      assert states[1..][|states[1..]| - 1] == states[|states| - 1];
    }
  }

  lemma {:induction false} OnePassMore(e: Env, s: FsmStep, st: Run, states: seq<Run>)
    requires s.op.While? && Passes(e, s, states) && FallsThrough(e, s, st, states[0])
    ensures Passes(e, s, [st] + states)
  {
    var all := [st] + states;
    forall i | 0 <= i < |all| - 1
      ensures FallsThrough(e, s, all[i], all[i + 1])
    {
      if i > 0 {
        assert FallsThrough(e, s, states[i - 1], states[i]);
      }
    }
  }

  /** Every `while` whose body has an entry point is such a chain of passes,
      no longer than the iterations it consumed, followed by one of the four
      endings; so its outcome is determined by the passes alone. */
  lemma {:induction false} WhileHistory(e: Env, s: FsmStep, st: Run) returns (states: seq<Run>)
    requires s.op.While? && EntryPoint(s.op.body) != ""
    ensures Passes(e, s, states) && states[0] == st
    ensures EndsWith(e, s, states[|states| - 1], WhileStep(e, s, st))
    ensures |states| - 1 <= WhileStep(e, s, st).1.iterations - st.iterations
    decreases Left(e, st)
  {
    states := [st];
    if EvalCondition(e.text, s.op.condition, st.vars) && st.iterations < e.limit {
      FsmProofs.WhilePass(e, s, st);
      var (code, st1) := RunBody(e, s.op.body, st);
      if code.Normal? || code.ContinueCode? {
        var rest := WhileHistory(e, s, st1);
        OnePassMore(e, s, st, rest);
        states := [st] + rest;
        assert states[|states| - 1] == rest[|rest| - 1];
      }
    }
  }

  // ---- What `break` and `continue` end ----

  /** The steps a body dispatches itself, in order, as positions in it. */
  function Itinerary(e: Env, body: seq<FsmStep>, cur: string, st: Run): (path: seq<nat>)
    ensures forall i | 0 <= i < |path| :: path[i] < |body|
    decreases Left(e, st)
  {
    if cur == "" || st.iterations >= e.limit || Find(body, cur).None? then []
    else
      var i := Find(body, cur).value;
      var (go, st1) := Handle(e, body[i], Begin(st));
      if st1.ctl.Clear? && st1.status.Running? && go then [i] + Itinerary(e, body, st1.next, st1) else [i]
  }

  /** A body is broken exactly when the last step it dispatched itself is a
      `break`, and continued exactly when that step is a `continue`: no flag
      comes up from a nested body or is left over from an earlier step. */
  lemma {:induction false} ControlIsDirect(e: Env, body: seq<FsmStep>, cur: string, st: Run)
    requires st.ctl.Clear?
    ensures var (code, st1) := BodyFrom(e, body, cur, st);
      var path := Itinerary(e, body, cur, st);
      && st1.ctl.Clear?
      && (code.BreakCode? <==> path != [] && body[path[|path| - 1]].op.Break?)
      && (code.ContinueCode? <==> path != [] && body[path[|path| - 1]].op.Continue?)
    decreases Left(e, st)
  {
    if cur != "" && st.iterations < e.limit && Find(body, cur).Some? {
      var i := Find(body, cur).value;
      FsmProofs.HandleOk(e, body[i], st);
      var (go, st1) := Handle(e, body[i], Begin(st));
      if st1.ctl.Clear? && st1.status.Running? && go {
        ControlIsDirect(e, body, st1.next, st1);
        var rest := Itinerary(e, body, st1.next, st1);
        assert Itinerary(e, body, cur, st) == [i] + rest;
        if rest == [] {
          assert !body[i].op.Break? && !body[i].op.Continue?;
        }
      }
    }
  }

  lemma {:induction false} UnbrokenBody(e: Env, body: seq<FsmStep>, st: Run)
    requires st.ctl.Clear? && forall b | b in body :: !b.op.Break?
    ensures var r := RunBody(e, body, st); !r.0.BreakCode? && r.1.ctl.Clear?
  {
    ControlIsDirect(e, body, EntryPoint(body), st);
    assert RunBody(e, body, st) == BodyFrom(e, body, EntryPoint(body), st);
  }

  /** A `while` that goes on to its successor has a false condition, unless a
      `break` stands directly in its body: one inside an `if` or a `group` of
      that body does not leave the loop. */
  lemma {:induction false} WhileEndsOnFalse(e: Env, s: FsmStep, st: Run)
    requires s.op.While? && st.ctl.Clear? && forall b | b in s.op.body :: !b.op.Break?
    ensures var (go, st1) := WhileStep(e, s, st);
      go ==> !EvalCondition(e.text, s.op.condition, st1.vars)
    decreases Left(e, st)
  {
    if EvalCondition(e.text, s.op.condition, st.vars) && st.iterations < e.limit && EntryPoint(s.op.body) != "" {
      UnbrokenBody(e, s.op.body, st);
      var (code, st1) := RunBody(e, s.op.body, st);
      if code.Normal? || code.ContinueCode? {
        WhileEndsOnFalse(e, s, st1);
      }
    }
  }

  /** A `for` without a direct `break` passes over all its values unless the
      run stops. */
  lemma {:induction false} ForTakesAllValues(e: Env, s: FsmStep, values: seq<Value>, st: Run)
    requires s.op.For? && st.ctl.Clear? && forall b | b in s.op.body :: !b.op.Break?
    ensures !ForPasses(e, s, values, st).0.BreakCode?
    decreases |values|
  {
    if values != [] && st.iterations < e.limit {
      var st0 := st.(vars := st.vars[s.op.variable := values[0]]);
      UnbrokenBody(e, s.op.body, st0);
      var (code, st1) := RunBody(e, s.op.body, st0);
      if code.Normal? || code.ContinueCode? {
        ForTakesAllValues(e, s, values[1..], st1);
      }
    }
  }

  /** The body in which every direct `break` has become a `continue`. */
  function AsContinue(body: seq<FsmStep>): (r: seq<FsmStep>)
    ensures |r| == |body|
    ensures forall i | 0 <= i < |body| :: r[i] == if body[i].op.Break? then body[i].(op := Continue) else body[i]
    ensures SameEdges(body, r)
  {
    seq(|body|, i requires 0 <= i < |body| => if body[i].op.Break? then body[i].(op := Continue) else body[i])
  }

  /** Replacing the breaks of a body by continues changes the code it returns
      and nothing else. */
  lemma {:induction false} BreakAsContinue(e: Env, body: seq<FsmStep>, cur: string, st: Run)
    requires st.ctl.Clear?
    ensures var r, r' := BodyFrom(e, body, cur, st), BodyFrom(e, AsContinue(body), cur, st);
      r'.1 == r.1 && r'.0 == if r.0.BreakCode? then ContinueCode else r.0
    decreases Left(e, st)
  {
    SameFind(body, AsContinue(body), cur);
    if cur != "" && st.iterations < e.limit && Find(body, cur).Some? {
      var i := Find(body, cur).value;
      FsmProofs.HandleOk(e, body[i], st);
      var (go, st1) := Handle(e, body[i], Begin(st));
      if st1.ctl.Clear? && st1.status.Running? && go {
        BreakAsContinue(e, body, st1.next, st1);
      }
    }
  }

  function WithBody(s: FsmStep, body: seq<FsmStep>): FsmStep
    requires s.op.If? || s.op.Group?
  {
    s.(op := if s.op.If? then If(s.op.condition, body) else Group(body))
  }

  /** In an `if` or a `group`, a `break` and a `continue` do the same: they end
      that body, and the enclosing loop never notices. */
  lemma {:induction false} BreakInsideIfIsContinue(e: Env, s: FsmStep, st: Run)
    requires (s.op.If? || s.op.Group?) && st.ctl.Clear?
    ensures CompositeStep(e, WithBody(s, AsContinue(s.op.body)), st) == CompositeStep(e, s, st)
  {
    var body := s.op.body;
    var s' := WithBody(s, AsContinue(body));
    SameEntryPoint(body, AsContinue(body));
    BreakAsContinue(e, body, EntryPoint(body), st);
    assert RunBody(e, body, st) == BodyFrom(e, body, EntryPoint(body), st);
    assert RunBody(e, AsContinue(body), st) == BodyFrom(e, AsContinue(body), EntryPoint(body), st);
    assert BodyStep(e, s', st) == BodyStep(e, s, st);
  }
}
