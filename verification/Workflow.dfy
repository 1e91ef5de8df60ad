/** What the two workflow executors share: variables, conditions, and the
    lookup of steps by identifier.  An absent identifier (Python's `None`) and
    the empty one are both written "", since every use tests truthiness only. */
module Workflow {
  import opened Wrappers

  /** A workflow variable.  A value of a type the executors never inspect is
      `Other`, known only by its truthiness and its text. */
  datatype Value =
    | Null
    | Bool(b: bool)
    | Int(i: int)
    | Str(s: string)
    | List(items: seq<Value>)
    | Other(truth: bool, repr: string)

  type Vars = map<string, Value>

  datatype Message = Message(role: string, content: string)

  /** Python's text conversions, kept abstract: `str` on a value that is not
      already text, `lower`, `float` on text, and `{{name}}` substitution. */
  datatype Text = Text(
    show: Value -> string,
    lower: string -> string,
    number: string -> Option<real>,
    resolve: (string, Vars) -> string)

  datatype Operator = Equals | NotEquals | Contains | Greater | Less | Truthy | Unsupported

  /** `{variable, operator, value}`; the last two may be missing. */
  datatype Condition = Condition(variable: string, operator: Option<Operator>, value: Option<Value>)

  /** One entry of a switch. */
  datatype Branch = Branch(operator: Operator, value: Value, next: string)

  /** A step: the edges every step type may carry, and what it does. */
  datatype Step<Op> = Step(id: string, next: string, branches: seq<Branch>, default_: string, op: Op)

  // ---- Conditions ----

  function Show(t: Text, v: Value): string {
    match v
    case Str(s) => s
    case _ => t.show(v)
  }

  predicate IsTruthy(v: Value) {
    match v
    case Null => false
    case Bool(b) => b
    case Int(i) => i != 0
    case Str(s) => s != ""
    case List(items) => items != []
    case Other(truth, _) => truth
  }

  predicate OccursAt(part: string, whole: string, i: nat) {
    i + |part| <= |whole| && whole[i..i + |part|] == part
  }

  predicate IsSubstring(part: string, whole: string) {
    exists i | 0 <= i <= |whole| :: OccursAt(part, whole, i)
  }

  /** The comparison shared by `_eval_condition` and the switch steps. */
  predicate Compare(t: Text, op: Operator, left: string, right: string) {
    match op
    case Equals => left == right
    case NotEquals => left != right
    case Contains => IsSubstring(right, left)
    case Greater => t.number(left).Some? && t.number(right).Some? && t.number(left).value > t.number(right).value
    case Less => t.number(left).Some? && t.number(right).Some? && t.number(left).value < t.number(right).value
    case Truthy => false
    case Unsupported => false
  }

  /** What each comparison means; whatever is not a number compares with
      nothing, and an unknown operator holds of nothing. */
  lemma {:induction false} CompareTable(t: Text, left: string, right: string)
    ensures Compare(t, Equals, left, right) <==> left == right
    ensures Compare(t, NotEquals, left, right) <==> left != right
    ensures Compare(t, Contains, left, right) <==> exists before, after :: left == before + right + after
    ensures Compare(t, Greater, left, right) <==>
      exists a, b :: t.number(left) == Some(a) && t.number(right) == Some(b) && a > b
    ensures Compare(t, Less, left, right) <==>
      exists a, b :: t.number(left) == Some(a) && t.number(right) == Some(b) && a < b
    ensures !Compare(t, Unsupported, left, right)
  {
    if IsSubstring(right, left) {
      var i :| 0 <= i <= |left| && OccursAt(right, left, i);
      assert left == left[..i] + right + left[i + |right|..];
    }
    forall before: string, after: string | left == before + right + after
      ensures IsSubstring(right, left)
    {
      assert OccursAt(right, left, |before|);
    }
  }

  function Lookup(vars: Vars, name: string): Value {
    if name in vars then vars[name] else Str("")
  }

  /** `_eval_condition`: a missing condition is false, a condition without a
      value tests truthiness, and textual "false" and "0" count as false. */
  predicate EvalCondition(t: Text, cond: Option<Condition>, vars: Vars) {
    cond.Some? &&
    var c := cond.value;
    var raw := Lookup(vars, c.variable);
    var op := c.operator.GetOr(if c.value.None? then Truthy else Equals);
    if op.Truthy? then
      IsTruthy(raw) && t.lower(Show(t, raw)) !in {"false", "0", ""}
    else
      Compare(t, op, Show(t, raw), Show(t, c.value.GetOr(Str(""))))
  }

  /** The readings of a condition: none is false; one without operator compares
      for equality if it has a value; one on truth looks at the value and, in
      lower case, at its text. */
  lemma {:induction false} ConditionTable(t: Text, c: Condition, vars: Vars)
    ensures !EvalCondition(t, None, vars)
    ensures var raw := if c.variable in vars then vars[c.variable] else Str("");
      var text := if raw.Str? then raw.s else t.show(raw);
      && (c.operator == Some(Truthy) || (c.operator.None? && c.value.None?) ==>
        (EvalCondition(t, Some(c), vars) <==>
          IsTruthy(raw) && t.lower(text) != "false" && t.lower(text) != "0" && t.lower(text) != ""))
      && (c.operator.None? && c.value.Some? ==>
        (EvalCondition(t, Some(c), vars) <==> text == Show(t, c.value.value)))
      && (c.operator.Some? && c.operator != Some(Truthy) ==>
        (EvalCondition(t, Some(c), vars) <==>
          Compare(t, c.operator.value, text, if c.value.Some? then Show(t, c.value.value) else "")))
  {}

  predicate Matches(t: Text, b: Branch, value: string) {
    Compare(t, b.operator, value, Show(t, b.value))
  }

  /** The successor chosen by a switch: that of the first branch that matches. */
  function SwitchTarget(t: Text, branches: seq<Branch>, value: string, default_: string): (next: string)
    ensures (exists i | 0 <= i < |branches| ::
               && Matches(t, branches[i], value)
               && (forall j | 0 <= j < i :: !Matches(t, branches[j], value))
               && next == branches[i].next)
            || ((forall i | 0 <= i < |branches| :: !Matches(t, branches[i], value)) && next == default_)
  {
    if branches == [] then default_
    else if Matches(t, branches[0], value) then branches[0].next
    else SwitchTarget(t, branches[1..], value, default_)
  }

  /** `next` is the edge of the first branch whose comparison holds, or the
      default if none does. */
  ghost predicate IsChosen(t: Text, branches: seq<Branch>, value: string, default_: string, next: string) {
    || (exists i :: 0 <= i < |branches| && IsFirstMatch(t, branches, value, i) && next == branches[i].next)
    || (next == default_ && forall i | 0 <= i < |branches| :: !Holds(t, branches[i], value))
  }

  ghost predicate IsFirstMatch(t: Text, branches: seq<Branch>, value: string, i: nat)
    requires i < |branches|
  {
    Holds(t, branches[i], value) && forall j | 0 <= j < i :: !Holds(t, branches[j], value)
  }

  ghost predicate Holds(t: Text, b: Branch, value: string) {
    Compare(t, b.operator, value, if b.value.Str? then b.value.s else t.show(b.value))
  }

  /** The text a switch compares. */
  function SwitchValue(t: Text, variable: string, vars: Vars): string {
    if variable !in vars then ""
    else match vars[variable] case Str(s) => s case v => t.show(v)
  }

  lemma {:induction false} SwitchTable(
      t: Text, branches: seq<Branch>, default_: string, variable: string, vars: Vars)
    ensures IsChosen(t, branches, SwitchValue(t, variable, vars), default_,
              SwitchTarget(t, branches, Show(t, Lookup(vars, variable)), default_))
  {
    var value := Show(t, Lookup(vars, variable));
    assert value == SwitchValue(t, variable, vars);
    assert forall i | 0 <= i < |branches| :: Holds(t, branches[i], value) == Matches(t, branches[i], value);
    var next := SwitchTarget(t, branches, value, default_);
    if i :| 0 <= i < |branches| && Matches(t, branches[i], value)
            && (forall j | 0 <= j < i :: !Matches(t, branches[j], value)) && next == branches[i].next {
      assert IsFirstMatch(t, branches, value, i);
    }
  }

  // ---- Steps by identifier ----

  /** The identifiers some step of the list points to; error branches are not
      looked at. */
  function Referenced<Op>(steps: seq<Step<Op>>): (ids: set<string>)
    ensures forall id :: id in ids <==> id != "" && exists i :: 0 <= i < |steps| && PointsTo(steps[i], id)
  {
    if steps == [] then {}
    else
      var last := steps[|steps| - 1];
      var ids := Referenced(steps[..|steps| - 1]) + StepTargets(last);
      assert forall id :: id in ids ==> exists i :: 0 <= i < |steps| && PointsTo(steps[i], id) by {
        forall id | id in ids
          ensures exists i :: 0 <= i < |steps| && PointsTo(steps[i], id)
        {
          if id in StepTargets(last) {
            assert PointsTo(steps[|steps| - 1], id);
          } else {
            var i :| 0 <= i < |steps| - 1 && PointsTo(steps[..|steps| - 1][i], id);
            assert PointsTo(steps[i], id);
          }
        }
      }
      assert forall id, i :: id != "" && 0 <= i < |steps| && PointsTo(steps[i], id) ==> id in ids by {
        forall id, i | id != "" && 0 <= i < |steps| && PointsTo(steps[i], id)
          ensures id in ids
        {
          if i < |steps| - 1 {
            assert PointsTo(steps[..|steps| - 1][i], id);
          }
        }
      }
      ids
  }

  predicate PointsTo<Op>(s: Step<Op>, id: string) {
    s.next == id || s.default_ == id || exists b :: b in s.branches && b.next == id
  }

  function StepTargets<Op>(s: Step<Op>): (ids: set<string>)
    ensures forall id :: id in ids <==> id != "" && PointsTo(s, id)
  {
    (set b | b in s.branches && b.next != "" :: b.next)
    + (if s.next == "" then {} else {s.next})
    + (if s.default_ == "" then {} else {s.default_})
  }

  /** The first step of the list that lies outside `ids`, or |steps|. */
  function FirstOutside<Op>(steps: seq<Step<Op>>, ids: set<string>): (i: nat)
    ensures i <= |steps|
    ensures i < |steps| ==> steps[i].id !in ids
    ensures forall j :: 0 <= j < i ==> steps[j].id in ids
  {
    if steps == [] || steps[0].id !in ids then 0 else 1 + FirstOutside(steps[1..], ids)
  }

  /** Some step of the list points to the identifier. */
  ghost predicate IsPointedTo<Op>(steps: seq<Step<Op>>, id: string) {
    id != "" && exists i :: 0 <= i < |steps| && PointsTo(steps[i], id)
  }

  /** The step `i` is the first that nothing points to. */
  ghost predicate IsFirstFree<Op>(steps: seq<Step<Op>>, i: nat) {
    && i < |steps| && !IsPointedTo(steps, steps[i].id)
    && forall j | 0 <= j < i :: IsPointedTo(steps, steps[j].id)
  }

  /** What `_find_entry_point` promises: the first step nothing points to; when
      every step is pointed to, the first one; nothing for no steps. */
  ghost predicate IsEntryPoint<Op>(steps: seq<Step<Op>>, id: string) {
    || (steps == [] && id == "")
    || (exists i: nat :: IsFirstFree(steps, i) && id == steps[i].id)
    || (steps != [] && id == steps[0].id && forall i | 0 <= i < |steps| :: IsPointedTo(steps, steps[i].id))
  }

  function EntryPoint<Op>(steps: seq<Step<Op>>): string {
    var i := FirstOutside(steps, Referenced(steps));
    if i < |steps| then steps[i].id
    else if steps != [] then steps[0].id
    else ""
  }

  /** The promise is kept, and no other identifier would keep it. */
  lemma {:induction false} EntryPointIsExact<Op>(steps: seq<Step<Op>>, id: string)
    ensures IsEntryPoint(steps, id) <==> id == EntryPoint(steps)
  {
    var i := FirstOutside(steps, Referenced(steps));
    assert forall k | 0 <= k < |steps| :: steps[k].id in Referenced(steps) <==> IsPointedTo(steps, steps[k].id);
    if i < |steps| {
      assert IsFirstFree(steps, i);
      assert forall k: nat :: IsFirstFree(steps, k) ==> k == i;
    } else {
      assert forall k: nat :: !IsFirstFree(steps, k);
    }
  }

  /** The step an identifier designates; among duplicates the last one wins,
      as in the dictionary built by the executors. */
  function Find<Op>(steps: seq<Step<Op>>, id: string): (i: Option<nat>)
    ensures i.Some? ==> i.value < |steps| && steps[i.value].id == id
                        && forall j :: i.value < j < |steps| ==> steps[j].id != id
    ensures i.None? ==> forall j :: 0 <= j < |steps| ==> steps[j].id != id
  {
    if steps == [] then None
    else if steps[|steps| - 1].id == id then Some(|steps| - 1)
    else Find(steps[..|steps| - 1], id)
  }

  // ---- Step lists with the same edges ----

  ghost predicate SameEdges<Op, Op'>(steps: seq<Step<Op>>, steps': seq<Step<Op'>>) {
    |steps| == |steps'| && forall i | 0 <= i < |steps| ::
      && steps[i].id == steps'[i].id && steps[i].next == steps'[i].next
      && steps[i].branches == steps'[i].branches && steps[i].default_ == steps'[i].default_
  }

  lemma {:induction false} SameFirstOutside<Op, Op'>(steps: seq<Step<Op>>, steps': seq<Step<Op'>>, ids: set<string>)
    requires SameEdges(steps, steps')
    ensures FirstOutside(steps, ids) == FirstOutside(steps', ids)
  {}

  /** Identifiers and entry points do not depend on what the steps do. */
  lemma {:induction false} SameFind<Op, Op'>(steps: seq<Step<Op>>, steps': seq<Step<Op'>>, id: string)
    requires SameEdges(steps, steps')
    ensures Find(steps, id) == Find(steps', id)
  {}

  lemma {:induction false} SameEntryPoint<Op, Op'>(steps: seq<Step<Op>>, steps': seq<Step<Op'>>)
    requires SameEdges(steps, steps')
    ensures EntryPoint(steps) == EntryPoint(steps')
  {
    forall id
      ensures id in Referenced(steps) <==> id in Referenced(steps')
    {
      assert forall i | 0 <= i < |steps| :: PointsTo(steps'[i], id) == PointsTo(steps[i], id);
    }
    assert Referenced(steps) == Referenced(steps');
    SameFirstOutside(steps, steps', Referenced(steps));
  }

  // ---- The same lookups, as the executors compute them ----

  /** The identifiers one step points to, its branches visited in order. */
  method CollectTargets<Op>(s: Step<Op>) returns (ids: set<string>)
    ensures ids == StepTargets(s)
  {
    ids := if s.next == "" then {} else {s.next};
    ghost var direct := ids;
    for j := 0 to |s.branches|
      invariant ids == direct + (set b | b in s.branches[..j] && b.next != "" :: b.next)
    {
      assert s.branches[..j + 1] == s.branches[..j] + [s.branches[j]];
      if s.branches[j].next != "" {
        ids := ids + {s.branches[j].next};
      }
    }
    assert s.branches[..|s.branches|] == s.branches;
    if s.default_ != "" {
      ids := ids + {s.default_};
    }
  }

  method CollectReferenced<Op>(steps: seq<Step<Op>>) returns (ids: set<string>)
    ensures ids == Referenced(steps)
  {
    ids := {};
    for i := 0 to |steps|
      invariant ids == Referenced(steps[..i])
    {
      assert steps[..i + 1][..i] == steps[..i];
      var targets := CollectTargets(steps[i]);
      ids := ids + targets;
    }
    assert steps[..|steps|] == steps;
  }

  /** The entry point, computed as the executors do: collect the identifiers
      pointed to, then look for a step outside them. */
  method FindEntryPoint<Op>(steps: seq<Step<Op>>) returns (id: string)
    ensures id == EntryPoint(steps) && IsEntryPoint(steps, id)
  {
    EntryPointIsExact(steps, EntryPoint(steps));
    var referenced := CollectReferenced(steps);
    for i := 0 to |steps|
      invariant FirstOutside(steps, referenced) == i + FirstOutside(steps[i..], referenced)
    {
      if steps[i].id !in referenced {
        return steps[i].id;
      }
    }
    return if steps != [] then steps[0].id else "";
  }

  /** The step a run begins with: the one asked for, or else the entry point. */
  method StartingStep<Op>(steps: seq<Step<Op>>, start: string) returns (id: string)
    ensures id == if start != "" then start else EntryPoint(steps)
  {
    if start != "" {
      return start;
    }
    id := FindEntryPoint(steps);
  }

  /** The branch taken by a switch, tried in order. */
  method ChooseTarget(t: Text, branches: seq<Branch>, value: string, default_: string) returns (next: string)
    ensures next == SwitchTarget(t, branches, value, default_)
  {
    for i := 0 to |branches|
      invariant SwitchTarget(t, branches, value, default_) == SwitchTarget(t, branches[i..], value, default_)
    {
      if Matches(t, branches[i], value) {
        return branches[i].next;
      }
    }
    return default_;
  }

  ghost predicate IsDictionary<Op>(byId: map<string, nat>, steps: seq<Step<Op>>) {
    (forall id :: id in byId <==> Find(steps, id).Some?)
    && forall id | id in byId :: byId[id] == Find(steps, id).value
  }

  /** The dictionary of the steps by identifier. */
  method StepsById<Op>(steps: seq<Step<Op>>) returns (byId: map<string, nat>)
    ensures IsDictionary(byId, steps)
  {
    byId := map[];
    for i := 0 to |steps|
      invariant IsDictionary(byId, steps[..i])
    {
      assert steps[..i + 1][..i] == steps[..i];
      byId := byId[steps[i].id := i];
    }
    assert steps[..|steps|] == steps;
  }
}
