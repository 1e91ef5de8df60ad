/** The usage collector: how one journal file is consolidated into the tables
    of raw calls, usage per model and consumed budget per target.  Costs are
    exact reals; a commit makes a whole file visible at once. */
module UsageCollector {
  import opened Wrappers

  /** The fields of a journal line that decide what is stored. */
  datatype Record = Record(
    provider: string,
    model: string,
    endpoint: Option<int>,
    agent: string,
    tokensIn: int,
    tokensOut: int,
    cost: real,
    status: string,
    receivedAt: Option<int>)

  /** A line of the file; blank lines and invalid JSON are skipped. */
  datatype Line = Skipped | Parsed(rec: Record)

  /** What a model has consumed. */
  datatype Totals = Totals(requests: nat, tokensIn: int, tokensOut: int, cost: real, errors: nat)

  /** A row of `endpoint_model_usage`. */
  datatype Usage = Usage(
    model: string,
    endpoint: Option<int>,
    agent: string,
    totals: Totals,
    lastCallAt: Option<int>,
    lastWorked: bool)

  datatype TargetType = Provider | Model | ProviderModel | Agent

  /** A row of `really_used_budget` for the tag `usd_total`; its id is its
      position. */
  datatype Target = Target(kind: TargetType, ref: string)

  /** A row of `budget_consumption`. */
  datatype Consumption = Consumption(budget: nat, used: real)

  datatype Budgets = Budgets(targets: seq<Target>, consumption: seq<Consumption>)

  /** The tables written; `offered` are the pairs of endpoint and model the
      catalogue has a row for, and `degraded` those marked unavailable. */
  datatype Tables = Tables(
    calls: seq<Record>,
    usage: seq<Usage>,
    budgets: Budgets,
    offered: set<(int, string)>,
    degraded: set<(int, string)>)

  /** The price of a call whose line carries none. */
  type Pricing = (string, string, int, int) -> real

  // ---- What one line does ----

  function Priced(rec: Record, price: Pricing): Record {
    if rec.cost == 0.0 then rec.(cost := price(rec.provider, rec.model, rec.tokensIn, rec.tokensOut)) else rec
  }

  predicate Worked(c: Record) {
    c.status == "ok"
  }

  function Count(c: Record): Totals {
    Totals(1, c.tokensIn, c.tokensOut, c.cost, if Worked(c) then 0 else 1)
  }

  function Plus(a: Totals, b: Totals): Totals {
    Totals(
      a.requests + b.requests,
      a.tokensIn + b.tokensIn,
      a.tokensOut + b.tokensOut,
      a.cost + b.cost,
      a.errors + b.errors)
  }

  /** The last row of a model. */
  function FindUsage(usage: seq<Usage>, model: string): (i: Option<nat>)
    ensures i.Some? ==> i.value < |usage| && usage[i.value].model == model
    ensures i.None? ==> forall j | 0 <= j < |usage| :: usage[j].model != model
  {
    if usage == [] then None
    else if usage[|usage| - 1].model == model then Some(|usage| - 1)
    else FindUsage(usage[..|usage| - 1], model)
  }

  /** The row of the model of a further call. */
  function Grown(u: Usage, c: Record): Usage {
    u.(totals := Plus(u.totals, Count(c)), lastCallAt := c.receivedAt, lastWorked := Worked(c))
  }

  function Counted(usage: seq<Usage>, c: Record): seq<Usage> {
    match FindUsage(usage, c.model)
    case Some(i) =>
      usage[i := Grown(usage[i], c)]
    case None => usage + [Usage(c.model, c.endpoint, c.agent, Count(c), c.receivedAt, Worked(c))]
  }

  function TargetsOf(c: Record): seq<Target> {
    [Target(Provider, c.provider), Target(Model, c.model), Target(ProviderModel, c.provider + ":" + c.model)]
    + if c.agent != "" then [Target(Agent, c.agent)] else []
  }

  function FindTarget(targets: seq<Target>, t: Target): (i: Option<nat>)
    ensures i.Some? ==> i.value < |targets| && targets[i.value] == t
    ensures i.None? ==> t !in targets
  {
    if targets == [] then None
    else if targets[|targets| - 1] == t then Some(|targets| - 1)
    else FindTarget(targets[..|targets| - 1], t)
  }

  function FindConsumption(rows: seq<Consumption>, budget: nat): (i: Option<nat>)
    ensures i.Some? ==> i.value < |rows| && rows[i.value].budget == budget
    ensures i.None? ==> forall j | 0 <= j < |rows| :: rows[j].budget != budget
  {
    if rows == [] then None
    else if rows[|rows| - 1].budget == budget then Some(|rows| - 1)
    else FindConsumption(rows[..|rows| - 1], budget)
  }

  /** The two upserts made for one target. */
  function Charged(b: Budgets, t: Target, cost: real): Budgets {
    var found := FindTarget(b.targets, t);
    var targets := if found.Some? then b.targets else b.targets + [t];
    var budget := found.GetOr(|b.targets|);
    match FindConsumption(b.consumption, budget)
    case Some(i) => Budgets(targets, b.consumption[i := Consumption(budget, b.consumption[i].used + cost)])
    case None => Budgets(targets, b.consumption + [Consumption(budget, cost)])
  }

  /** `_record_budget`. */
  function ChargedAll(b: Budgets, targets: seq<Target>, cost: real): Budgets {
    if targets == [] then b
    else Charged(ChargedAll(b, targets[..|targets| - 1], cost), targets[|targets| - 1], cost)
  }

  /** The pair of endpoint and model that a failed call speaks against. */
  function Blamed(c: Record): set<(int, string)> {
    if !Worked(c) && c.endpoint.Some? then {(c.endpoint.value, c.model)} else {}
  }

  function Stored(t: Tables, c: Record): Tables {
    Tables(
      t.calls + [c],
      Counted(t.usage, c),
      ChargedAll(t.budgets, TargetsOf(c), c.cost),
      t.offered,
      t.degraded + (Blamed(c) * t.offered))
  }

  /** The tables after the lines of a file, and the number of lines stored. */
  function Consumed(t: Tables, lines: seq<Line>, price: Pricing): (r: (Tables, nat)) {
    if lines == [] then (t, 0)
    else
      var (t1, n) := Consumed(t, lines[..|lines| - 1], price);
      match lines[|lines| - 1]
      case Skipped => (t1, n)
      case Parsed(rec) => (Stored(t1, Priced(rec, price)), n + 1)
  }

  class Collector {
    var calls: seq<Record>
    var usage: seq<Usage>
    var targets: seq<Target>
    var consumption: seq<Consumption>
    const offered: set<(int, string)>
    var degraded: set<(int, string)>

    ghost function Now(): Tables
      reads this
    {
      Tables(calls, usage, Budgets(targets, consumption), offered, degraded)
    }

    constructor (offered: set<(int, string)>)
      ensures Now() == Empty(offered)
    {
      this.offered := offered;
      calls, usage, targets, consumption, degraded := [], [], [], [], {};
    }

    /** The upserts made for one target. */
    method Charge(t: Target, cost: real)
      modifies this
      ensures Now() == old(Now()).(budgets := Charged(old(Now()).budgets, t, cost))
    {
      var found := FindTarget(targets, t);
      var budget := found.GetOr(|targets|);
      if found.None? {
        targets := targets + [t];
      }
      var row := FindConsumption(consumption, budget);
      if row.Some? {
        consumption := consumption[row.value := Consumption(budget, consumption[row.value].used + cost)];
      } else {
        consumption := consumption + [Consumption(budget, cost)];
      }
    }

    /** `_record_budget`, over the targets it has listed. */
    method RecordBudget(due: seq<Target>, cost: real)
      modifies this
      ensures Now() == old(Now()).(budgets := ChargedAll(old(Now()).budgets, due, cost))
    {
      for i := 0 to |due|
        invariant Now() == old(Now()).(budgets := ChargedAll(old(Now()).budgets, due[..i], cost))
      {
        assert due[..i + 1][..i] == due[..i];
        Charge(due[i], cost);
      }
      assert due[..|due|] == due;
    }

    method CountUsage(c: Record)
      modifies this
      ensures Now() == old(Now()).(usage := Counted(old(usage), c))
    {
      var row := FindUsage(usage, c.model);
      if row.Some? {
        var u := usage[row.value];
        usage := usage[row.value := u.(
          totals := Plus(u.totals, Count(c)), lastCallAt := c.receivedAt, lastWorked := Worked(c))];
      } else {
        usage := usage + [Usage(c.model, c.endpoint, c.agent, Count(c), c.receivedAt, Worked(c))];
      }
    }

    /** `_degrade_available`, on a call that failed. */
    method MarkUnavailable(c: Record)
      modifies this
      ensures Now() == old(Now()).(degraded := old(degraded) + (Blamed(c) * offered))
    {
      if !Worked(c) && c.endpoint.Some? && (c.endpoint.value, c.model) in offered {
        degraded := degraded + {(c.endpoint.value, c.model)};
      }
    }

    /** The inserts and upserts made for one line. */
    method Store(c: Record)
      modifies this
      ensures Now() == Stored(old(Now()), c)
    {
      calls := calls + [c];
      CountUsage(c);
      MarkUnavailable(c);
      RecordBudget(TargetsOf(c), c.cost);
    }

    /** The body of the loop of `_consume_file`. */
    method ConsumeLine(ghost done: seq<Line>, line: Line, price: Pricing, ghost before: Tables, count: nat)
        returns (n: nat)
      requires (Now(), count) == Consumed(before, done, price)
      modifies this
      ensures (Now(), n) == Consumed(before, done + [line], price)
    {
      assert (done + [line])[..|done|] == done;
      n := count;
      if line.Parsed? {
        Store(Priced(line.rec, price));
        n := n + 1;
      }
    }

    /** `_consume_file`. */
    method ConsumeFile(lines: seq<Line>, price: Pricing) returns (count: nat)
      modifies this
      ensures (Now(), count) == Consumed(old(Now()), lines, price)
    {
      count := 0;
      for i := 0 to |lines|
        invariant (Now(), count) == Consumed(old(Now()), lines[..i], price)
      {
        assert lines[..i] + [lines[i]] == lines[..i + 1];
        count := ConsumeLine(lines[..i], lines[i], price, old(Now()), count);
      }
      assert lines[..|lines|] == lines;
    }
  }

  // ---- What the raw calls say ----

  function Empty(offered: set<(int, string)>): Tables {
    Tables([], [], Budgets([], []), offered, {})
  }

  /** The raw calls of one model, in order. */
  ghost function CallsOf(calls: seq<Record>, model: string): seq<Record> {
    if calls == [] then []
    else
      var last := calls[|calls| - 1];
      CallsOf(calls[..|calls| - 1], model) + if last.model == model then [last] else []
  }

  ghost function TokensIn(calls: seq<Record>): int {
    if calls == [] then 0 else TokensIn(calls[..|calls| - 1]) + calls[|calls| - 1].tokensIn
  }

  ghost function TokensOut(calls: seq<Record>): int {
    if calls == [] then 0 else TokensOut(calls[..|calls| - 1]) + calls[|calls| - 1].tokensOut
  }

  ghost function CostOfAll(calls: seq<Record>): real {
    if calls == [] then 0.0 else CostOfAll(calls[..|calls| - 1]) + calls[|calls| - 1].cost
  }

  /** The calls that did not come back "ok". */
  ghost function Failures(calls: seq<Record>): nat {
    if calls == [] then 0
    else Failures(calls[..|calls| - 1]) + if calls[|calls| - 1].status != "ok" then 1 else 0
  }

  /** The target is the call's provider, its model, both, or the agent it was
      made for, if any. */
  ghost predicate Concerns(c: Record, t: Target) {
    match t.kind
    case Provider => t.ref == c.provider
    case Model => t.ref == c.model
    case ProviderModel => t.ref == c.provider + ":" + c.model
    case Agent => c.agent != "" && t.ref == c.agent
  }

  /** The cost of the raw calls that concern one target. */
  ghost function CostOf(calls: seq<Record>, t: Target): real {
    if calls == [] then 0.0
    else CostOf(calls[..|calls| - 1], t) + if Concerns(calls[|calls| - 1], t) then calls[|calls| - 1].cost else 0.0
  }

  lemma {:induction false} TargetsAreExact(c: Record, t: Target)
    ensures t in TargetsOf(c) <==> Concerns(c, t)
  {}

  /** The cost of all raw calls, or of those made for some agent. */
  function TotalCost(calls: seq<Record>, kind: TargetType): real {
    if calls == [] then 0.0
    else
      var c := calls[|calls| - 1];
      TotalCost(calls[..|calls| - 1], kind) + if kind.Agent? && c.agent == "" then 0.0 else c.cost
  }

  // ---- Usage rows ----

  ghost predicate OneRowPerModel(usage: seq<Usage>) {
    forall i, j | 0 <= i < j < |usage| :: usage[i].model != usage[j].model
  }

  ghost predicate EveryModelHasRow(calls: seq<Record>, usage: seq<Usage>) {
    forall i | 0 <= i < |calls| :: FindUsage(usage, calls[i].model).Some?
  }

  /** Each model called has one row, each row a model called, and the row holds
      the sums over the calls of its model and the outcome of the last one. */
  ghost predicate UsageAgrees(t: Tables) {
    && OneRowPerModel(t.usage)
    && EveryModelHasRow(t.calls, t.usage)
    && (forall i | 0 <= i < |t.usage| :: RowAgrees(t.calls, t.usage[i]))
  }

  ghost predicate RowAgrees(calls: seq<Record>, u: Usage) {
    var mine := CallsOf(calls, u.model);
    mine != [] && Sums(mine, u.totals) && EndsOf(mine, u)
  }

  ghost predicate Sums(mine: seq<Record>, totals: Totals) {
    && totals.requests == |mine|
    && totals.tokensIn == TokensIn(mine) && totals.tokensOut == TokensOut(mine)
    && totals.cost == CostOfAll(mine)
    && totals.errors == Failures(mine)
  }

  /** The endpoint and the agent are those of the first call, the time and the
      outcome those of the last. */
  ghost predicate EndsOf(mine: seq<Record>, u: Usage)
    requires mine != []
  {
    var first, last := mine[0], mine[|mine| - 1];
    && u.endpoint == first.endpoint && u.agent == first.agent
    && u.lastCallAt == last.receivedAt && (u.lastWorked <==> last.status == "ok")
  }

  lemma {:induction false} NoCalls(calls: seq<Record>, model: string)
    requires forall i | 0 <= i < |calls| :: calls[i].model != model
    ensures CallsOf(calls, model) == []
  {
    if calls != [] {
      NoCalls(calls[..|calls| - 1], model);
    }
  }

  lemma {:induction false} AppendCall(calls: seq<Record>, c: Record, model: string)
    ensures CallsOf(calls + [c], model) == CallsOf(calls, model) + if c.model == model then [c] else []
  {
    assert (calls + [c])[..|calls|] == calls;
  }

  lemma {:induction false} AppendSums(mine: seq<Record>, totals: Totals, c: Record)
    requires Sums(mine, totals)
    ensures Sums(mine + [c], Plus(totals, Count(c)))
  {
    assert (mine + [c])[..|mine|] == mine;
  }

  lemma {:induction false} AppendCost(calls: seq<Record>, c: Record, t: Target)
    ensures CostOf(calls + [c], t) == CostOf(calls, t) + if Concerns(c, t) then c.cost else 0.0
  {}

  lemma {:induction false} AppendTotalCost(calls: seq<Record>, c: Record, kind: TargetType)
    ensures TotalCost(calls + [c], kind) ==
      TotalCost(calls, kind) + if kind.Agent? && c.agent == "" then 0.0 else c.cost
  {}

  lemma {:induction false} CountedKeepsRows(usage: seq<Usage>, c: Record)
    requires OneRowPerModel(usage)
    ensures OneRowPerModel(Counted(usage, c))
    ensures forall model | model == c.model || FindUsage(usage, model).Some? ::
      FindUsage(Counted(usage, c), model).Some?
  {
    var usage' := Counted(usage, c);
    forall model | model == c.model || FindUsage(usage, model).Some?
      ensures FindUsage(usage', model).Some?
    {
      var i := FindUsage(usage, model);
      assert usage'[if i.Some? then i.value else |usage|].model == model;
    }
  }

  lemma {:induction false} RowStillAgrees(calls: seq<Record>, u: Usage, c: Record)
    requires RowAgrees(calls, u)
    ensures RowAgrees(calls + [c], if u.model == c.model then Grown(u, c) else u)
  {
    AppendCall(calls, c, u.model);
    var mine := CallsOf(calls, u.model);
    if u.model == c.model {
      AppendSums(mine, u.totals, c);
    } else {
      assert mine + [] == mine;
    }
  }

  lemma {:induction false} NewRowAgrees(calls: seq<Record>, c: Record)
    requires forall i | 0 <= i < |calls| :: calls[i].model != c.model
    ensures RowAgrees(calls + [c], Usage(c.model, c.endpoint, c.agent, Count(c), c.receivedAt, Worked(c)))
  {
    NoCalls(calls, c.model);
    AppendCall(calls, c, c.model);
    assert [] + [c] == [c];
    AppendSums([], Totals(0, 0, 0, 0.0, 0), c);
  }

  lemma {:induction false} CountedRow(usage: seq<Usage>, c: Record, i: nat)
    requires OneRowPerModel(usage) && i < |usage|
    ensures Counted(usage, c)[i] == if usage[i].model == c.model then Grown(usage[i], c) else usage[i]
  {
    assert usage[i].model == c.model ==> FindUsage(usage, c.model) == Some(i);
  }

  lemma {:induction false} CountedRowsAgree(t: Tables, c: Record, i: nat)
    requires UsageAgrees(t) && i < |Counted(t.usage, c)|
    ensures RowAgrees(t.calls + [c], Counted(t.usage, c)[i])
  {
    if i < |t.usage| {
      CountedRow(t.usage, c, i);
      RowStillAgrees(t.calls, t.usage[i], c);
    } else {
      forall k | 0 <= k < |t.calls|
        ensures t.calls[k].model != c.model
      {
        assert FindUsage(t.usage, t.calls[k].model).Some?;
      }
      NewRowAgrees(t.calls, c);
    }
  }

  lemma {:induction false} EveryModelStillHasRow(calls: seq<Record>, usage: seq<Usage>, c: Record)
    requires OneRowPerModel(usage) && EveryModelHasRow(calls, usage)
    ensures EveryModelHasRow(calls + [c], Counted(usage, c))
  {
    CountedKeepsRows(usage, c);
    var all := calls + [c];
    forall i | 0 <= i < |all|
      ensures FindUsage(Counted(usage, c), all[i].model).Some?
    {
      if i < |calls| {
        assert FindUsage(usage, calls[i].model).Some?;
      }
    }
  }

  lemma {:induction false} StoredKeepsUsage(t: Tables, c: Record)
    requires UsageAgrees(t)
    ensures UsageAgrees(Stored(t, c))
  {
    var t' := Stored(t, c);
    CountedKeepsRows(t.usage, c);
    EveryModelStillHasRow(t.calls, t.usage, c);
    forall i | 0 <= i < |t'.usage|
      ensures RowAgrees(t'.calls, t'.usage[i])
    {
      CountedRowsAgree(t, c, i);
    }
  }

  // ---- Budgets ----

  /** Each target has one consumption row, the one created with it. */
  ghost predicate Paired(b: Budgets) {
    && |b.consumption| == |b.targets|
    && (forall i | 0 <= i < |b.consumption| :: b.consumption[i].budget == i)
    && (forall i, j | 0 <= i < j < |b.targets| :: b.targets[i] != b.targets[j])
  }

  /** The amount recorded for a target. */
  function Amount(b: Budgets, t: Target): real {
    match FindTarget(b.targets, t)
    case Some(i) => if i < |b.consumption| then b.consumption[i].used else 0.0
    case None => 0.0
  }

  /** The sum of the amounts of all targets of one type. */
  function SumOf(targets: seq<Target>, consumption: seq<Consumption>, kind: TargetType): real
    requires |targets| == |consumption|
  {
    if targets == [] then 0.0
    else
      var n := |targets| - 1;
      SumOf(targets[..n], consumption[..n], kind) + if targets[n].kind == kind then consumption[n].used else 0.0
  }

  lemma {:induction false} SumOfUpdate(
      targets: seq<Target>, consumption: seq<Consumption>, i: nat, cost: real, kind: TargetType)
    requires |targets| == |consumption| && i < |targets|
    ensures SumOf(targets, consumption[i := Consumption(consumption[i].budget, consumption[i].used + cost)], kind)
         == SumOf(targets, consumption, kind) + if targets[i].kind == kind then cost else 0.0
  {
    var n := |targets| - 1;
    var consumption' := consumption[i := Consumption(consumption[i].budget, consumption[i].used + cost)];
    if i < n {
      SumOfUpdate(targets[..n], consumption[..n], i, cost, kind);
      assert consumption'[..n] == consumption[..n][i := Consumption(consumption[i].budget, consumption[i].used + cost)];
    } else {
      assert consumption'[..n] == consumption[..n];
    }
  }

  /** What a charge does to paired tables: one amount grows, or a pair of rows is
      added. */
  lemma {:induction false} ChargeShape(b: Budgets, t: Target, cost: real)
    requires Paired(b)
    ensures Paired(Charged(b, t, cost))
    ensures Charged(b, t, cost) ==
      match FindTarget(b.targets, t)
      case Some(i) => Budgets(b.targets, b.consumption[i := Consumption(i, b.consumption[i].used + cost)])
      case None => Budgets(b.targets + [t], b.consumption + [Consumption(|b.targets|, cost)])
  {
    var found := FindTarget(b.targets, t);
    if found.Some? {
      var row := FindConsumption(b.consumption, found.value);
      assert b.consumption[found.value].budget == found.value;
      assert row == found;
    } else {
      assert FindConsumption(b.consumption, |b.targets|).None?;
    }
  }

  lemma {:induction false} ChargeAmount(b: Budgets, t: Target, cost: real, other: Target)
    requires Paired(b)
    ensures Amount(Charged(b, t, cost), other) == Amount(b, other) + if other == t then cost else 0.0
  {
    ChargeShape(b, t, cost);
    if FindTarget(b.targets, t).None? {
      assert (b.targets + [t])[..|b.targets|] == b.targets;
    }
  }

  lemma {:induction false} ChargeSum(b: Budgets, t: Target, cost: real, kind: TargetType)
    requires Paired(b)
    ensures var b' := Charged(b, t, cost);
      Paired(b') && SumOf(b'.targets, b'.consumption, kind)
                    == SumOf(b.targets, b.consumption, kind) + if t.kind == kind then cost else 0.0
  {
    ChargeShape(b, t, cost);
    var b' := Charged(b, t, cost);
    match FindTarget(b.targets, t)
    case Some(i) => SumOfUpdate(b.targets, b.consumption, i, cost, kind);
    case None => assert b'.targets[..|b.targets|] == b.targets && b'.consumption[..|b.targets|] == b.consumption;
  }

  /** Charging a target adds the cost to it, to the sum of its type, and to
      nothing else. */
  lemma {:induction false} ChargeIsLocal(b: Budgets, t: Target, cost: real, other: Target, kind: TargetType)
    requires Paired(b)
    ensures var b' := Charged(b, t, cost);
      && Paired(b')
      && Amount(b', other) == Amount(b, other) + (if other == t then cost else 0.0)
      && SumOf(b'.targets, b'.consumption, kind) ==
         SumOf(b.targets, b.consumption, kind) + if t.kind == kind then cost else 0.0
  {
    ChargeAmount(b, t, cost, other);
    ChargeSum(b, t, cost, kind);
  }

  predicate HasKind(due: seq<Target>, kind: TargetType) {
    due != [] && (due[|due| - 1].kind == kind || HasKind(due[..|due| - 1], kind))
  }

  predicate DistinctKinds(due: seq<Target>) {
    due != [] ==> !HasKind(due[..|due| - 1], due[|due| - 1].kind) && DistinctKinds(due[..|due| - 1])
  }

  lemma {:induction false} MemberHasKind(due: seq<Target>, t: Target)
    requires t in due
    ensures HasKind(due, t.kind)
  {
    if due[|due| - 1] != t {
      MemberHasKind(due[..|due| - 1], t);
    }
  }

  lemma {:induction false} DueOnce(due: seq<Target>, t: Target)
    requires due != [] && DistinctKinds(due)
    ensures var rest, last := due[..|due| - 1], due[|due| - 1];
      (t in due <==> t in rest || t == last) && !(t in rest && t == last)
  {
    var rest, last := due[..|due| - 1], due[|due| - 1];
    assert due == rest + [last];
    if t in rest {
      MemberHasKind(rest, t);
    }
  }

  lemma {:induction false} ChargesReachTargets(b: Budgets, due: seq<Target>, cost: real, other: Target)
    requires Paired(b) && DistinctKinds(due)
    ensures var b' := ChargedAll(b, due, cost);
      Paired(b') && Amount(b', other) == Amount(b, other) + if other in due then cost else 0.0
  {
    if due != [] {
      var rest, t := due[..|due| - 1], due[|due| - 1];
      ChargesReachTargets(b, rest, cost, other);
      var b1 := ChargedAll(b, rest, cost);
      ChargeShape(b1, t, cost);
      ChargeAmount(b1, t, cost, other);
      DueOnce(due, other);
      assert ChargedAll(b, due, cost) == Charged(b1, t, cost);
    }
  }

  lemma {:induction false} ChargesAddUp(b: Budgets, due: seq<Target>, cost: real, kind: TargetType)
    requires Paired(b) && DistinctKinds(due)
    ensures var b' := ChargedAll(b, due, cost);
      && Paired(b')
      && SumOf(b'.targets, b'.consumption, kind)
         == SumOf(b.targets, b.consumption, kind) + if HasKind(due, kind) then cost else 0.0
  {
    if due != [] {
      var rest, t := due[..|due| - 1], due[|due| - 1];
      ChargesAddUp(b, rest, cost, kind);
      ChargeSum(ChargedAll(b, rest, cost), t, cost, kind);
    }
  }

  lemma {:induction false} KindsOfTargets(c: Record, kind: TargetType)
    ensures DistinctKinds(TargetsOf(c))
    ensures HasKind(TargetsOf(c), kind) <==> !(kind.Agent? && c.agent == "")
  {
    var provider, model := Target(Provider, c.provider), Target(Model, c.model);
    var both := Target(ProviderModel, c.provider + ":" + c.model);
    forall k: TargetType
      ensures HasKind([provider, model, both], k) <==> !k.Agent?
      ensures HasKind([provider, model], k) <==> k.Provider? || k.Model?
      ensures HasKind([provider], k) <==> k.Provider?
    {
      HasKindAppend([], provider, k);
      HasKindAppend([provider], model, k);
      HasKindAppend([provider, model], both, k);
      assert [] + [provider] == [provider] && [provider] + [model] == [provider, model];
      assert [provider, model] + [both] == [provider, model, both];
    }
    assert [] + [provider] == [provider] && [provider] + [model] == [provider, model];
    assert [provider, model] + [both] == [provider, model, both];
    DistinctAppend([], provider);
    DistinctAppend([provider], model);
    DistinctAppend([provider, model], both);
    if c.agent == "" {
      assert TargetsOf(c) == [provider, model, both];
    } else {
      assert TargetsOf(c) == [provider, model, both] + [Target(Agent, c.agent)];
      HasKindAppend([provider, model, both], Target(Agent, c.agent), kind);
      DistinctAppend([provider, model, both], Target(Agent, c.agent));
    }
  }

  lemma {:induction false} HasKindAppend(due: seq<Target>, t: Target, kind: TargetType)
    ensures HasKind(due + [t], kind) <==> t.kind == kind || HasKind(due, kind)
  {}

  lemma {:induction false} DistinctAppend(due: seq<Target>, t: Target)
    requires DistinctKinds(due) && !HasKind(due, t.kind)
    ensures DistinctKinds(due + [t])
  {}

  /** Every target holds the cost of the calls that concern it, and the targets
      of one type together the cost of all the calls; for agents, of all the
      calls made for an agent. */
  ghost predicate BudgetsAgree(t: Tables) {
    && Paired(t.budgets)
    && (forall target :: Amount(t.budgets, target) == CostOf(t.calls, target))
    && (forall kind :: SumOf(t.budgets.targets, t.budgets.consumption, kind) == TotalCost(t.calls, kind))
  }

  lemma {:induction false} StoredKeepsAmount(t: Tables, c: Record, target: Target)
    requires Paired(t.budgets) && Amount(t.budgets, target) == CostOf(t.calls, target)
    ensures Paired(Stored(t, c).budgets) && Amount(Stored(t, c).budgets, target) == CostOf(t.calls + [c], target)
  {
    KindsOfTargets(c, Model);
    ChargesReachTargets(t.budgets, TargetsOf(c), c.cost, target);
    TargetsAreExact(c, target);
    AppendCost(t.calls, c, target);
  }

  lemma {:induction false} StoredKeepsSum(t: Tables, c: Record, kind: TargetType)
    requires Paired(t.budgets) && SumOf(t.budgets.targets, t.budgets.consumption, kind) == TotalCost(t.calls, kind)
    ensures var b := Stored(t, c).budgets;
      Paired(b) && SumOf(b.targets, b.consumption, kind) == TotalCost(t.calls + [c], kind)
  {
    KindsOfTargets(c, kind);
    ChargesAddUp(t.budgets, TargetsOf(c), c.cost, kind);
    AppendTotalCost(t.calls, c, kind);
  }

  lemma {:induction false} StoredKeepsBudgets(t: Tables, c: Record)
    requires BudgetsAgree(t)
    ensures BudgetsAgree(Stored(t, c))
  {
    var t' := Stored(t, c);
    StoredKeepsSum(t, c, Model);
    forall target
      ensures Amount(t'.budgets, target) == CostOf(t'.calls, target)
    {
      StoredKeepsAmount(t, c, target);
    }
    forall kind
      ensures SumOf(t'.budgets.targets, t'.budgets.consumption, kind) == TotalCost(t'.calls, kind)
    {
      StoredKeepsSum(t, c, kind);
    }
  }

  // ---- Any sequence of files ----

  /** An endpoint that offers a model is marked unavailable for it when a call
      failed there. */
  ghost predicate DegradedAgrees(t: Tables) {
    forall e, m :: (e, m) in t.degraded <==> (e, m) in t.offered && Failed(t.calls, e, m)
  }

  ghost predicate Failed(calls: seq<Record>, endpoint: int, model: string) {
    exists i | 0 <= i < |calls| ::
      calls[i].status != "ok" && calls[i].endpoint == Some(endpoint) && calls[i].model == model
  }

  lemma {:induction false} StoredKeepsDegraded(t: Tables, c: Record)
    requires DegradedAgrees(t)
    ensures DegradedAgrees(Stored(t, c))
  {
    var t' := Stored(t, c);
    forall e, m
      ensures (e, m) in t'.degraded <==> (e, m) in t'.offered && Failed(t'.calls, e, m)
    {
      if Failed(t.calls, e, m) {
        var i :| 0 <= i < |t.calls|
                 && t.calls[i].status != "ok" && t.calls[i].endpoint == Some(e) && t.calls[i].model == m;
        assert t'.calls[i] == t.calls[i];
      }
      assert t'.calls[|t.calls|] == c;
    }
  }

  /** The tables hold what the raw calls say. */
  ghost predicate Consolidated(t: Tables) {
    UsageAgrees(t) && BudgetsAgree(t) && DegradedAgrees(t)
  }

  lemma {:induction false} StoredKeepsAll(t: Tables, c: Record)
    requires Consolidated(t)
    ensures Consolidated(Stored(t, c))
  {
    StoredKeepsUsage(t, c);
    StoredKeepsBudgets(t, c);
    StoredKeepsDegraded(t, c);
  }

  /** The raw calls of some lines: the valid ones, in order, with a cost looked up
      where the line has none. */
  ghost function RawCalls(lines: seq<Line>, price: Pricing): seq<Record> {
    if lines == [] then []
    else
      var last := lines[|lines| - 1];
      RawCalls(lines[..|lines| - 1], price) +
      if last.Skipped? then []
      else if last.rec.cost != 0.0 then [last.rec]
      else [last.rec.(cost := price(last.rec.provider, last.rec.model, last.rec.tokensIn, last.rec.tokensOut))]
  }

  lemma {:induction false} LastRawCall(lines: seq<Line>, price: Pricing)
    requires lines != []
    ensures var last := lines[|lines| - 1];
      RawCalls(lines, price) ==
      RawCalls(lines[..|lines| - 1], price) + if last.Parsed? then [Priced(last.rec, price)] else []
  {}

  lemma {:induction false} AppendRawCall(lines: seq<Line>, line: Line, price: Pricing)
    ensures RawCalls(lines + [line], price) ==
      RawCalls(lines, price) + if line.Parsed? then [Priced(line.rec, price)] else []
  {
    assert (lines + [line])[..|lines|] == lines;
    LastRawCall(lines + [line], price);
  }

  /** The tables `t'` are consolidated and hold `more` calls than `t`. */
  ghost predicate Adds(t: Tables, t': Tables, more: seq<Record>) {
    Consolidated(t') && t'.calls == t.calls + more && t'.offered == t.offered
  }

  lemma {:induction false} StoredAdds(t: Tables, t': Tables, more: seq<Record>, c: Record)
    requires Adds(t, t', more)
    ensures Adds(t, Stored(t', c), more + [c])
  {
    StoredKeepsAll(t', c);
    assert t.calls + more + [c] == t.calls + (more + [c]);
  }

  /** Consuming any lines adds one raw call per valid line, and keeps the tables
      consolidated: each model called has exactly one usage row, with the sums
      over its raw calls, and the budgets by provider, by model and by both all
      add up to the total cost. */
  lemma {:induction false} ConsumeConsolidates(t: Tables, lines: seq<Line>, price: Pricing)
    requires Consolidated(t)
    ensures var (t', n) := Consumed(t, lines, price);
      Adds(t, t', RawCalls(lines, price)) && n == |RawCalls(lines, price)|
  {
    if lines == [] {
      assert t.calls + [] == t.calls;
    } else {
      var rest, last := lines[..|lines| - 1], lines[|lines| - 1];
      ConsumeConsolidates(t, rest, price);
      LastRawCall(lines, price);
      if last.Parsed? {
        StoredAdds(t, Consumed(t, rest, price).0, RawCalls(rest, price), Priced(last.rec, price));
      } else {
        assert RawCalls(rest, price) + [] == RawCalls(rest, price);
      }
    }
  }

  lemma {:induction false} EmptyIsConsolidated(offered: set<(int, string)>)
    ensures Consolidated(Empty(offered))
  {}

  lemma {:induction false} SameTotals(calls: seq<Record>, kind: TargetType)
    requires !kind.Agent?
    ensures TotalCost(calls, kind) == CostOfAll(calls)
  {
    if calls != [] {
      SameTotals(calls[..|calls| - 1], kind);
    }
  }

  lemma {:induction false} AddedToNothing(offered: set<(int, string)>, t': Tables, more: seq<Record>)
    requires Adds(Empty(offered), t', more)
    ensures BudgetsAgree(t') && t'.calls == more
  {
    assert [] + more == more;
  }

  lemma {:induction false} TotalsFromEmpty(offered: set<(int, string)>, lines: seq<Line>, price: Pricing)
    ensures var t := Consumed(Empty(offered), lines, price).0;
      BudgetsAgree(t) && t.calls == RawCalls(lines, price)
  {
    EmptyIsConsolidated(offered);
    ConsumeConsolidates(Empty(offered), lines, price);
    AddedToNothing(offered, Consumed(Empty(offered), lines, price).0, RawCalls(lines, price));
  }

  /** From empty tables on, whatever files are consumed, the budgets recorded by
      provider, by model and by both have one and the same total: the cost of
      all the raw calls. */
  lemma {:induction false} BudgetTotalsCoincide(
      offered: set<(int, string)>, lines: seq<Line>, price: Pricing, kind: TargetType)
    requires !kind.Agent?
    ensures var t := Consumed(Empty(offered), lines, price).0;
      Paired(t.budgets) && SumOf(t.budgets.targets, t.budgets.consumption, kind) == CostOfAll(RawCalls(lines, price))
  {
    TotalsFromEmpty(offered, lines, price);
    SameTotals(RawCalls(lines, price), kind);
  }
}
