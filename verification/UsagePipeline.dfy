/** From the calls appended to the usage journal to the tables they end in: the
    journal says which records are committed, the collector what they add. */
module UsagePipeline {
  import opened Wrappers
  import J = UsageJournal
  import C = UsageCollector

  /** The call a record stands for. */
  type Content = J.Record -> C.Record

  function Lines(records: seq<J.Record>, content: Content): (lines: seq<C.Line>)
    ensures |lines| == |records|
  {
    if records == [] then []
    else
      var n := |records| - 1;
      Lines(records[..n], content) + [C.Parsed(content(records[n]))]
  }

  /** The raw calls of some records, in order. */
  ghost function Calls(records: seq<J.Record>, content: Content, price: C.Pricing): seq<C.Record> {
    C.RawCalls(Lines(records, content), price)
  }

  /** The records one cycle commits. */
  function Committed(st: J.State, c: J.Cycle): seq<J.Record> {
    var consumed := J.Collected(st, c).consumed;
    CommitsGrow(st, c);
    consumed[|st.consumed|..]
  }

  lemma {:induction false} CommitsGrow(st: J.State, c: J.Cycle)
    ensures st.consumed <= J.Collected(st, c).consumed
  {
    if J.Starts(st) {
      var (go, st1) := J.Retried(J.Rotated(st, c), c);
      assert st.consumed <= st1.consumed;
      if go {
        assert st1.consumed <= J.Flushed(st1, c).consumed;
      }
    }
  }

  /** The tables after a run: each cycle consumes what it commits. */
  function TablesAfter(
      offered: set<(int, string)>, events: seq<J.Event>, content: Content, price: C.Pricing): C.Tables
  {
    if events == [] then C.Empty(offered)
    else
      var rest, last := events[..|events| - 1], events[|events| - 1];
      var t := TablesAfter(offered, rest, content, price);
      match last
      case Append(_, _) => t
      case Collect(c) => C.Consumed(t, Lines(Committed(J.After(rest), c), content), price).0
  }

  // ---- Records in several goes ----

  lemma {:induction false} LinesConcat(xs: seq<J.Record>, ys: seq<J.Record>, content: Content)
    ensures Lines(xs + ys, content) == Lines(xs, content) + Lines(ys, content)
  {
    if ys == [] {
      assert xs + ys == xs;
    } else {
      var n := |ys| - 1;
      LinesConcat(xs, ys[..n], content);
      assert (xs + ys)[..|xs| + n] == xs + ys[..n];
    }
  }

  lemma {:induction false} RawConcat(xs: seq<C.Line>, ys: seq<C.Line>, price: C.Pricing)
    ensures C.RawCalls(xs + ys, price) == C.RawCalls(xs, price) + C.RawCalls(ys, price)
  {
    if ys == [] {
      assert xs + ys == xs;
    } else {
      var n := |ys| - 1;
      RawConcat(xs, ys[..n], price);
      C.AppendRawCall(xs + ys[..n], ys[n], price);
      C.LastRawCall(ys, price);
      assert xs + ys == xs + ys[..n] + [ys[n]];
    }
  }

  lemma {:induction false} CallsConcat(xs: seq<J.Record>, ys: seq<J.Record>, content: Content, price: C.Pricing)
    ensures Calls(xs + ys, content, price) == Calls(xs, content, price) + Calls(ys, content, price)
  {
    LinesConcat(xs, ys, content);
    RawConcat(Lines(xs, content), Lines(ys, content), price);
  }

  // ---- From end to end ----

  /** The tables are consolidated, with one raw call per record given, in order. */
  ghost predicate Hold(t: C.Tables, records: seq<J.Record>, content: Content, price: C.Pricing) {
    C.Consolidated(t) && t.calls == Calls(records, content, price)
  }

  lemma {:induction false} ConsumeHolds(
      t: C.Tables, records: seq<J.Record>, more: seq<J.Record>, content: Content, price: C.Pricing)
    requires Hold(t, records, content, price)
    ensures Hold(C.Consumed(t, Lines(more, content), price).0, records + more, content, price)
  {
    C.ConsumeConsolidates(t, Lines(more, content), price);
    CallsConcat(records, more, content, price);
  }

  /** Whatever fails, the tables hold what was committed. */
  lemma {:induction false} TablesHoldCommits(
      offered: set<(int, string)>, events: seq<J.Event>, content: Content, price: C.Pricing)
    ensures Hold(TablesAfter(offered, events, content, price), J.After(events).consumed, content, price)
  {
    if events == [] {
      C.EmptyIsConsolidated(offered);
    } else {
      var rest, last := events[..|events| - 1], events[|events| - 1];
      TablesHoldCommits(offered, rest, content, price);
      var st, t := J.After(rest), TablesAfter(offered, rest, content, price);
      match last
      case Append(_, _) =>
        assert J.After(events).consumed == st.consumed;
      case Collect(c) =>
        CommitsGrow(st, c);
        assert J.After(events).consumed == st.consumed + Committed(st, c);
        ConsumeHolds(t, st.consumed, Committed(st, c), content, price);
    }
  }

  lemma {:induction false} OneCallPerRecord(records: seq<J.Record>, content: Content, price: C.Pricing)
    ensures |Calls(records, content, price)| == |records|
  {
    if records != [] {
      var n := |records| - 1;
      OneCallPerRecord(records[..n], content, price);
      var lines := Lines(records, content);
      assert lines[..n] == Lines(records[..n], content);
    }
  }

  /** Over any appends and harmless cycles that archive nothing, the raw calls in
      the tables are the first of the calls appended, in order and each once;
      they are all of them exactly when nothing is left in the files. */
  lemma {:induction false} TablesFollowAppends(
      offered: set<(int, string)>, events: seq<J.Event>, content: Content, price: C.Pricing)
    requires J.IsHarmlessRun(events) && J.After(events).archive == []
    ensures var t, all := TablesAfter(offered, events, content, price), Calls(J.AppendedOrder(events), content, price);
      t.calls <= all && (t.calls == all <==> J.InFlight(J.After(events)) == [])
  {
    var st := J.After(events);
    J.OrderIsKept(events);
    TablesHoldCommits(offered, events, content, price);
    CallsConcat(st.consumed, J.InFlight(st), content, price);
    OneCallPerRecord(J.InFlight(st), content, price);
  }

  /** So after such a run that has drained its files, each model called has one
      usage row with the sums over the calls appended, every budget target holds
      the cost of the calls appended that concern it, and the budgets by
      provider, by model and by both all add up to the cost of all of them. */
  lemma {:induction false} UsageIsExact(
      offered: set<(int, string)>, events: seq<J.Event>, content: Content, price: C.Pricing, kind: C.TargetType)
    requires J.IsHarmlessRun(events) && J.After(events).archive == [] && J.InFlight(J.After(events)) == []
    requires !kind.Agent?
    ensures var t, all := TablesAfter(offered, events, content, price), Calls(J.AppendedOrder(events), content, price);
      && C.OneRowPerModel(t.usage) && C.EveryModelHasRow(all, t.usage)
      && (forall i | 0 <= i < |t.usage| :: C.RowAgrees(all, t.usage[i]))
      && (forall target :: C.Amount(t.budgets, target) == C.CostOf(all, target))
      && C.Paired(t.budgets) && C.SumOf(t.budgets.targets, t.budgets.consumption, kind) == C.CostOfAll(all)
  {
    TablesHoldCommits(offered, events, content, price);
    TablesFollowAppends(offered, events, content, price);
    C.SameTotals(TablesAfter(offered, events, content, price).calls, kind);
  }
}
