/** The supervision channel of the agents: signals are queued in a table and an
    agent's `signal_check` drains its pending ones between two steps. */
module Signals {
  import opened Wrappers
  import opened Workflow
  import Fsm

  datatype Kind = Pause | Resume | Health | ReportStatus | Kill | Configure

  datatype Delivery = Pending | Acked | Completed

  /** A row of `agent_signals`, identified by its position.  Only a `configure`
      uses its variables and state. */
  datatype Signal = Signal(
    agent: int,
    kind: Kind,
    vars: Vars,
    state: Option<string>,
    delivery: Delivery,
    outcome: Option<Kind>)

  /** The signals, and the state column of the agents. */
  datatype Tables = Tables(signals: seq<Signal>, states: map<int, string>)

  /** The part of an `FSMResult` that signals act on. */
  datatype View = View(vars: Vars, paused: bool)

  // ---- What one operation computes ----

  /** The pending signals of an agent among the first `n`, in order. */
  function PendingOf(signals: seq<Signal>, agent: int, n: nat): (ids: seq<nat>)
    requires n <= |signals|
    ensures forall k | 0 <= k < |ids| :: ids[k] < n
  {
    if n == 0 then []
    else
      var ids := PendingOf(signals, agent, n - 1);
      if signals[n - 1].agent == agent && signals[n - 1].delivery.Pending? then ids + [n - 1] else ids
  }

  /** What processing one signal does to the tables: a `configure` may set the
      state of its agent, and the signal is acknowledged, then completed. */
  function Processed(t: Tables, i: nat): Tables
    requires i < |t.signals|
  {
    var s := t.signals[i];
    Tables(
      t.signals[i := s.(delivery := Completed, outcome := Some(s.kind))],
      if s.kind.Configure? && s.state.Some? then t.states[s.agent := s.state.value] else t.states)
  }

  /** The effect of one signal, other than a kill, on the agent. */
  function Act(s: Signal, view: View): View {
    match s.kind
    case Pause => view.(paused := true)
    case Resume => view.(paused := false)
    case Configure => view.(vars := view.vars + s.vars)
    case _ => view
  }

  /** The loop of `_check` over the signals it has read; a kill ends it by an
      exception. */
  function Drain(t: Tables, ids: seq<nat>, view: View): (r: (Tables, View, bool))
    requires forall k | 0 <= k < |ids| :: ids[k] < |t.signals|
    ensures |r.0.signals| == |t.signals|
    decreases |ids|
  {
    if ids == [] then (t, view, false)
    else
      var s, t1 := t.signals[ids[0]], Processed(t, ids[0]);
      if s.kind.Kill? then (t1, view, true) else Drain(t1, ids[1..], Act(s, view))
  }

  /** `signal_check` of one agent. */
  function Checked(t: Tables, agent: int, view: View): (Tables, View, bool) {
    Drain(t, PendingOf(t.signals, agent, |t.signals|), view)
  }

  function Sent(t: Tables, agent: int, kind: Kind, vars: Vars, state: Option<string>): Tables {
    t.(signals := t.signals + [Signal(agent, kind, vars, state, Pending, None)])
  }

  class AgentManager {
    var signals: seq<Signal>
    var states: map<int, string>

    ghost function Now(): Tables
      reads this
    {
      Tables(signals, states)
    }

    constructor ()
      ensures Now() == Tables([], map[])
    {
      signals, states := [], map[];
    }

    /** `send_signal`; an unknown agent is refused. */
    method SendSignal(agents: set<int>, agent: int, kind: Kind, vars: Vars, state: Option<string>)
        returns (id: Option<nat>)
      modifies this
      ensures id == if agent in agents then Some(|old(signals)|) else None
      ensures Now() == if agent in agents then Sent(old(Now()), agent, kind, vars, state) else old(Now())
      ensures states == old(states) && signals ==
        old(signals) + if agent in agents then [Signal(agent, kind, vars, state, Pending, None)] else []
    {
      if agent !in agents {
        return None;
      }
      id := Some(|signals|);
      signals := signals + [Signal(agent, kind, vars, state, Pending, None)];
    }

    method PendingSignals(agent: int) returns (ids: seq<nat>)
      ensures ids == PendingOf(signals, agent, |signals|)
    {
      ids := [];
      for i := 0 to |signals|
        invariant ids == PendingOf(signals, agent, i)
      {
        if signals[i].agent == agent && signals[i].delivery.Pending? {
          ids := ids + [i];
        }
      }
    }

    method AckSignal(i: nat)
      requires i < |signals|
      modifies this`signals
      ensures signals == old(signals)[i := old(signals)[i].(delivery := Acked)]
    {
      signals := signals[i := signals[i].(delivery := Acked)];
    }

    method CompleteSignal(i: nat, action: Kind)
      requires i < |signals|
      modifies this`signals
      ensures signals == old(signals)[i := old(signals)[i].(delivery := Completed, outcome := Some(action))]
    {
      signals := signals[i := signals[i].(delivery := Completed, outcome := Some(action))];
    }

    /** The body of the loop of `_check`. */
    method Process(i: nat)
      requires i < |signals|
      modifies this
      ensures Now() == Processed(old(Now()), i)
    {
      var s := signals[i];
      if s.kind.Configure? && s.state.Some? {
        states := states[s.agent := s.state.value];
      }
      AckSignal(i);
      CompleteSignal(i, s.kind);
    }

    /** The closure of `_make_signal_check`. */
    method Check(agent: int, before: View) returns (view: View, killed: bool)
      modifies this
      ensures (Now(), view, killed) == Checked(old(Now()), agent, before)
    {
      var ids := PendingSignals(agent);
      view := before;
      for k := 0 to |ids|
        invariant |signals| == |old(signals)|
        invariant Drain(Now(), ids[k..], view) == Drain(old(Now()), ids, before)
      {
        var s := signals[ids[k]];
        Process(ids[k]);
        if s.kind.Kill? {
          return view, true;
        }
        view := Act(s, view);
        assert ids[k..][1..] == ids[k + 1..];
      }
      killed := false;
    }
  }

  // ---- One check ----

  /** The signals a check drains: up to and including the first kill. */
  function UpToKill(signals: seq<Signal>, ids: seq<nat>): (r: seq<nat>)
    requires forall k | 0 <= k < |ids| :: ids[k] < |signals|
    ensures r <= ids
  {
    if ids == [] then []
    else if signals[ids[0]].kind.Kill? then [ids[0]]
    else [ids[0]] + UpToKill(signals, ids[1..])
  }

  /** One effect after another: the later pause flag and variables win. */
  function Then(c: Fsm.Check, d: Fsm.Check): Fsm.Check {
    Fsm.Check(c.kill || d.kill, if d.pause.Some? then d.pause else c.pause, c.updates + d.updates)
  }

  function EffectOf(s: Signal): Fsm.Check {
    match s.kind
    case Kill => Fsm.Check(true, None, map[])
    case Pause => Fsm.Check(false, Some(true), map[])
    case Resume => Fsm.Check(false, Some(false), map[])
    case Configure => Fsm.Check(false, None, s.vars)
    case _ => Fsm.Check(false, None, map[])
  }

  /** The net effect of some signals, as a run sees it. */
  function Effect(signals: seq<Signal>, ids: seq<nat>): Fsm.Check
    requires forall k | 0 <= k < |ids| :: ids[k] < |signals|
  {
    if ids == [] then Fsm.Check(false, None, map[])
    else Then(EffectOf(signals[ids[0]]), Effect(signals, ids[1..]))
  }

  /** What a run makes of the effect of a check; see `Fsm.ApplyCheck`. */
  function Apply(c: Fsm.Check, view: View): View {
    View(view.vars + c.updates, c.pause.GetOr(view.paused))
  }

  lemma {:induction false} ApplyThen(c: Fsm.Check, d: Fsm.Check, view: View)
    ensures Apply(Then(c, d), view) == Apply(d, Apply(c, view))
  {}

  lemma {:induction false} ApplyOne(s: Signal, view: View)
    ensures Apply(EffectOf(s), view) == Act(s, view)
  {}

  /** Acknowledging and completing signals changes neither kinds nor payloads. */
  ghost predicate SamePayloads(signals: seq<Signal>, signals': seq<Signal>) {
    |signals| == |signals'|
    && forall i | 0 <= i < |signals| :: signals'[i].kind == signals[i].kind && signals'[i].vars == signals[i].vars
  }

  lemma {:induction false} SameUpToKill(signals: seq<Signal>, signals': seq<Signal>, ids: seq<nat>)
    requires SamePayloads(signals, signals') && forall k | 0 <= k < |ids| :: ids[k] < |signals|
    ensures UpToKill(signals', ids) == UpToKill(signals, ids)
  {
    if ids != [] {
      SameUpToKill(signals, signals', ids[1..]);
    }
  }

  lemma {:induction false} SameEffect(signals: seq<Signal>, signals': seq<Signal>, ids: seq<nat>)
    requires SamePayloads(signals, signals') && forall k | 0 <= k < |ids| :: ids[k] < |signals|
    ensures Effect(signals', ids) == Effect(signals, ids)
  {
    if ids != [] {
      SameEffect(signals, signals', ids[1..]);
    }
  }

  /** A signal once processed. */
  function Closed(s: Signal): Signal {
    s.(delivery := Completed, outcome := Some(s.kind))
  }

  /** The signals listed are completed, the others unchanged. */
  ghost predicate Closes(signals: seq<Signal>, signals': seq<Signal>, ids: seq<nat>) {
    |signals'| == |signals|
    && forall i: nat | i < |signals| :: signals'[i] == if i in ids then Closed(signals[i]) else signals[i]
  }

  ghost predicate DistinctIds(ids: seq<nat>) {
    forall k, l | 0 <= k < l < |ids| :: ids[k] != ids[l]
  }

  /** A check completes the signals up to the first kill and no others. */
  lemma {:induction false} DrainCloses(t: Tables, ids: seq<nat>, view: View)
    requires (forall k | 0 <= k < |ids| :: ids[k] < |t.signals|) && DistinctIds(ids)
    ensures Closes(t.signals, Drain(t, ids, view).0.signals, UpToKill(t.signals, ids))
    decreases |ids|
  {
    if ids != [] && !t.signals[ids[0]].kind.Kill? {
      var t1 := Processed(t, ids[0]);
      SameUpToKill(t.signals, t1.signals, ids[1..]);
      DrainCloses(t1, ids[1..], Act(t.signals[ids[0]], view));
      assert ids[0] !in ids[1..];
      assert UpToKill(t.signals, ids[1..]) <= ids[1..];
    }
  }

  lemma {:induction false} EffectOfFirst(signals: seq<Signal>, ids: seq<nat>)
    requires ids != [] && forall k | 0 <= k < |ids| :: ids[k] < |signals|
    ensures var s := signals[ids[0]];
      Effect(signals, UpToKill(signals, ids))
        == if s.kind.Kill? then EffectOf(s) else Then(EffectOf(s), Effect(signals, UpToKill(signals, ids[1..])))
  {}

  /** Draining some signals has their net effect on the agent. */
  ghost predicate HasEffect(t: Tables, ids: seq<nat>, view: View)
    requires forall k | 0 <= k < |ids| :: ids[k] < |t.signals|
  {
    var (_, view', killed) := Drain(t, ids, view);
    var effect := Effect(t.signals, UpToKill(t.signals, ids));
    killed == effect.kill && view' == Apply(effect, view)
  }

  lemma {:induction false} SameNetEffect(signals: seq<Signal>, signals': seq<Signal>, ids: seq<nat>)
    requires SamePayloads(signals, signals') && forall k | 0 <= k < |ids| :: ids[k] < |signals|
    ensures Effect(signals', UpToKill(signals', ids)) == Effect(signals, UpToKill(signals, ids))
  {
    SameUpToKill(signals, signals', ids);
    SameEffect(signals, signals', UpToKill(signals, ids));
  }

  lemma {:induction false} EffectAfterFirst(t: Tables, ids: seq<nat>, view: View)
    requires ids != [] && (forall k | 0 <= k < |ids| :: ids[k] < |t.signals|) && !t.signals[ids[0]].kind.Kill?
    requires HasEffect(Processed(t, ids[0]), ids[1..], Act(t.signals[ids[0]], view))
    ensures HasEffect(t, ids, view)
  {
    var s, rest, t1 := t.signals[ids[0]], ids[1..], Processed(t, ids[0]);
    EffectOfFirst(t.signals, ids);
    SameNetEffect(t.signals, t1.signals, rest);
    ApplyThen(EffectOf(s), Effect(t.signals, UpToKill(t.signals, rest)), view);
    ApplyOne(s, view);
    assert Drain(t, ids, view) == Drain(t1, rest, Act(s, view));
  }

  lemma {:induction false} EffectOfKill(t: Tables, ids: seq<nat>, view: View)
    requires ids != [] && (forall k | 0 <= k < |ids| :: ids[k] < |t.signals|) && t.signals[ids[0]].kind.Kill?
    ensures HasEffect(t, ids, view)
  {
    EffectOfFirst(t.signals, ids);
    ApplyOne(t.signals[ids[0]], view);
  }

  /** Its effect on the agent is the net effect of those signals: the variables
      of all the `configure`s, the flag of the last pause or resume, and whether
      there was a kill. */
  lemma {:induction false} DrainHasEffect(t: Tables, ids: seq<nat>, view: View)
    requires forall k | 0 <= k < |ids| :: ids[k] < |t.signals|
    ensures HasEffect(t, ids, view)
    decreases |ids|
  {
    if ids == [] {
      assert view.vars + map[] == view.vars;
    } else if t.signals[ids[0]].kind.Kill? {
      EffectOfKill(t, ids, view);
    } else {
      DrainHasEffect(Processed(t, ids[0]), ids[1..], Act(t.signals[ids[0]], view));
      EffectAfterFirst(t, ids, view);
    }
  }

  lemma {:induction false} PendingIsDistinct(signals: seq<Signal>, agent: int, n: nat)
    requires n <= |signals|
    ensures DistinctIds(PendingOf(signals, agent, n))
  {
    if n > 0 {
      PendingIsDistinct(signals, agent, n - 1);
    }
  }

  lemma {:induction false} PendingIsOwn(signals: seq<Signal>, agent: int, n: nat)
    requires n <= |signals|
    ensures forall k | 0 <= k < |PendingOf(signals, agent, n)| ::
      signals[PendingOf(signals, agent, n)[k]].agent == agent
  {
    if n > 0 {
      PendingIsOwn(signals, agent, n - 1);
    }
  }

  /** One check of an agent, in full. */
  lemma {:induction false} CheckIsExact(t: Tables, agent: int, view: View)
    ensures var (t', view', killed) := Checked(t, agent, view);
      var drained := UpToKill(t.signals, PendingOf(t.signals, agent, |t.signals|));
      && Closes(t.signals, t'.signals, drained)
      && killed == Effect(t.signals, drained).kill
      && view' == Apply(Effect(t.signals, drained), view)
  {
    PendingIsDistinct(t.signals, agent, |t.signals|);
    DrainCloses(t, PendingOf(t.signals, agent, |t.signals|), view);
    DrainHasEffect(t, PendingOf(t.signals, agent, |t.signals|), view);
  }

  /** A run of the interpreter sees a check as `Fsm.ApplyCheck` of that effect. */
  lemma {:induction false} RunSeesCheck(t: Tables, agent: int, st: Fsm.Run)
    ensures var (t', view', killed) := Checked(t, agent, View(st.vars, st.paused));
      var effect := Effect(t.signals, UpToKill(t.signals, PendingOf(t.signals, agent, |t.signals|)));
      var st' := Fsm.ApplyCheck(st, effect);
      && st'.vars == view'.vars && st'.paused == view'.paused
      && (killed ==> st'.status.Aborted? && st'.reason.KilledBySignal?)
      && st' == st.(vars := view'.vars, paused := view'.paused, status := st'.status, reason := st'.reason)
      && (!killed ==> st'.status == st.status && st'.reason == st.reason)
  {
    CheckIsExact(t, agent, View(st.vars, st.paused));
  }

  // ---- Runs of sends and checks ----

  datatype Event =
    | Send(agent: int, kind: Kind, vars: Vars, state: Option<string>)
    | CheckBy(agent: int, view: View)

  function After(events: seq<Event>): Tables {
    if events == [] then Tables([], map[])
    else
      var t := After(events[..|events| - 1]);
      match events[|events| - 1]
      case Send(agent, kind, vars, state) => Sent(t, agent, kind, vars, state)
      case CheckBy(agent, view) => Checked(t, agent, view).0
  }

  /** The signals an agent's checks have drained, in the order they did. */
  function Delivered(events: seq<Event>, agent: int): seq<nat> {
    if events == [] then []
    else
      var t, before := After(events[..|events| - 1]), Delivered(events[..|events| - 1], agent);
      var ev := events[|events| - 1];
      if ev.CheckBy? && ev.agent == agent then
        before + UpToKill(t.signals, PendingOf(t.signals, agent, |t.signals|))
      else before
  }

  /** The signals ever sent to an agent, in order. */
  function SentTo(signals: seq<Signal>, agent: int): seq<nat> {
    if signals == [] then []
    else
      var n := |signals| - 1;
      SentTo(signals[..n], agent) + if signals[n].agent == agent then [n] else []
  }

  function Without(ids: seq<nat>, drained: seq<nat>): seq<nat> {
    if ids == [] then []
    else
      var rest, last := Without(ids[..|ids| - 1], drained), ids[|ids| - 1];
      if last in drained then rest else rest + [last]
  }

  lemma {:induction false} WithoutAppend(ids: seq<nat>, id: nat, drained: seq<nat>)
    ensures Without(ids + [id], drained) ==
      if id in drained then Without(ids, drained) else Without(ids, drained) + [id]
  {}

  /** What stays pending among the first `n` signals. */
  ghost predicate LeavesRest(signals: seq<Signal>, signals': seq<Signal>, drained: seq<nat>, agent: int, n: nat)
    requires n <= |signals| && n <= |signals'|
  {
    PendingOf(signals', agent, n) == Without(PendingOf(signals, agent, n), drained)
  }

  lemma {:induction false} PendingAfterNone(signals: seq<Signal>, signals': seq<Signal>, drained: seq<nat>, agent: int)
    ensures LeavesRest(signals, signals', drained, agent, 0)
  {}

  lemma {:induction false} PendingAfterOne(
      signals: seq<Signal>, signals': seq<Signal>, drained: seq<nat>, agent: int, i: nat)
    requires i < |signals| == |signals'| && signals'[i] == if i in drained then Closed(signals[i]) else signals[i]
    requires LeavesRest(signals, signals', drained, agent, i)
    ensures LeavesRest(signals, signals', drained, agent, i + 1)
  {
    WithoutAppend(PendingOf(signals, agent, i), i, drained);
  }

  lemma {:induction false} PendingAfterClose(
      signals: seq<Signal>, signals': seq<Signal>, drained: seq<nat>, agent: int, n: nat)
    requires Closes(signals, signals', drained) && n <= |signals|
    ensures LeavesRest(signals, signals', drained, agent, n)
  {
    if n == 0 {
      PendingAfterNone(signals, signals', drained, agent);
    } else {
      PendingAfterClose(signals, signals', drained, agent, n - 1);
      PendingAfterOne(signals, signals', drained, agent, n - 1);
    }
  }

  lemma {:induction false} WithoutPrefix(ids: seq<nat>, drained: seq<nat>, k: nat)
    requires k <= |ids|
    requires forall i | 0 <= i < k :: ids[i] in drained
    requires forall i | k <= i < |ids| :: ids[i] !in drained
    ensures Without(ids, drained) == ids[k..]
  {
    if ids != [] {
      var n := |ids| - 1;
      if k == |ids| {
        WithoutPrefix(ids[..n], drained, n);
      } else {
        WithoutPrefix(ids[..n], drained, k);
        assert ids[k..] == ids[..n][k..] + [ids[n]];
      }
    }
  }

  /** What is left pending after a check, for the agent and for another one. */
  lemma {:induction false} PendingAfterCheck(t: Tables, agent: int, view: View, other: int)
    ensures var t' := Checked(t, agent, view).0;
      var pending := PendingOf(t.signals, other, |t.signals|);
      var drained := UpToKill(t.signals, PendingOf(t.signals, agent, |t.signals|));
      PendingOf(t'.signals, other, |t'.signals|) == if other == agent then pending[|drained|..] else pending
  {
    var t' := Checked(t, agent, view).0;
    var mine, pending := PendingOf(t.signals, agent, |t.signals|), PendingOf(t.signals, other, |t.signals|);
    var drained := UpToKill(t.signals, mine);
    PendingIsDistinct(t.signals, agent, |t.signals|);
    DrainCloses(t, mine, view);
    PendingAfterClose(t.signals, t'.signals, drained, other, |t.signals|);
    if other == agent {
      assert forall i | |drained| <= i < |mine| :: mine[i] !in drained;
      WithoutPrefix(pending, drained, |drained|);
    } else {
      PendingIsOwn(t.signals, agent, |t.signals|);
      PendingIsOwn(t.signals, other, |t.signals|);
      assert forall id | id in drained :: t.signals[id].agent == agent;
      WithoutPrefix(pending, drained, 0);
    }
  }

  lemma {:induction false} PendingOfPrefix(signals: seq<Signal>, s: Signal, agent: int, n: nat)
    requires n <= |signals|
    ensures PendingOf(signals + [s], agent, n) == PendingOf(signals, agent, n)
  {
    if n > 0 {
      PendingOfPrefix(signals, s, agent, n - 1);
    }
  }

  lemma {:induction false} SentToKeeps(signals: seq<Signal>, signals': seq<Signal>, agent: int)
    requires |signals| == |signals'| && forall i | 0 <= i < |signals| :: signals'[i].agent == signals[i].agent
    ensures SentTo(signals', agent) == SentTo(signals, agent)
  {
    if signals != [] {
      SentToKeeps(signals[..|signals| - 1], signals'[..|signals| - 1], agent);
    }
  }

  lemma {:induction false} SendIsPending(signals: seq<Signal>, s: Signal, agent: int)
    requires s.delivery.Pending?
    ensures PendingOf(signals + [s], agent, |signals| + 1)
         == PendingOf(signals, agent, |signals|) + if s.agent == agent then [|signals|] else []
    ensures SentTo(signals + [s], agent) == SentTo(signals, agent) + if s.agent == agent then [|signals|] else []
  {
    PendingOfPrefix(signals, s, agent, |signals|);
    assert (signals + [s])[..|signals|] == signals;
  }

  /** First in, first out, and each signal once: over any run of sends and
      checks of any agents, what an agent has drained, followed by what is
      pending for it, is exactly what was sent to it, in order. */
  lemma {:induction false} DeliveredInOrder(events: seq<Event>, agent: int)
    ensures var t := After(events);
      Delivered(events, agent) + PendingOf(t.signals, agent, |t.signals|) == SentTo(t.signals, agent)
  {
    if events != [] {
      var rest, ev := events[..|events| - 1], events[|events| - 1];
      DeliveredInOrder(rest, agent);
      match ev
      case Send(a, kind, vars, state) =>
        var s := Signal(a, kind, vars, state, Pending, None);
        SendInOrder(After(rest).signals, s, agent, Delivered(rest, agent));
      case CheckBy(a, view) => CheckInOrder(After(rest), a, view, agent, Delivered(rest, agent));
    }
  }

  lemma {:induction false} SendInOrder(signals: seq<Signal>, s: Signal, agent: int, delivered: seq<nat>)
    requires s.delivery.Pending? && delivered + PendingOf(signals, agent, |signals|) == SentTo(signals, agent)
    ensures delivered + PendingOf(signals + [s], agent, |signals + [s]|) == SentTo(signals + [s], agent)
  {
    SendIsPending(signals, s, agent);
    var more := if s.agent == agent then [|signals|] else [];
    assert delivered + (PendingOf(signals, agent, |signals|) + more) ==
      delivered + PendingOf(signals, agent, |signals|) + more;
  }

  lemma {:induction false} SplitAgain(delivered: seq<nat>, pending: seq<nat>, drained: seq<nat>)
    requires drained <= pending
    ensures delivered + drained + pending[|drained|..] == delivered + pending
  {}

  lemma {:induction false} CheckInOrder(t: Tables, agent: int, view: View, other: int, delivered: seq<nat>)
    requires delivered + PendingOf(t.signals, other, |t.signals|) == SentTo(t.signals, other)
    ensures var t' := Checked(t, agent, view).0;
      var drained := UpToKill(t.signals, PendingOf(t.signals, agent, |t.signals|));
      (if agent == other then delivered + drained else delivered) + PendingOf(t'.signals, other, |t'.signals|)
      == SentTo(t'.signals, other)
  {
    var t', pending := Checked(t, agent, view).0, PendingOf(t.signals, other, |t.signals|);
    PendingAfterCheck(t, agent, view, other);
    assert SentTo(t'.signals, other) == SentTo(t.signals, other) by {
      PendingIsDistinct(t.signals, agent, |t.signals|);
      DrainCloses(t, PendingOf(t.signals, agent, |t.signals|), view);
      SentToKeeps(t.signals, t'.signals, other);
    }
    if agent == other {
      SplitAgain(delivered, pending, UpToKill(t.signals, pending));
    }
  }
}
