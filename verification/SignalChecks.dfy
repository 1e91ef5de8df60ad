/** What one check does, said of the signals in the table: which of them it
    drains, and what the agent, its state column and its run get from them. */
module SignalChecks {
  import opened Wrappers
  import opened Workflow
  import opened Signals

  ghost predicate Waits(signals: seq<Signal>, agent: int, i: nat)
    requires i < |signals|
  {
    signals[i].agent == agent && signals[i].delivery.Pending?
  }

  /** The signal is pending for the agent, and so is no kill before it. */
  ghost predicate IsDue(signals: seq<Signal>, agent: int, i: nat) {
    && i < |signals| && Waits(signals, agent, i)
    && forall j | 0 <= j < i && Waits(signals, agent, j) :: !signals[j].kind.Kill?
  }

  ghost predicate Increasing(ids: seq<nat>) {
    forall k, l | 0 <= k < l < |ids| :: ids[k] < ids[l]
  }

  /** The signals due, in order. */
  ghost predicate AreDue(signals: seq<Signal>, agent: int, ids: seq<nat>) {
    Increasing(ids) && forall i :: i in ids <==> IsDue(signals, agent, i)
  }

  lemma {:induction false} PendingIsExact(signals: seq<Signal>, agent: int, n: nat)
    requires n <= |signals|
    ensures var ids := PendingOf(signals, agent, n);
      Increasing(ids) && forall i: nat :: i in ids <==> i < n && Waits(signals, agent, i)
  {
    if n > 0 {
      PendingIsExact(signals, agent, n - 1);
    }
  }

  /** The first of some signals, up to and including the first kill. */
  lemma {:induction false} UpToKillIsExact(signals: seq<Signal>, ids: seq<nat>, k: nat)
    requires k < |ids| && (forall l | 0 <= l < |ids| :: ids[l] < |signals|)
    ensures k < |UpToKill(signals, ids)| <==> forall l | 0 <= l < k :: !signals[ids[l]].kind.Kill?
  {
    if k > 0 && !signals[ids[0]].kind.Kill? {
      UpToKillIsExact(signals, ids[1..], k - 1);
      assert forall l | 0 < l < k :: ids[l] == ids[1..][l - 1];
      assert forall l | 0 <= l < k - 1 :: ids[1..][l] == ids[l + 1];
    }
  }

  /** No kill is among the first `k`. */
  ghost predicate NoKillBefore(signals: seq<Signal>, ids: seq<nat>, k: nat)
    requires k <= |ids| && (forall l | 0 <= l < |ids| :: ids[l] < |signals|)
  {
    forall l | 0 <= l < k :: !signals[ids[l]].kind.Kill?
  }

  lemma {:induction false} DueIsBeforeKill(signals: seq<Signal>, agent: int, ids: seq<nat>, k: nat)
    requires k < |ids| && Increasing(ids) && (forall l | 0 <= l < |ids| :: ids[l] < |signals|)
    requires forall l | 0 <= l < |ids| :: Waits(signals, agent, ids[l])
    requires IsDue(signals, agent, ids[k])
    ensures NoKillBefore(signals, ids, k)
  {
    forall l | 0 <= l < k
      ensures !signals[ids[l]].kind.Kill?
    {
      assert Waits(signals, agent, ids[l]) && ids[l] < ids[k];
    }
  }

  lemma {:induction false} BeforeKillIsDue(signals: seq<Signal>, agent: int, ids: seq<nat>, k: nat)
    requires k < |ids| && Increasing(ids) && (forall l | 0 <= l < |ids| :: ids[l] < |signals|)
    requires forall i: nat :: i in ids <==> i < |signals| && Waits(signals, agent, i)
    requires NoKillBefore(signals, ids, k)
    ensures IsDue(signals, agent, ids[k])
  {
    assert ids[k] in ids;
    forall j | 0 <= j < ids[k] && Waits(signals, agent, j)
      ensures !signals[j].kind.Kill?
    {
      var l :| 0 <= l < |ids| && ids[l] == j;
    }
  }

  lemma {:induction false} DueIsDrained(signals: seq<Signal>, agent: int, k: nat)
    requires k < |PendingOf(signals, agent, |signals|)|
    ensures var ids := PendingOf(signals, agent, |signals|);
      k < |UpToKill(signals, ids)| <==> IsDue(signals, agent, ids[k])
  {
    var ids := PendingOf(signals, agent, |signals|);
    PendingIsExact(signals, agent, |signals|);
    UpToKillIsExact(signals, ids, k);
    assert forall l | 0 <= l < |ids| :: ids[l] in ids;
    if IsDue(signals, agent, ids[k]) {
      DueIsBeforeKill(signals, agent, ids, k);
    }
    if NoKillBefore(signals, ids, k) {
      BeforeKillIsDue(signals, agent, ids, k);
    }
  }

  /** A check drains the signals due. */
  lemma {:induction false} DrainedAreDue(signals: seq<Signal>, agent: int)
    ensures AreDue(signals, agent, UpToKill(signals, PendingOf(signals, agent, |signals|)))
  {
    var ids := PendingOf(signals, agent, |signals|);
    var drained := UpToKill(signals, ids);
    PendingIsExact(signals, agent, |signals|);
    forall i
      ensures i in drained <==> IsDue(signals, agent, i)
    {
      if i in drained {
        var k :| 0 <= k < |drained| && drained[k] == i;
        DueIsDrained(signals, agent, k);
      }
      if IsDue(signals, agent, i) {
        assert i in ids;
        var k :| 0 <= k < |ids| && ids[k] == i;
        DueIsDrained(signals, agent, k);
        assert drained[k] == i;
      }
    }
  }

  // ---- The last signal that says something decides ----

  /** No signal listed from position `k` on gives a value. */
  ghost predicate Silent<T>(signals: seq<Signal>, ids: seq<nat>, k: nat, gives: Signal -> Option<T>)
    requires forall l | 0 <= l < |ids| :: ids[l] < |signals|
  {
    forall l | k <= l < |ids| :: gives(signals[ids[l]]).None?
  }

  /** The value `now` is the one given by the last signal listed that gives one,
      or the old one if none does. */
  ghost predicate IsLatest<T>(
      signals: seq<Signal>, ids: seq<nat>, gives: Signal -> Option<T>, before: T, now: T)
    requires forall l | 0 <= l < |ids| :: ids[l] < |signals|
  {
    || (Silent(signals, ids, 0, gives) && now == before)
    || exists k: nat :: k < |ids| && Silent(signals, ids, k + 1, gives) && gives(signals[ids[k]]) == Some(now)
  }

  lemma {:induction false} OneMoreBefore<T>(
      signals: seq<Signal>, signals': seq<Signal>, ids: seq<nat>, gives: Signal -> Option<T>, before: T, now: T)
    requires ids != [] && |signals'| == |signals| && forall l | 0 <= l < |ids| :: ids[l] < |signals|
    requires forall l | 0 < l < |ids| :: signals'[ids[l]] == signals[ids[l]]
    requires IsLatest(signals', ids[1..], gives, gives(signals[ids[0]]).GetOr(before), now)
    ensures IsLatest(signals, ids, gives, before, now)
  {
    var rest, first := ids[1..], gives(signals[ids[0]]);
    assert forall l | 0 < l < |ids| :: ids[l] == rest[l - 1];
    if Silent(signals', rest, 0, gives) && now == first.GetOr(before) {
      assert Silent(signals, ids, 1, gives);
      if first.Some? {
        assert gives(signals[ids[0]]) == Some(now);
      } else {
        assert Silent(signals, ids, 0, gives);
      }
    } else {
      var k: nat :| k < |rest| && Silent(signals', rest, k + 1, gives) && gives(signals'[rest[k]]) == Some(now);
      assert Silent(signals, ids, k + 2, gives);
      assert gives(signals[ids[k + 1]]) == Some(now);
    }
  }

  // What a signal gives.

  ghost function PauseFlag(s: Signal): Option<bool> {
    if s.kind.Pause? then Some(true) else if s.kind.Resume? then Some(false) else None
  }

  ghost function VariableGiven(name: string): Signal -> Option<Option<Value>> {
    (s: Signal) => if s.kind.Configure? && name in s.vars then Some(Some(s.vars[name])) else None
  }

  ghost function StateGiven(s: Signal): Option<Option<string>> {
    if s.kind.Configure? && s.state.Some? then Some(s.state) else None
  }

  function At<K, V>(m: map<K, V>, key: K): Option<V> {
    if key in m then Some(m[key]) else None
  }

  /** What the agent has after draining the signals listed. */
  ghost predicate Gets(t: Tables, ids: seq<nat>, view: View, view': View, name: string)
    requires forall l | 0 <= l < |ids| :: ids[l] < |t.signals|
  {
    && IsLatest(t.signals, ids, PauseFlag, view.paused, view'.paused)
    && IsLatest(t.signals, ids, VariableGiven(name), At(view.vars, name), At(view'.vars, name))
  }

  ghost predicate SetsState(t: Tables, ids: seq<nat>, agent: int, states': map<int, string>)
    requires forall l | 0 <= l < |ids| :: ids[l] < |t.signals|
  {
    && IsLatest(t.signals, ids, StateGiven, At(t.states, agent), At(states', agent))
    && forall other | other != agent :: At(states', other) == At(t.states, other)
  }

  lemma {:induction false} FirstActs(s: Signal, view: View, name: string)
    requires !s.kind.Kill?
    ensures Act(s, view).paused == PauseFlag(s).GetOr(view.paused)
    ensures At(Act(s, view).vars, name) == VariableGiven(name)(s).GetOr(At(view.vars, name))
  {}

  lemma {:induction false} FirstProcessed(t: Tables, ids: seq<nat>, agent: int)
    requires ids != [] && Listed(t, ids, agent)
    ensures var t1 := Processed(t, ids[0]);
      && Listed(t1, ids[1..], agent)
      && (forall l | 0 < l < |ids| :: t1.signals[ids[l]] == t.signals[ids[l]])
      && At(t1.states, agent) == StateGiven(t.signals[ids[0]]).GetOr(At(t.states, agent))
      && (forall other | other != agent :: At(t1.states, other) == At(t.states, other))
  {}

  /** Different signals of one agent. */
  ghost predicate Listed(t: Tables, ids: seq<nat>, agent: int) {
    && (forall l | 0 <= l < |ids| :: ids[l] < |t.signals| && t.signals[ids[l]].agent == agent)
    && DistinctIds(ids)
  }

  lemma {:induction false} SameDrained(t: Tables, ids: seq<nat>, agent: int)
    requires ids != [] && Listed(t, ids, agent) && !t.signals[ids[0]].kind.Kill?
    ensures UpToKill(t.signals, ids) == [ids[0]] + UpToKill(Processed(t, ids[0]).signals, ids[1..])
  {
    SameUpToKill(t.signals, Processed(t, ids[0]).signals, ids[1..]);
  }

  lemma {:induction false} DrainGets(t: Tables, ids: seq<nat>, agent: int, view: View, name: string)
    requires Listed(t, ids, agent)
    ensures Gets(t, UpToKill(t.signals, ids), view, Drain(t, ids, view).1, name)
    decreases |ids|
  {
    if ids != [] && !t.signals[ids[0]].kind.Kill? {
      var s, t1, view' := t.signals[ids[0]], Processed(t, ids[0]), Drain(t, ids, view).1;
      FirstProcessed(t, ids, agent);
      FirstActs(s, view, name);
      DrainGets(t1, ids[1..], agent, Act(s, view), name);
      SameDrained(t, ids, agent);
      var drained := UpToKill(t.signals, ids);
      assert drained[1..] == UpToKill(t1.signals, ids[1..]);
      OneMoreBefore(t.signals, t1.signals, drained, PauseFlag, view.paused, view'.paused);
      OneMoreBefore(
        t.signals, t1.signals, drained, VariableGiven(name), At(view.vars, name), At(view'.vars, name));
    }
  }

  lemma {:induction false} DrainSets(t: Tables, ids: seq<nat>, agent: int, view: View)
    requires Listed(t, ids, agent)
    ensures SetsState(t, UpToKill(t.signals, ids), agent, Drain(t, ids, view).0.states)
    decreases |ids|
  {
    if ids != [] && !t.signals[ids[0]].kind.Kill? {
      var t1, t' := Processed(t, ids[0]), Drain(t, ids, view).0;
      FirstProcessed(t, ids, agent);
      DrainSets(t1, ids[1..], agent, Act(t.signals[ids[0]], view));
      SameDrained(t, ids, agent);
      var drained := UpToKill(t.signals, ids);
      assert drained[1..] == UpToKill(t1.signals, ids[1..]);
      OneMoreBefore(t.signals, t1.signals, drained, StateGiven, At(t.states, agent), At(t'.states, agent));
    }
  }

  ghost predicate HasKill(signals: seq<Signal>, ids: seq<nat>)
    requires forall l | 0 <= l < |ids| :: ids[l] < |signals|
  {
    exists k :: 0 <= k < |ids| && signals[ids[k]].kind.Kill?
  }

  /** A kill is due. */
  ghost predicate KillIsDue(signals: seq<Signal>, agent: int) {
    exists i: nat :: IsDue(signals, agent, i) && signals[i].kind.Kill?
  }

  lemma {:induction false} KillAmongDue(signals: seq<Signal>, agent: int, due: seq<nat>)
    requires AreDue(signals, agent, due) && forall l | 0 <= l < |due| :: due[l] < |signals|
    ensures HasKill(signals, due) <==> KillIsDue(signals, agent)
  {
    if KillIsDue(signals, agent) {
      var i: nat :| IsDue(signals, agent, i) && signals[i].kind.Kill?;
      assert i in due;
    }
    if HasKill(signals, due) {
      var k :| 0 <= k < |due| && signals[due[k]].kind.Kill?;
      assert due[k] in due;
    }
  }

  lemma {:induction false} KillInRest(signals: seq<Signal>, signals': seq<Signal>, ids: seq<nat>)
    requires ids != [] && |signals'| == |signals| && forall l | 0 <= l < |ids| :: ids[l] < |signals|
    requires forall l | 0 < l < |ids| :: signals'[ids[l]] == signals[ids[l]]
    requires !signals[ids[0]].kind.Kill?
    ensures HasKill(signals, ids) <==> HasKill(signals', ids[1..])
  {
    var rest := ids[1..];
    assert forall l | 0 < l < |ids| :: ids[l] == rest[l - 1];
    assert forall l | 0 <= l < |rest| :: rest[l] == ids[l + 1];
  }

  lemma {:induction false} DrainKills(t: Tables, ids: seq<nat>, agent: int, view: View)
    requires Listed(t, ids, agent)
    ensures var drained := UpToKill(t.signals, ids);
      Drain(t, ids, view).2 <==> HasKill(t.signals, drained)
    decreases |ids|
  {
    if ids != [] {
      var drained := UpToKill(t.signals, ids);
      assert drained[0] == ids[0];
      if !t.signals[ids[0]].kind.Kill? {
        var t1 := Processed(t, ids[0]);
        FirstProcessed(t, ids, agent);
        DrainKills(t1, ids[1..], agent, Act(t.signals[ids[0]], view));
        SameDrained(t, ids, agent);
        assert drained[1..] == UpToKill(t1.signals, ids[1..]);
        KillInRest(t.signals, t1.signals, drained);
      }
    }
  }

  /** A signal that has been dealt with: completed, with its own kind as outcome,
      and otherwise as it was. */
  ghost predicate IsSettled(s: Signal, s': Signal) {
    && s'.delivery.Completed? && s'.outcome == Some(s.kind)
    && s'.agent == s.agent && s'.kind == s.kind && s'.vars == s.vars && s'.state == s.state
  }

  lemma {:induction false} PendingIsListed(t: Tables, agent: int)
    ensures Listed(t, PendingOf(t.signals, agent, |t.signals|), agent)
  {
    PendingIsDistinct(t.signals, agent, |t.signals|);
    PendingIsOwn(t.signals, agent, |t.signals|);
  }

  lemma {:induction false} SettlesDue(t: Tables, agent: int, view: View)
    ensures var t' := Checked(t, agent, view).0;
      && |t'.signals| == |t.signals|
      && forall i: nat | i < |t.signals| ::
           if IsDue(t.signals, agent, i) then IsSettled(t.signals[i], t'.signals[i])
           else t'.signals[i] == t.signals[i]
  {
    DrainedAreDue(t.signals, agent);
    PendingIsListed(t, agent);
    DrainCloses(t, PendingOf(t.signals, agent, |t.signals|), view);
  }

  /** One check, in full.  It settles the signals due, those pending for the agent
      up to the first kill, and no other.  Afterwards the pause flag is that of
      the last pause or resume among them, each variable has the value of the
      last configure that names it, the agent's state is that of the last
      configure that carries one, and no other agent's state has changed; a
      kill is reported if and only if one was due. */
  lemma {:induction false} CheckMeans(t: Tables, agent: int, view: View, name: string) returns (due: seq<nat>)
    ensures AreDue(t.signals, agent, due) && forall k | 0 <= k < |due| :: due[k] < |t.signals|
    ensures var (t', view', killed) := Checked(t, agent, view);
      && |t'.signals| == |t.signals|
      && (forall i: nat | i < |t.signals| ::
           if IsDue(t.signals, agent, i) then IsSettled(t.signals[i], t'.signals[i])
           else t'.signals[i] == t.signals[i])
      && (killed <==> KillIsDue(t.signals, agent))
      && Gets(t, due, view, view', name)
      && SetsState(t, due, agent, t'.states)
  {
    var ids := PendingOf(t.signals, agent, |t.signals|);
    due := UpToKill(t.signals, ids);
    DrainedAreDue(t.signals, agent);
    SettlesDue(t, agent, view);
    PendingIsListed(t, agent);
    KillAmongDue(t.signals, agent, due);
    DrainKills(t, ids, agent, view);
    DrainGets(t, ids, agent, view, name);
    DrainSets(t, ids, agent, view);
  }
}
