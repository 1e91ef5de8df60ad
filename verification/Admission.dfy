/** Admission of an agent: if it does not fit, active preemptible agents of
    strictly lower priority are killed, the least important first, until it
    does. */
module Admission {
  import opened Wrappers

  const DEFAULT_PRIORITY := 5

  /** The declared resources that preemption looks at; both may be missing. */
  datatype Declared = Declared(priority: Option<int>, preemptible: Option<bool>)

  /** A row of `agent_runtime`: whether the agent runs inside the daemon. */
  datatype Runtime = Runtime(inDaemon: bool)

  datatype Status = Active | Stopped

  /** `active` is the list of hydrated agents, by name; `kills` the kill signals
      sent. */
  datatype State = State(
    declared: map<int, Declared>,
    active: seq<int>,
    runtime: map<int, Runtime>,
    status: map<int, Status>,
    kills: seq<int>)

  datatype Candidate = Candidate(priority: int, id: int)

  // ---- Candidates ----

  function PriorityOf(st: State, id: int): int {
    if id in st.declared then st.declared[id].priority.GetOr(DEFAULT_PRIORITY) else DEFAULT_PRIORITY
  }

  /** An agent without a row has no resources, hence is not preemptible. */
  predicate IsPreemptible(st: State, id: int) {
    id in st.declared && st.declared[id].preemptible.GetOr(true)
  }

  predicate Eligible(st: State, me: int, id: int) {
    IsPreemptible(st, id) && PriorityOf(st, id) < PriorityOf(st, me)
  }

  /** The order of Python's tuples. */
  predicate Precedes(a: Candidate, b: Candidate) {
    a.priority < b.priority || (a.priority == b.priority && a.id < b.id)
  }

  function Insert(c: Candidate, sorted: seq<Candidate>): seq<Candidate> {
    if sorted == [] || !Precedes(sorted[0], c) then [c] + sorted
    else [sorted[0]] + Insert(c, sorted[1..])
  }

  function Sort(cs: seq<Candidate>): seq<Candidate> {
    if cs == [] then [] else Insert(cs[|cs| - 1], Sort(cs[..|cs| - 1]))
  }

  function Collect(st: State, me: int, active: seq<int>): seq<Candidate> {
    if active == [] then []
    else
      var id := active[|active| - 1];
      Collect(st, me, active[..|active| - 1]) + if Eligible(st, me, id) then [Candidate(PriorityOf(st, id), id)] else []
  }

  function Candidates(st: State, me: int): seq<Candidate> {
    Sort(Collect(st, me, st.active))
  }

  // ---- Killing ----

  /** `kill`, as far as the database is concerned: nothing for an agent that is
      not hydrated, and neither status nor signal for one without a row. */
  function Killed(st: State, id: int): State {
    if id !in st.runtime then st
    else st.(
      runtime := st.runtime - {id},
      active := Without(st.active, id),
      status := if id in st.declared then st.status[id := Stopped] else st.status,
      kills := if st.runtime[id].inDaemon && id in st.declared then st.kills + [id] else st.kills)
  }

  function Without(ids: seq<int>, id: int): seq<int> {
    if ids == [] then []
    else Without(ids[..|ids| - 1], id) + if ids[|ids| - 1] == id then [] else [ids[|ids| - 1]]
  }

  function KilledAll(st: State, cs: seq<Candidate>): State {
    if cs == [] then st else Killed(KilledAll(st, cs[..|cs| - 1]), cs[|cs| - 1].id)
  }

  // ---- Admission ----

  /** The verdict on the agent's needs, which may change at every evaluation:
      `fits(k)` is the answer to the k-th one of an admission. */
  type Fits = nat -> bool

  /** How many of `n` candidates are killed: none if the agent fits, else up to
      the first kill after which it does. */
  function Victims(fits: Fits, n: nat): (k: nat)
    ensures k <= n
    ensures forall j | 0 <= j < k :: !fits(j)
    ensures k < n ==> fits(k)
  {
    if n == 0 then 0
    else
      var k := Victims(fits, n - 1);
      if k < n - 1 || fits(n - 1) then k else n
  }

  /** The verdict `admit` ends on: that of the last evaluation. */
  function Admitted(fits: Fits, n: nat): bool {
    fits(Victims(fits, n)) || (Victims(fits, n) == n && fits(n + 1))
  }

  class AgentManager {
    var declared: map<int, Declared>
    var active: seq<int>
    var runtime: map<int, Runtime>
    var status: map<int, Status>
    var kills: seq<int>

    ghost function Now(): State
      reads this
    {
      State(declared, active, runtime, status, kills)
    }

    constructor (st: State)
      ensures Now() == st
    {
      declared, active, runtime, status, kills := st.declared, st.active, st.runtime, st.status, st.kills;
    }

    method Kill(id: int)
      modifies this
      ensures Now() == Killed(old(Now()), id)
    {
      if id !in runtime {
        return;
      }
      if runtime[id].inDaemon && id in declared {
        kills := kills + [id];
      }
      if id in declared {
        status := status[id := Stopped];
      }
      runtime := runtime - {id};
      active := Without(active, id);
    }

    /** `admit`. */
    method Admit(me: int, fits: Fits) returns (admitted: bool, preempted: seq<Candidate>)
      modifies this
      ensures var candidates := Candidates(old(Now()), me);
        && preempted == candidates[..Victims(fits, |candidates|)]
        && admitted == Admitted(fits, |candidates|)
        && Now() == KilledAll(old(Now()), preempted)
    {
      preempted := [];
      var candidates := Candidates(State(declared, active, runtime, status, kills), me);
      if fits(0) {
        StopsAt(fits, |candidates|, 0);
        return true, [];
      }
      for k := 0 to |candidates|
        invariant preempted == candidates[..k] && Now() == KilledAll(old(Now()), preempted)
        invariant forall j | 0 <= j <= k :: !fits(j)
      {
        Kill(candidates[k].id);
        preempted := preempted + [candidates[k]];
        assert candidates[..k + 1][..k] == candidates[..k];
        if fits(k + 1) {
          StopsAt(fits, |candidates|, k + 1);
          return true, preempted;
        }
      }
      StopsAt(fits, |candidates|, |candidates|);
      assert candidates[..|candidates|] == candidates;
      admitted := fits(|candidates| + 1);
    }
  }

  /** The contract of `Victims` determines it. */
  lemma {:induction false} StopsAt(fits: Fits, n: nat, k: nat)
    requires k <= n && (forall j | 0 <= j < k :: !fits(j)) && (k < n ==> fits(k))
    ensures Victims(fits, n) == k
  {}

  /** The agent is admitted exactly when one of the evaluations says yes: the
      first, one after a kill, or the one that closes the loop. */
  lemma {:induction false} AdmittedIsExact(fits: Fits, n: nat)
    ensures Admitted(fits, n) <==> exists k: nat :: k <= n + 1 && fits(k)
  {}

  // ---- Who is killed ----

  ghost predicate Ordered(cs: seq<Candidate>) {
    |cs| >= 2 ==> !Precedes(cs[1], cs[0]) && Ordered(cs[1..])
  }

  lemma {:induction false} InsertOrders(c: Candidate, sorted: seq<Candidate>)
    requires Ordered(sorted)
    ensures Ordered(Insert(c, sorted))
  {
    if sorted != [] {
      if Precedes(sorted[0], c) {
        InsertOrders(c, sorted[1..]);
        var rest := Insert(c, sorted[1..]);
        assert ([sorted[0]] + rest)[1..] == rest;
        assert rest[0] == c || (sorted[1..] != [] && rest[0] == sorted[1]);
      } else {
        assert ([c] + sorted)[1..] == sorted;
      }
    }
  }

  lemma {:induction false} SortOrders(cs: seq<Candidate>)
    ensures Ordered(Sort(cs))
  {
    if cs != [] {
      SortOrders(cs[..|cs| - 1]);
      InsertOrders(cs[|cs| - 1], Sort(cs[..|cs| - 1]));
    }
  }

  function Count(cs: seq<Candidate>, c: Candidate): nat {
    if cs == [] then 0 else Count(cs[1..], c) + if cs[0] == c then 1 else 0
  }

  lemma {:induction false} CountAppend(cs: seq<Candidate>, last: Candidate, c: Candidate)
    ensures Count(cs + [last], c) == Count(cs, c) + if last == c then 1 else 0
  {
    if cs != [] {
      assert (cs + [last])[1..] == cs[1..] + [last];
      CountAppend(cs[1..], last, c);
    }
  }

  lemma {:induction false} CountInsert(x: Candidate, sorted: seq<Candidate>, c: Candidate)
    ensures Count(Insert(x, sorted), c) == Count(sorted, c) + if x == c then 1 else 0
  {
    if sorted != [] && Precedes(sorted[0], x) {
      CountInsert(x, sorted[1..], c);
      assert ([sorted[0]] + Insert(x, sorted[1..]))[1..] == Insert(x, sorted[1..]);
    } else {
      assert ([x] + sorted)[1..] == sorted;
    }
  }

  /** Sorting permutes. */
  lemma {:induction false} SortPermutes(cs: seq<Candidate>, c: Candidate)
    ensures Count(Sort(cs), c) == Count(cs, c)
  {
    if cs != [] {
      var n := |cs| - 1;
      SortPermutes(cs[..n], c);
      CountInsert(cs[n], Sort(cs[..n]), c);
      CountAppend(cs[..n], cs[n], c);
      assert cs[..n] + [cs[n]] == cs;
    }
  }

  lemma {:induction false} CountIn(cs: seq<Candidate>, c: Candidate)
    ensures Count(cs, c) > 0 <==> c in cs
  {
    if cs != [] {
      CountIn(cs[1..], c);
      assert cs == [cs[0]] + cs[1..];
    }
  }

  lemma {:induction false} CountTwice(cs: seq<Candidate>, i: nat, j: nat)
    requires i < j < |cs| && cs[i] == cs[j]
    ensures Count(cs, cs[i]) >= 2
  {
    if i > 0 {
      CountTwice(cs[1..], i - 1, j - 1);
    } else {
      CountIn(cs[1..], cs[0]);
      assert cs[1..][j - 1] == cs[0];
    }
  }

  lemma {:induction false} CollectIsExact(st: State, me: int, active: seq<int>, c: Candidate)
    ensures c in Collect(st, me, active) <==>
      c.id in active && Eligible(st, me, c.id) && c.priority == PriorityOf(st, c.id)
  {
    if active != [] {
      var n := |active| - 1;
      CollectIsExact(st, me, active[..n], c);
      assert active == active[..n] + [active[n]];
    }
  }

  /** The priority an agent has declared, 5 if it has declared none. */
  ghost predicate HasPriority(st: State, id: int, priority: int) {
    priority == if id in st.declared && st.declared[id].priority.Some? then st.declared[id].priority.value else 5
  }

  /** The agent is active, has a row that does not forbid preemption, and a lower
      priority than `me`. */
  ghost predicate MayBeKilled(st: State, me: int, id: int) {
    && id in st.active && id in st.declared && st.declared[id].preemptible != Some(false)
    && forall low, high | HasPriority(st, id, low) && HasPriority(st, me, high) :: low < high
  }

  lemma {:induction false} EligibleIsExact(st: State, me: int, id: int)
    ensures HasPriority(st, id, PriorityOf(st, id))
    ensures MayBeKilled(st, me, id) <==> id in st.active && Eligible(st, me, id)
  {
    assert HasPriority(st, id, PriorityOf(st, id)) && HasPriority(st, me, PriorityOf(st, me));
  }

  lemma {:induction false} CandidatesAreExact(st: State, me: int, c: Candidate)
    ensures c in Candidates(st, me) <==> MayBeKilled(st, me, c.id) && HasPriority(st, c.id, c.priority)
  {
    EligibleIsExact(st, me, c.id);
    var cs := Collect(st, me, st.active);
    CollectIsExact(st, me, st.active, c);
    SortPermutes(cs, c);
    CountIn(cs, c);
    CountIn(Candidates(st, me), c);
  }

  lemma {:induction false} OrderedAt(cs: seq<Candidate>, i: nat, j: nat)
    requires Ordered(cs) && i <= j < |cs|
    ensures !Precedes(cs[j], cs[i])
  {
    if i > 0 {
      OrderedAt(cs[1..], i - 1, j - 1);
    } else if j > 0 {
      OrderedAt(cs[1..], 0, j - 1);
    }
  }

  /** Every agent killed was active, preemptible and of strictly lower priority,
      and so not the agent itself. */
  lemma {:induction false} VictimsAreEligible(st: State, me: int, fits: Fits, victim: Candidate)
    requires var cs := Candidates(st, me); victim in cs[..Victims(fits, |cs|)]
    ensures MayBeKilled(st, me, victim.id) && HasPriority(st, victim.id, victim.priority) && victim.id != me
  {
    var cs := Candidates(st, me);
    var i :| 0 <= i < Victims(fits, |cs|) && cs[..Victims(fits, |cs|)][i] == victim;
    assert victim == cs[i];
    CandidatesAreExact(st, me, victim);
    assert HasPriority(st, me, PriorityOf(st, me));
  }

  /** The agents killed are a prefix of the candidates in increasing order of
      priority, then of id: no candidate left alone comes before a killed one. */
  lemma {:induction false} KillsLeastImportant(st: State, me: int, fits: Fits, victim: Candidate, spared: Candidate)
    requires var cs := Candidates(st, me);
      victim in cs[..Victims(fits, |cs|)] && spared in cs[Victims(fits, |cs|)..]
    ensures victim.priority < spared.priority || (victim.priority == spared.priority && victim.id <= spared.id)
  {
    var cs := Candidates(st, me);
    var k := Victims(fits, |cs|);
    SortOrders(Collect(st, me, st.active));
    var i :| 0 <= i < k && cs[..k][i] == victim;
    var j :| 0 <= j < |cs| - k && cs[k..][j] == spared;
    OrderedAt(cs, i, k + j);
  }

  /** An agent that is refused has cost the life of every agent that could be
      killed for it. */
  lemma {:induction false} RefusalKillsAll(st: State, me: int, fits: Fits, id: int)
    requires !Admitted(fits, |Candidates(st, me)|)
    ensures var cs := Candidates(st, me);
      Among(id, cs[..Victims(fits, |cs|)]) <==> MayBeKilled(st, me, id)
  {
    EligibleIsExact(st, me, id);
    var cs := Candidates(st, me);
    assert cs[..Victims(fits, |cs|)] == cs;
    var c := Candidate(PriorityOf(st, id), id);
    CandidatesAreExact(st, me, c);
    if Among(id, cs) {
      var i :| 0 <= i < |cs| && cs[i].id == id;
      CandidatesAreExact(st, me, cs[i]);
    }
  }

  // ---- What a kill leaves alone ----

  /** Every active agent is hydrated, and listed once. */
  ghost predicate Consistent(st: State) {
    (forall id | id in st.active :: id in st.runtime)
    && (forall i, j | 0 <= i < j < |st.active| :: st.active[i] != st.active[j])
  }

  lemma {:induction false} WithoutIsExact(ids: seq<int>, id: int, other: int)
    ensures other in Without(ids, id) <==> other in ids && other != id
  {
    if ids != [] {
      var n := |ids| - 1;
      WithoutIsExact(ids[..n], id, other);
      assert ids == ids[..n] + [ids[n]];
    }
  }

  ghost predicate Among(id: int, cs: seq<Candidate>) {
    exists i | 0 <= i < |cs| :: cs[i].id == id
  }

  lemma {:induction false} CollectsOnce(st: State, me: int, active: seq<int>, c: Candidate)
    requires forall i, j | 0 <= i < j < |active| :: active[i] != active[j]
    ensures Count(Collect(st, me, active), c) <= 1
  {
    if active != [] {
      var n := |active| - 1;
      var rest := Collect(st, me, active[..n]);
      CollectsOnce(st, me, active[..n], c);
      if Eligible(st, me, active[n]) {
        var last := Candidate(PriorityOf(st, active[n]), active[n]);
        CountAppend(rest, last, c);
        if c == last {
          CollectIsExact(st, me, active[..n], c);
          CountIn(rest, c);
        }
      } else {
        assert Collect(st, me, active) == rest;
      }
    }
  }

  /** The candidates are hydrated and no two are the same agent, so that they
      are strictly increasing. */
  lemma {:induction false} CandidatesAreDistinct(st: State, me: int, i: nat, j: nat)
    requires Consistent(st) && i < j < |Candidates(st, me)|
    ensures var cs := Candidates(st, me);
      && cs[i].id in st.runtime && cs[j].id in st.runtime && cs[i].id != cs[j].id
      && (cs[i].priority < cs[j].priority || (cs[i].priority == cs[j].priority && cs[i].id < cs[j].id))
  {
    var cs := Candidates(st, me);
    CandidatesAreExact(st, me, cs[i]);
    CandidatesAreExact(st, me, cs[j]);
    if cs[i].id == cs[j].id {
      CountTwice(cs, i, j);
      SortPermutes(Collect(st, me, st.active), cs[i]);
      CollectsOnce(st, me, st.active, cs[i]);
    }
    SortOrders(Collect(st, me, st.active));
    OrderedAt(cs, i, j);
  }

  /** Only the agent killed changes: it is no longer hydrated nor listed, and
      stopped if it has a row, and a kill signal goes to it if it runs inside the daemon. */
  ghost predicate Touched(st: State, st': State, id: int, killed: bool) {
    && (id in st'.runtime <==> id in st.runtime && !killed)
    && (id in st'.runtime ==> st'.runtime[id] == st.runtime[id])
    && (id in st'.active <==> id in st.active && !killed)
    && st'.declared == st.declared
    && (if killed && id in st.declared then id in st'.status && st'.status[id] == Stopped
        else (id in st'.status <==> id in st.status) && (id in st.status ==> st'.status[id] == st.status[id]))
    && (id in st'.kills <==>
        id in st.kills || (killed && id in st.declared && id in st.runtime && st.runtime[id].inDaemon))
  }

  lemma {:induction false} KillTouchesOne(st: State, victim: int, id: int)
    requires victim in st.runtime
    ensures Touched(st, Killed(st, victim), id, id == victim)
  {
    WithoutIsExact(st.active, victim, id);
  }

  lemma {:induction false} AmongAppend(cs: seq<Candidate>, last: Candidate, id: int)
    ensures Among(id, cs + [last]) <==> Among(id, cs) || id == last.id
  {
    var all := cs + [last];
    assert all[|cs|] == last;
    assert forall i | 0 <= i < |cs| :: all[i] == cs[i];
  }

  /** After killing some candidates, exactly those are touched. */
  lemma {:induction false} KillsOnlyVictims(st: State, cs: seq<Candidate>, id: int)
    requires forall i | 0 <= i < |cs| :: cs[i].id in st.runtime
    requires forall i, j | 0 <= i < j < |cs| :: cs[i].id != cs[j].id
    ensures Touched(st, KilledAll(st, cs), id, Among(id, cs))
  {
    if cs != [] {
      var n := |cs| - 1;
      KillsOnlyVictims(st, cs[..n], id);
      KillsOnlyVictims(st, cs[..n], cs[n].id);
      AmongAppend(cs[..n], cs[n], id);
      assert cs[..n] + [cs[n]] == cs;
      KillTouchesOne(KilledAll(st, cs[..n]), cs[n].id, id);
    }
  }

  /** An admission touches the agents it kills and no other. */
  lemma {:induction false} AdmissionTouchesVictims(st: State, me: int, fits: Fits, id: int)
    requires Consistent(st)
    ensures var cs := Candidates(st, me);
      var victims := cs[..Victims(fits, |cs|)];
      Touched(st, KilledAll(st, victims), id, Among(id, victims))
  {
    var cs := Candidates(st, me);
    var k := Victims(fits, |cs|);
    forall i | 0 <= i < k
      ensures cs[i].id in st.runtime
    {
      CandidatesAreExact(st, me, cs[i]);
    }
    forall i, j | 0 <= i < j < k
      ensures cs[i].id != cs[j].id
    {
      CandidatesAreDistinct(st, me, i, j);
    }
    KillsOnlyVictims(st, cs[..k], id);
  }
}
