/** The automatic debugging loop: finished coding tasks get a test task, failed
    tests a debugging task, finished debugging a new coding task. */
module AutoDebug {
  import opened Wrappers

  datatype Status = Todo | InProgress | Done | Failed

  datatype Role = Coder | TestRunner | Debugger | OtherRole(name: string)

  /** A row of `shared_tasks`, identified by its position; `auto` marks the rows
      inserted by this service. */
  datatype Task = Task(
    role: Role,
    status: Status,
    parent: Option<nat>,
    title: string,
    context: string,
    auto: bool)

  /** The three stages of `tick`. */
  datatype Stage = CodeToTest | TestToDebug | DebugToCode

  // ---- What one stage computes ----

  function FromRole(stage: Stage): Role {
    match stage
    case CodeToTest => Coder
    case TestToDebug => TestRunner
    case DebugToCode => Debugger
  }

  function ToRole(stage: Stage): Role {
    match stage
    case CodeToTest => TestRunner
    case TestToDebug => Debugger
    case DebugToCode => Coder
  }

  function Trigger(stage: Stage): Status {
    if stage.TestToDebug? then Failed else Done
  }

  /** Some task of the list is a child of `parent` with this role. */
  predicate HasChild(tasks: seq<Task>, parent: nat, role: Role) {
    tasks != [] && ((tasks[|tasks| - 1].parent == Some(parent) && tasks[|tasks| - 1].role == role)
                    || HasChild(tasks[..|tasks| - 1], parent, role))
  }

  predicate IsDue(tasks: seq<Task>, stage: Stage, i: nat)
    requires i < |tasks|
  {
    tasks[i].status == Trigger(stage) && tasks[i].role == FromRole(stage) && !HasChild(tasks, i, ToRole(stage))
  }

  /** The query of a stage: the due tasks among the first `n`, in order. */
  function Due(tasks: seq<Task>, stage: Stage, n: nat): (due: seq<nat>)
    requires n <= |tasks|
    ensures forall k | 0 <= k < |due| :: due[k] < n && IsDue(tasks, stage, due[k])
    ensures forall k, l | 0 <= k < l < |due| :: due[k] < due[l]
  {
    if n == 0 then []
    else
      var due := Due(tasks, stage, n - 1);
      if IsDue(tasks, stage, n - 1) then due + [n - 1] else due
  }

  lemma {:induction false} DueIsComplete(tasks: seq<Task>, stage: Stage, n: nat, i: nat) returns (k: nat)
    requires i < n <= |tasks| && IsDue(tasks, stage, i)
    ensures k < |Due(tasks, stage, n)| && Due(tasks, stage, n)[k] == i
  {
    if i == n - 1 {
      k := |Due(tasks, stage, n)| - 1;
    } else {
      k := DueIsComplete(tasks, stage, n - 1, i);
    }
  }

  function Title(tasks: seq<Task>, stage: Stage, i: nat): string
    requires i < |tasks|
  {
    match stage
    case CodeToTest => "Test: " + tasks[i].title
    case TestToDebug => "Debug: " + tasks[i].title
    case DebugToCode =>
      var parent := tasks[i].parent;
      "Fix: " + if parent.Some? && parent.value < |tasks| then tasks[parent.value].title else tasks[i].title
  }

  /** The child created for a due task. */
  function Child(tasks: seq<Task>, stage: Stage, i: nat): Task
    requires i < |tasks|
  {
    Task(ToRole(stage), Todo, Some(i), Title(tasks, stage, i), tasks[i].context, true)
  }

  /** The children created for the tasks listed, in order. */
  function Children(tasks: seq<Task>, stage: Stage, due: seq<nat>): (r: seq<Task>)
    requires forall k | 0 <= k < |due| :: due[k] < |tasks|
    ensures |r| == |due|
    ensures forall k | 0 <= k < |due| :: r[k] == Child(tasks, stage, due[k])
  {
    if due == [] then [] else Children(tasks, stage, due[..|due| - 1]) + [Child(tasks, stage, due[|due| - 1])]
  }

  lemma {:induction false} OneMoreChild(tasks: seq<Task>, stage: Stage, due: seq<nat>, k: nat)
    requires k < |due| && forall l | 0 <= l < |due| :: due[l] < |tasks|
    ensures tasks + Children(tasks, stage, due[..k]) + [Child(tasks, stage, due[k])]
         == tasks + Children(tasks, stage, due[..k + 1])
  {}

  function Handled(tasks: seq<Task>, stage: Stage): (r: seq<Task>)
    ensures tasks <= r
  {
    tasks + Children(tasks, stage, Due(tasks, stage, |tasks|))
  }

  /** `tick`. */
  function Ticked(tasks: seq<Task>): (r: seq<Task>)
    ensures tasks <= r
  {
    Handled(Handled(Handled(tasks, CodeToTest), TestToDebug), DebugToCode)
  }

  class AutoDebugService {
    var tasks: seq<Task>

    constructor ()
      ensures tasks == []
    {
      tasks := [];
    }

    /** The query of a stage. */
    method Select(stage: Stage) returns (due: seq<nat>)
      ensures due == Due(tasks, stage, |tasks|)
    {
      due := [];
      for i := 0 to |tasks|
        invariant due == Due(tasks, stage, i)
      {
        if IsDue(tasks, stage, i) {
          due := due + [i];
        }
      }
    }

    /** The insertions of a stage. */
    method Insert(stage: Stage, due: seq<nat>) returns (created: nat)
      requires forall k | 0 <= k < |due| :: due[k] < |tasks|
      modifies this
      ensures tasks == old(tasks) + Children(old(tasks), stage, due)
      ensures created == |due|
    {
      var snapshot := tasks;
      for k := 0 to |due|
        invariant tasks == snapshot + Children(snapshot, stage, due[..k])
      {
        OneMoreChild(snapshot, stage, due, k);
        tasks := tasks + [Child(snapshot, stage, due[k])];
      }
      assert due[..|due|] == due;
      created := |due|;
    }

    /** One stage: select the due tasks, then insert a child for each. */
    method Handle(stage: Stage) returns (created: nat)
      modifies this
      ensures tasks == Handled(old(tasks), stage)
      ensures created == |tasks| - |old(tasks)|
    {
      var due := Select(stage);
      created := Insert(stage, due);
    }

    method Tick() returns (count: nat)
      modifies this
      ensures tasks == Ticked(old(tasks))
      ensures count == |tasks| - |old(tasks)|
    {
      count := Handle(CodeToTest);
      var n := Handle(TestToDebug);
      count := count + n;
      n := Handle(DebugToCode);
      count := count + n;
    }
  }

  // ---- Children ----

  lemma {:induction false} HasChildAt(tasks: seq<Task>, parent: nat, role: Role, i: nat)
    requires i < |tasks| && tasks[i].parent == Some(parent) && tasks[i].role == role
    ensures HasChild(tasks, parent, role)
  {
    if i < |tasks| - 1 {
      HasChildAt(tasks[..|tasks| - 1], parent, role, i);
    }
  }

  lemma {:induction false} HasChildWitness(tasks: seq<Task>, parent: nat, role: Role) returns (i: nat)
    requires HasChild(tasks, parent, role)
    ensures i < |tasks| && tasks[i].parent == Some(parent) && tasks[i].role == role
  {
    if tasks[|tasks| - 1].parent == Some(parent) && tasks[|tasks| - 1].role == role {
      i := |tasks| - 1;
    } else {
      i := HasChildWitness(tasks[..|tasks| - 1], parent, role);
    }
  }

  /** Roles and parents are fixed and tasks are only added. */
  ghost predicate Grows(tasks: seq<Task>, tasks': seq<Task>) {
    |tasks| <= |tasks'| && forall i | 0 <= i < |tasks| ::
      tasks'[i].role == tasks[i].role && tasks'[i].parent == tasks[i].parent
  }

  lemma {:induction false} ChildrenStay(tasks: seq<Task>, tasks': seq<Task>, parent: nat, role: Role)
    requires Grows(tasks, tasks') && HasChild(tasks, parent, role)
    ensures HasChild(tasks', parent, role)
  {
    var i := HasChildWitness(tasks, parent, role);
    HasChildAt(tasks', parent, role, i);
  }

  // ---- The invariant of a run ----

  /** A task inserted by the service follows its parent, in the cycle coder,
      tester, debugger, coder. */
  predicate Follows(tasks: seq<Task>, i: nat)
    requires i < |tasks|
  {
    tasks[i].auto ==>
      tasks[i].parent.Some? && tasks[i].parent.value < i
      && exists stage :: tasks[tasks[i].parent.value].role == FromRole(stage) && tasks[i].role == ToRole(stage)
  }

  /** Two children the service gave one task differ in role. */
  ghost predicate NoTwins(tasks: seq<Task>) {
    forall i, j | 0 <= i < j < |tasks| && tasks[i].auto && tasks[j].auto && tasks[i].parent == tasks[j].parent ::
      tasks[i].role != tasks[j].role
  }

  ghost predicate Inv(tasks: seq<Task>) {
    (forall i | 0 <= i < |tasks| :: Follows(tasks, i)) && NoTwins(tasks)
  }

  /** The new tasks of a stage, by position. */
  lemma {:induction false} NewTask(tasks: seq<Task>, stage: Stage, i: nat) returns (parent: nat)
    requires |tasks| <= i < |Handled(tasks, stage)|
    ensures parent < |tasks| && IsDue(tasks, stage, parent) && Handled(tasks, stage)[i] == Child(tasks, stage, parent)
    ensures parent == Due(tasks, stage, |tasks|)[i - |tasks|]
  {
    parent := Due(tasks, stage, |tasks|)[i - |tasks|];
  }

  lemma {:induction false} NewTaskFollows(tasks: seq<Task>, stage: Stage, i: nat)
    requires |tasks| <= i < |Handled(tasks, stage)|
    ensures Follows(Handled(tasks, stage), i)
  {}

  lemma {:induction false} NewTaskIsNoTwin(tasks: seq<Task>, stage: Stage, i: nat, j: nat)
    requires i < j && |tasks| <= j < |Handled(tasks, stage)|
    requires Handled(tasks, stage)[i].parent == Handled(tasks, stage)[j].parent
    ensures Handled(tasks, stage)[i].role != Handled(tasks, stage)[j].role
  {
    var parent := NewTask(tasks, stage, j);
    if i < |tasks| {
      assert Handled(tasks, stage)[i] == tasks[i];
      if tasks[i].role == ToRole(stage) {
        HasChildAt(tasks, parent, ToRole(stage), i);
      }
    } else {
      var other := NewTask(tasks, stage, i);
    }
  }

  lemma {:induction false} HandledKeeps(tasks: seq<Task>, stage: Stage)
    requires Inv(tasks)
    ensures Inv(Handled(tasks, stage))
  {
    var n, tasks' := |tasks|, Handled(tasks, stage);
    forall i | 0 <= i < |tasks'|
      ensures Follows(tasks', i)
    {
      if i < n {
        assert Follows(tasks, i);
      } else {
        NewTaskFollows(tasks, stage, i);
      }
    }
    forall i, j | 0 <= i < j < |tasks'| && tasks'[i].auto && tasks'[j].auto && tasks'[i].parent == tasks'[j].parent
      ensures tasks'[i].role != tasks'[j].role
    {
      if j >= n {
        NewTaskIsNoTwin(tasks, stage, i, j);
      }
    }
  }

  datatype Event = Tick | SetStatus(i: nat, status: Status) | Create(task: Task)

  /** What may happen to the table: a tick, a change of status, or the insertion
      of any task by someone else. */
  function Step(tasks: seq<Task>, ev: Event): seq<Task> {
    match ev
    case Tick => Ticked(tasks)
    case SetStatus(i, status) => if i < |tasks| then tasks[i := tasks[i].(status := status)] else tasks
    case Create(task) => tasks + [task.(auto := false)]
  }

  function After(events: seq<Event>): seq<Task> {
    if events == [] then [] else Step(After(events[..|events| - 1]), events[|events| - 1])
  }

  /** Over any run of ticks, changes of status and foreign insertions, the
      service gives no task two children of the same role, and the roles along
      its parent links follow the cycle. */
  lemma {:induction false} RunKeepsCycle(events: seq<Event>)
    ensures Inv(After(events))
  {
    if events != [] {
      var before := After(events[..|events| - 1]);
      RunKeepsCycle(events[..|events| - 1]);
      match events[|events| - 1]
      case Tick =>
        HandledKeeps(before, CodeToTest);
        HandledKeeps(Handled(before, CodeToTest), TestToDebug);
        HandledKeeps(Handled(Handled(before, CodeToTest), TestToDebug), DebugToCode);
      case SetStatus(i, status) => EditKeeps(before, Step(before, SetStatus(i, status)), |before|);
      case Create(task) => EditKeeps(before, Step(before, Create(task)), |before|);
    }
  }

  /** Changes of status and tasks of others do not matter to the invariant. */
  lemma {:induction false} EditKeeps(tasks: seq<Task>, tasks': seq<Task>, n: nat)
    requires Inv(tasks) && n == |tasks| && Grows(tasks, tasks')
    requires forall i | 0 <= i < n :: tasks'[i].auto == tasks[i].auto
    requires forall i | n <= i < |tasks'| :: !tasks'[i].auto
    ensures Inv(tasks')
  {
    forall i | 0 <= i < |tasks'|
      ensures Follows(tasks', i)
    {
      if i < n {
        assert Follows(tasks, i);
      }
    }
  }

  /** The chain of parents of a task inserted by the service, as long as they
      were inserted by it too, walks the cycle backwards. */
  lemma {:induction false} ChainsAreCyclic(tasks: seq<Task>, chain: seq<nat>, k: nat)
    requires Inv(tasks) && k < |chain|
    requires forall i | 0 <= i < |chain| :: chain[i] < |tasks|
    requires forall i | 0 <= i < |chain| - 1 :: tasks[chain[i]].auto && tasks[chain[i]].parent == Some(chain[i + 1])
    ensures tasks[chain[k]].role == Back(tasks[chain[0]].role, k)
  {
    if k > 0 {
      ChainsAreCyclic(tasks, chain, k - 1);
      assert Follows(tasks, chain[k - 1]);
    }
  }

  /** The role `k` links up the cycle. */
  function Back(role: Role, k: nat): Role {
    if k == 0 then role
    else
      var r := Back(role, k - 1);
      if r == TestRunner then Coder else if r == Debugger then TestRunner else Debugger
  }

  // ---- A second tick ----

  lemma {:induction false} SettledByChild(tasks: seq<Task>, stage: Stage, i: nat)
    requires i < |tasks| && IsDue(tasks, stage, i)
    ensures HasChild(Handled(tasks, stage), i, ToRole(stage))
  {
    var k := DueIsComplete(tasks, stage, |tasks|, i);
    var parent := NewTask(tasks, stage, |tasks| + k);
    HasChildAt(Handled(tasks, stage), i, ToRole(stage), |tasks| + k);
  }

  /** A stage leaves nothing due for itself. */
  lemma {:induction false} HandledSettles(tasks: seq<Task>, stage: Stage, i: nat)
    requires i < |Handled(tasks, stage)|
    ensures !IsDue(Handled(tasks, stage), stage, i)
  {
    var n, tasks' := |tasks|, Handled(tasks, stage);
    if i >= n {
      var parent := NewTask(tasks, stage, i);
    } else if IsDue(tasks, stage, i) {
      SettledByChild(tasks, stage, i);
    } else if HasChild(tasks, i, ToRole(stage)) {
      ChildrenStay(tasks, tasks', i, ToRole(stage));
    }
  }

  /** Another stage, whose children are new, leaves it that way. */
  lemma {:induction false} OtherStageSettles(tasks: seq<Task>, stage: Stage, other: Stage, i: nat)
    requires i < |Handled(tasks, other)|
    requires i < |tasks| ==> !IsDue(tasks, stage, i)
    ensures !IsDue(Handled(tasks, other), stage, i)
  {
    var tasks' := Handled(tasks, other);
    if i >= |tasks| {
      var parent := NewTask(tasks, other, i);
    } else if HasChild(tasks, i, ToRole(stage)) {
      ChildrenStay(tasks, tasks', i, ToRole(stage));
    }
  }

  /** A tick right after another creates nothing. */
  lemma {:induction false} SecondTickIsIdle(tasks: seq<Task>)
    ensures Ticked(Ticked(tasks)) == Ticked(tasks)
  {
    var t1 := Handled(tasks, CodeToTest);
    var t2 := Handled(t1, TestToDebug);
    var t3 := Handled(t2, DebugToCode);
    forall i: nat, stage: Stage | i < |t3|
      ensures !IsDue(t3, stage, i)
    {
      if i < |t1| {
        HandledSettles(tasks, CodeToTest, i);
      }
      if i < |t2| {
        HandledSettles(t1, TestToDebug, i);
        if stage.CodeToTest? { OtherStageSettles(t1, CodeToTest, TestToDebug, i); }
      }
      match stage
      case CodeToTest => OtherStageSettles(t2, stage, DebugToCode, i);
      case TestToDebug => OtherStageSettles(t2, stage, DebugToCode, i);
      case DebugToCode => HandledSettles(t2, stage, i);
    }
    forall stage: Stage
      ensures Handled(t3, stage) == t3
    {
      NothingDue(t3, stage, |t3|);
    }
  }

  lemma {:induction false} NothingDue(tasks: seq<Task>, stage: Stage, n: nat)
    requires n <= |tasks| && forall i | 0 <= i < n :: !IsDue(tasks, stage, i)
    ensures Due(tasks, stage, n) == []
  {
    if n > 0 {
      NothingDue(tasks, stage, n - 1);
    }
  }

  // ---- One tick, task by task ----

  /** The task `i` calls for a task of this role, and has none yet: tests follow
      finished code, debugging failed tests, and new code finished debugging. */
  ghost predicate CallsFor(tasks: seq<Task>, i: nat, role: Role)
    requires i < |tasks|
  {
    && (match role
        case TestRunner => tasks[i].role.Coder? && tasks[i].status.Done?
        case Debugger => tasks[i].role.TestRunner? && tasks[i].status.Failed?
        case Coder => tasks[i].role.Debugger? && tasks[i].status.Done?
        case OtherRole(_) => false)
    && !exists j :: 0 <= j < |tasks| && tasks[j].parent == Some(i) && tasks[j].role == role
  }

  /** The task created for `i`: its context is handed on, and its title too,
      except that a correction bears the title of the task that was debugged.
      A parent beyond the table, which the tick fills up to `size` rows, is
      none. */
  ghost predicate IsFollowUp(tasks: seq<Task>, size: nat, i: nat, role: Role, s: Task)
    requires i < |tasks|
  {
    && s.role == role && s.status.Todo? && s.parent == Some(i) && s.context == tasks[i].context && s.auto
    && var parent := tasks[i].parent;
       match role
       case TestRunner => s.title == "Test: " + tasks[i].title
       case Debugger => s.title == "Debug: " + tasks[i].title
       case Coder =>
         && (parent.Some? && parent.value < |tasks| ==> s.title == "Fix: " + tasks[parent.value].title)
         && (parent.None? || parent.value >= size ==> s.title == "Fix: " + tasks[i].title)
       case OtherRole(_) => false
  }

  lemma {:induction false} DueIsExact(tasks: seq<Task>, stage: Stage, i: nat)
    requires i < |tasks|
    ensures IsDue(tasks, stage, i) <==> CallsFor(tasks, i, ToRole(stage))
  {
    if HasChild(tasks, i, ToRole(stage)) {
      var j := HasChildWitness(tasks, i, ToRole(stage));
    } else if j :| 0 <= j < |tasks| && tasks[j].parent == Some(i) && tasks[j].role == ToRole(stage) {
      HasChildAt(tasks, i, ToRole(stage), j);
    }
  }

  lemma {:induction false} ChildIsFollowUp(tasks: seq<Task>, now: seq<Task>, size: nat, stage: Stage, i: nat)
    requires i < |tasks| && tasks <= now && |now| <= size
    ensures IsFollowUp(tasks, size, i, ToRole(stage), Child(now, stage, i))
  {}

  /** What one stage creates makes no task due for another, nor settles any. */
  lemma {:induction false} OtherDue(tasks: seq<Task>, stage: Stage, other: Stage, i: nat)
    requires other != stage && i < |Handled(tasks, other)|
    ensures IsDue(Handled(tasks, other), stage, i) <==> i < |tasks| && IsDue(tasks, stage, i)
  {
    var tasks' := Handled(tasks, other);
    if i >= |tasks| {
      var parent := NewTask(tasks, other, i);
    } else if HasChild(tasks, i, ToRole(stage)) {
      ChildrenStay(tasks, tasks', i, ToRole(stage));
    } else if HasChild(tasks', i, ToRole(stage)) {
      var j := HasChildWitness(tasks', i, ToRole(stage));
      if j < |tasks| {
        HasChildAt(tasks, i, ToRole(stage), j);
      } else {
        var parent := NewTask(tasks, other, j);
      }
    }
  }

  lemma {:induction false} OtherDues(tasks: seq<Task>, stage: Stage, other: Stage, n: nat)
    requires other != stage && n <= |Handled(tasks, other)|
    ensures Due(Handled(tasks, other), stage, n) == Due(tasks, stage, if n < |tasks| then n else |tasks|)
  {
    if n > 0 {
      OtherDues(tasks, stage, other, n - 1);
      OtherDue(tasks, stage, other, n - 1);
    }
  }

  /** The tasks that call for one of this role, in order. */
  ghost predicate AreCalling(tasks: seq<Task>, role: Role, ids: seq<nat>) {
    && (forall k, l | 0 <= k < l < |ids| :: ids[k] < ids[l])
    && (forall i: nat :: i in ids <==> i < |tasks| && CallsFor(tasks, i, role))
  }

  lemma {:induction false} DuesAreCalling(tasks: seq<Task>, stage: Stage)
    ensures AreCalling(tasks, ToRole(stage), Due(tasks, stage, |tasks|))
  {
    var due := Due(tasks, stage, |tasks|);
    forall i: nat
      ensures i in due <==> i < |tasks| && CallsFor(tasks, i, ToRole(stage))
    {
      if i < |tasks| {
        DueIsExact(tasks, stage, i);
        if IsDue(tasks, stage, i) {
          var k := DueIsComplete(tasks, stage, |tasks|, i);
        }
      }
    }
  }

  /** Follow-ups of the tasks listed, one each and in order, from the row `base` on. */
  ghost predicate AreFollowUps(tasks: seq<Task>, tasks': seq<Task>, ids: seq<nat>, role: Role, base: nat) {
    && base + |ids| <= |tasks'| && (forall k | 0 <= k < |ids| :: ids[k] < |tasks|)
    && forall k | 0 <= k < |ids| :: IsFollowUp(tasks, |tasks'|, ids[k], role, tasks'[base + k])
  }

  lemma {:induction false} StageFollowsUp(
      tasks: seq<Task>, now: seq<Task>, tasks': seq<Task>, stage: Stage, due: seq<nat>)
    requires tasks <= now && due == Due(tasks, stage, |tasks|) == Due(now, stage, |now|)
    requires Handled(now, stage) <= tasks'
    ensures |Handled(now, stage)| == |now| + |due| && AreFollowUps(tasks, tasks', due, ToRole(stage), |now|)
  {
    var children := Children(now, stage, due);
    forall k | 0 <= k < |due|
      ensures IsFollowUp(tasks, |tasks'|, due[k], ToRole(stage), tasks'[|now| + k])
    {
      ChildIsFollowUp(tasks, now, |tasks'|, stage, due[k]);
      assert tasks'[|now| + k] == children[k];
    }
  }

  /** The earlier stages of a tick do not change what is due for the later ones. */
  lemma {:induction false} DuesStay(tasks: seq<Task>)
    ensures var t1 := Handled(tasks, CodeToTest);
      var t2 := Handled(t1, TestToDebug);
      && Due(t1, TestToDebug, |t1|) == Due(tasks, TestToDebug, |tasks|)
      && Due(t2, DebugToCode, |t2|) == Due(tasks, DebugToCode, |tasks|)
  {
    var t1 := Handled(tasks, CodeToTest);
    var t2 := Handled(t1, TestToDebug);
    OtherDues(tasks, TestToDebug, CodeToTest, |t1|);
    OtherDues(tasks, DebugToCode, CodeToTest, |t1|);
    OtherDues(t1, DebugToCode, TestToDebug, |t2|);
  }

  /** The tasks a tick creates, by role and position. */
  ghost predicate Creates(
      tasks: seq<Task>, tasks': seq<Task>, coded: seq<nat>, failed: seq<nat>, debugged: seq<nat>)
  {
    && tasks <= tasks' && |tasks'| == |tasks| + |coded| + |failed| + |debugged|
    && AreFollowUps(tasks, tasks', coded, TestRunner, |tasks|)
    && AreFollowUps(tasks, tasks', failed, Debugger, |tasks| + |coded|)
    && AreFollowUps(tasks, tasks', debugged, Coder, |tasks| + |coded| + |failed|)
  }

  /** What one stage has created is still there at the end of the tick. */
  lemma {:induction false} StageStays(tasks: seq<Task>, now: seq<Task>, tasks': seq<Task>, stage: Stage, base: nat)
    requires tasks <= now && base == |now| && Due(tasks, stage, |tasks|) == Due(now, stage, |now|)
    requires Handled(now, stage) <= tasks'
    ensures AreFollowUps(tasks, tasks', Due(tasks, stage, |tasks|), ToRole(stage), base)
  {
    StageFollowsUp(tasks, now, tasks', stage, Due(tasks, stage, |tasks|));
  }

  lemma {:induction false} PrefixOfMore(a: seq<Task>, b: seq<Task>, c: seq<Task>)
    requires a <= b && b <= c
    ensures a <= c
  {}

  /** The tables between the stages of a tick. */
  lemma {:induction false} TickGrows(tasks: seq<Task>)
    ensures var t1 := Handled(tasks, CodeToTest);
      var t2 := Handled(t1, TestToDebug);
      && tasks <= t2 && t1 <= Ticked(tasks) && t2 <= Ticked(tasks)
      && |t1| == |tasks| + |Due(tasks, CodeToTest, |tasks|)|
      && |t2| == |t1| + |Due(tasks, TestToDebug, |tasks|)|
      && |Ticked(tasks)| == |t2| + |Due(tasks, DebugToCode, |tasks|)|
  {
    var t1 := Handled(tasks, CodeToTest);
    var t2 := Handled(t1, TestToDebug);
    DuesStay(tasks);
    PrefixOfMore(tasks, t1, t2);
    PrefixOfMore(t1, t2, Ticked(tasks));
  }

  lemma {:induction false} TestsAreCreated(tasks: seq<Task>)
    ensures AreFollowUps(tasks, Ticked(tasks), Due(tasks, CodeToTest, |tasks|), TestRunner, |tasks|)
  {
    TickGrows(tasks);
    StageStays(tasks, tasks, Ticked(tasks), CodeToTest, |tasks|);
  }

  lemma {:induction false} DebuggingIsCreated(tasks: seq<Task>)
    ensures AreFollowUps(tasks, Ticked(tasks), Due(tasks, TestToDebug, |tasks|), Debugger,
              |tasks| + |Due(tasks, CodeToTest, |tasks|)|)
  {
    var t1 := Handled(tasks, CodeToTest);
    TickGrows(tasks);
    DuesStay(tasks);
    StageStays(tasks, t1, Ticked(tasks), TestToDebug, |tasks| + |Due(tasks, CodeToTest, |tasks|)|);
  }

  lemma {:induction false} CodingIsCreated(tasks: seq<Task>)
    ensures AreFollowUps(tasks, Ticked(tasks), Due(tasks, DebugToCode, |tasks|), Coder,
              |tasks| + |Due(tasks, CodeToTest, |tasks|)| + |Due(tasks, TestToDebug, |tasks|)|)
  {
    var t2 := Handled(Handled(tasks, CodeToTest), TestToDebug);
    TickGrows(tasks);
    DuesStay(tasks);
    StageStays(tasks, t2, Ticked(tasks), DebugToCode,
      |tasks| + |Due(tasks, CodeToTest, |tasks|)| + |Due(tasks, TestToDebug, |tasks|)|);
  }

  lemma {:induction false} TickCreates(tasks: seq<Task>)
    ensures var n := |tasks|;
      Creates(tasks, Ticked(tasks), Due(tasks, CodeToTest, n), Due(tasks, TestToDebug, n), Due(tasks, DebugToCode, n))
  {
    TickGrows(tasks);
    TestsAreCreated(tasks);
    DebuggingIsCreated(tasks);
    CodingIsCreated(tasks);
  }

  /** A tick adds one task for each that calls for one, first the tests, then the
      debugging, then the corrections, each in the order of the tasks they
      follow, and nothing else. */
  lemma {:induction false} TickIsExact(tasks: seq<Task>) returns (coded: seq<nat>, failed: seq<nat>, debugged: seq<nat>)
    ensures AreCalling(tasks, TestRunner, coded)
    ensures AreCalling(tasks, Debugger, failed)
    ensures AreCalling(tasks, Coder, debugged)
    ensures Creates(tasks, Ticked(tasks), coded, failed, debugged)
  {
    var n := |tasks|;
    coded, failed, debugged := Due(tasks, CodeToTest, n), Due(tasks, TestToDebug, n), Due(tasks, DebugToCode, n);
    DuesAreCalling(tasks, CodeToTest);
    DuesAreCalling(tasks, TestToDebug);
    DuesAreCalling(tasks, DebugToCode);
    TickCreates(tasks);
  }
}
