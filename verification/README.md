# Verified models of ModelWeaver

ModelWeaver runs agents as workflows and keeps the books around them: signals,
admission, rate limits, streams, usage, prices, disk quotas.  This project
models the parts of it that hold state and proves what they guarantee over all
inputs and all runs.

| file | what it models |
|---|---|
| `Workflow.dfy` | variables, conditions, switches and the lookup of steps, shared by both executors |
| `Fsm.dfy`, `FsmInterpreter.dfy` | the FSM interpreter: its meaning as functions on the state of a run, and the interpreter itself, a class whose handlers update one result in place |
| `FsmEdges.dfy`, `DslEdges.dfy` | what each step changes for every answer, and that runs follow the edges their steps name |
| `FsmProofs.dfy` | the iteration budget, termination and kill, at every nesting depth |
| `FsmLoops.dfy` | the algebra of `for` and `while`, and what `break` and `continue` end |
| `Dsl.dfy`, `DslExecutor.dfy` | the flat DSL executor and its sleep and resume protocol |
| `RateLimiter.dfy` | the sliding window against the full history of calls |
| `StreamBus.dfy` | the bounded chunk buffer and its cursor reader |
| `UsageCollector.dfy`, `UsageJournal.dfy` | the consolidation of journal lines, and the files the journal goes through |
| `UsagePipeline.dfy` | the two together, from the calls appended to the tables |
| `Signals.dfy`, `SignalChecks.dfy`, `Admission.dfy` | the agent manager: draining signals, preemptive admission |
| `Pricing.dfy`, `PriceList.dfy`, `ProviderMerge.dfy` | the two catalogue merges |
| `IpcFraming.dfy` | newline-delimited messages over arbitrary chunks |
| `AutoDebug.dfy` | the coder, tester, debugger task chain |
| `AgentStorage.dfy` | the disk quota counter |

Code that updates objects is modelled by classes whose methods are proved equal
to functions on values; the theorems are lemmas about those functions, and so
hold of the methods.  What comes from outside (LLM, skills, spawned agents,
databases that may be locked, resource verdicts, clocks, incoming signals) is a
parameter about which nothing is assumed.

## Where the code and its documentation differ

The model follows the code.

- `break` and `continue` are documented as acting on the enclosing loop
  (`AgentFrameWork/fsm_interpreter.py:781-789`).
  They act on the nearest body, which may be that of an `if` or a `group`:
  `BreakInsideIfIsContinue`, `WhileEndsOnFalse`, `ControlIsDirect`.
- A killed run is meant to end as `aborted`.  The step about to start still
  runs, and may overwrite that status, at any nesting depth:
  `KilledRunIsAborted` says exactly when.
- A `while` whose body has no entry point and whose condition is true never
  returns, in spite of the iteration limit: `PassMakesProgress`,
  `EmptyWhileHangs`, `WhileReturnsIff`.  Nothing else hangs: `RunTerminates`.
- A sleeping result is to be resumed after the sleep.  That is sound exactly for
  the workflows whose sleeps have successors: `ProtocolIsSound`.  Without one
  the workflow starts over: `ResumesAfterSleep`, `SleepWithoutSuccessor`.  The
  successor role an earlier run asked for is not carried over to the resumed
  one.
- A rate limit whose window is longer than 600 seconds, such as a daily quota,
  forgets live events after a cleanup: `CleanupLosesLiveEvent`,
  `DailyLimitForgets`.  The first event of a key is never compared with the
  limit, and rejected calls count.
- A collection cycle can lose records, when a retry file that cannot be
  consumed leaves a flush file behind that the next rename overwrites, and can
  count records twice, when a consume that failed half-way is committed by the
  housekeeping that follows: `RunBalance`, `HarmlessIsExact`,
  `LockedDatabaseLosesRecord`, `HousekeepingDoublesRecord`.
- A price merge fills missing costs and context windows, but replaces the
  maximal output each time: `PriceList.MergeIsFinal`.
- Merging a provider into itself deletes all its links: `SelfMergeDestroys`.
- The storage counter keeps counting bytes that an overwrite has replaced, so a
  file of more than half the quota cannot be written twice:
  `RefusedThoughItFits`, `BigFileCannotBeRewritten`.

## Model

| member | source | states |
|---|---|---|
| `Workflow.SwitchTarget` | AgentFrameWork/fsm_interpreter.py:575-602 | the successor is that of the first branch that matches, all earlier ones failing, and the default exactly when none matches |
| `Workflow.ChooseTarget` | AgentFrameWork/fsm_interpreter.py:575-602 | trying the branches in a loop finds that successor |
| `Workflow.Referenced` | AgentFrameWork/fsm_interpreter.py:259-268 | exactly the nonempty identifiers some step points to by `next`, a branch or `default`; error branches are not looked at |
| `Workflow.FindEntryPoint` | AgentFrameWork/fsm_interpreter.py:258-272 | collecting the references and scanning finds the first step nothing points to; if every step is pointed to, the first step; nothing for no steps |
| `Workflow.EntryPointIsExact` | AgentFrameWork/fsm_interpreter.py:258-272 | an identifier is the entry point if and only if it is that of the first step nothing points to, or of the first step when every step is pointed to, or empty when there is no step |
| `Workflow.Find` | AgentFrameWork/fsm_interpreter.py:173 | the last step with an identifier, and nothing only if no step has it |
| `Workflow.StepsById` | AgentFrameWork/fsm_interpreter.py:845 | the dictionary built step by step holds, for every identifier, the last step that carries it |
| `Workflow.SameEntryPoint` | AgentFrameWork/fsm_interpreter.py:258-272 | the entry point depends on the edges of the steps only, not on their types |
| `Workflow.CompareTable` | AgentFrameWork/fsm_interpreter.py:575-602 | what the comparisons mean: equality, being a part of, and the order of the numbers two texts stand for, which neither holds for texts that are not both numbers |
| `Workflow.ConditionTable` | AgentFrameWork/fsm_interpreter.py:794-829 | every reading of a condition: none, without operator or value, on truth, and by comparison |
| `Workflow.SwitchTable` | AgentFrameWork/fsm_interpreter.py:566-602 | the text of the variable, empty if it is missing, is compared with each branch in turn; the first that holds is taken, the default only if none does |
| `Fsm.RangeValues` | AgentFrameWork/fsm_interpreter.py:932-935 | the k-th value is start + k * stride, and k is in range exactly while that lies before the end in the direction of the stride |
| `Fsm.Wait` | AgentFrameWork/fsm_interpreter.py:187-194 | a pause ends resumed or aborted, never paused and running, runs no handler and costs no iteration |
| `FsmInterpreter.Interpreter.StepExternal` | AgentFrameWork/fsm_interpreter.py:276-760 | for every answer of the outside, the state and the verdict are those of the six external step types, which treat a refusal, an exception, a missing target and a kill each in their own way |
| `FsmInterpreter.Interpreter.BranchOnError` | AgentFrameWork/fsm_interpreter.py:764-777 | the error is exposed in two variables, then the error branch is taken if there is one, else the run fails |
| `FsmInterpreter.Interpreter.StepSwitch` | AgentFrameWork/fsm_interpreter.py:566-602 | the run goes on at the chosen target, changing nothing else |
| `FsmInterpreter.Interpreter.StepLeaf` | AgentFrameWork/fsm_interpreter.py:604-636 | sleep suspends at its successor, end sets status and reason, set_variable writes one variable, an unknown type fails |
| `FsmInterpreter.Interpreter.Dispatch` | AgentFrameWork/fsm_interpreter.py:208-219 | the handler invoked is the one of the step's type; break and continue raise their flag and stop |
| `FsmInterpreter.Interpreter.StepBody` | AgentFrameWork/fsm_interpreter.py:951-979 | if and group end normally for every code of their body but stop |
| `FsmInterpreter.Interpreter.StepWhile` | AgentFrameWork/fsm_interpreter.py:883-903 | whenever it returns at all, the loop computes the recursive meaning of `while`: condition, limit, pass, stop, break |
| `FsmInterpreter.Interpreter.StepFor` | AgentFrameWork/fsm_interpreter.py:905-949 | the loop computes the passes over the values, the limit being checked before each |
| `FsmInterpreter.Interpreter.BodyLoop` | AgentFrameWork/fsm_interpreter.py:848-881 | the loop of a pass, with its code: limit and missing step stop it, a raised flag is consumed and returned |
| `FsmInterpreter.Interpreter.RunBody` | AgentFrameWork/fsm_interpreter.py:832-881 | a pass starts at the entry point of the body and is normal at once if there is none |
| `FsmInterpreter.Interpreter.CheckSignals` | AgentFrameWork/fsm_interpreter.py:249-256 | the effect of one signal check on the run; a kill sets status and reason |
| `FsmInterpreter.Interpreter.AwaitResume` | AgentFrameWork/fsm_interpreter.py:190-192 | the waiting loop ends in the state and at the check where the pause is released or the run killed |
| `FsmInterpreter.Interpreter.MainLoop` | AgentFrameWork/fsm_interpreter.py:183-232 | the main loop, with checks, pauses that repeat the current step, and every way out, computes the meaning of every run that returns |
| `FsmInterpreter.Interpreter.Run` | AgentFrameWork/fsm_interpreter.py:147-247 | every run that returns, of any workflow, from any start step, returns the state given by the functions |
| `FsmEdges.ExternalTable` | AgentFrameWork/fsm_interpreter.py:276-777 | for each of the six services and each answer: an answer leads to the step's own successor, a failure to its error branch exactly where that is caught, and otherwise the run ends failed with the error, or aborted by a kill; the two error variables are set exactly for the recorded failures, variables, messages and pause flag are those of the reply, and nothing else changes |
| `FsmEdges.InnerTable` | AgentFrameWork/fsm_interpreter.py:566-636 | switch, set_variable, sleep, end, an unknown type, break and continue: verdict, successor, status, reason and the one thing each changes |
| `FsmEdges.IfIsGroup` | AgentFrameWork/fsm_interpreter.py:951-979 | an if whose condition holds is a group, and one whose condition does not hold only goes on |
| `FsmEdges.GroupAndForTable` | AgentFrameWork/fsm_interpreter.py:905-979 | a group goes on at its successor unless its body was stopped, a for likewise after the passes over its values, with what those have left |
| `FsmEdges.ForOne` | AgentFrameWork/fsm_interpreter.py:937-947 | one value of a for: the limit, the variable set, the pass; a continue is a normal end |
| `FsmEdges.LoopValuesTable` | AgentFrameWork/fsm_interpreter.py:913-935 | the values of a for: given items, the list in a variable, or the range with its defaults, a stride of 0 counting as 1 |
| `FsmEdges.GoesToNamed` | AgentFrameWork/fsm_interpreter.py:208-232 | every step that goes on, of any type and whatever it was answered, goes on where its own edges say |
| `FsmEdges.PassFollowsEdges` | AgentFrameWork/fsm_interpreter.py:832-881 | a pass through a body starts at its entry point, each step it dispatches after another is the one that names, and its code and state are those the last of them calls for: flag, stop, normal end, limit or missing step |
| `FsmEdges.RunFollowsEdges` | AgentFrameWork/fsm_interpreter.py:147-247 | every run starts at the step asked for, or else at the entry point, and fails if there is none; each step dispatched after another is the one the predecessor names given its answer, in the state that left but for signals; the run ends where the last step does not lead on, and nothing else was dispatched |
| `FsmEdges.IterationsAreHandlers` | AgentFrameWork/fsm_interpreter.py:183-236 | every run counts exactly one iteration for each handler invoked, nested ones included, and one more if it ended at a step of unknown type; it is still running only below the limit |
| `FsmProofs.HandleOk` | AgentFrameWork/fsm_interpreter.py:858-875 | every handler entered with no flag: iterations never decrease nor pass the limit, each handler invoked costs one, only break and continue leave a flag, and a stopped run stays stopped |
| `FsmProofs.BodyOk` | AgentFrameWork/fsm_interpreter.py:866-881 | a pass entered with no flag ends with no flag, at any depth, and after a stop invokes at most one leaf, none unless it reports the stop |
| `FsmProofs.RunStaysInBudget` | AgentFrameWork/fsm_interpreter.py:183-236 | in every run, handlers invoked, nested ones included, <= iterations <= limit, for any answers and signals |
| `FsmProofs.RunTerminates` | AgentFrameWork/fsm_interpreter.py:183-236 | a run that does not return hangs in a `while` of the workflow, at some depth, that it has just invoked with a true condition, a body without entry point and budget left; so a workflow without such a body returns from every run |
| `FsmProofs.EmptyWhileHangs` | AgentFrameWork/fsm_interpreter.py:183-219 | conversely, with a limit above 1, any workflow started at such a `while` hangs if its condition holds after the first signal check, where there is one, and that check does not pause the run; not even a kill seen there ends it |
| `FsmProofs.WhileReturnsIff` | AgentFrameWork/fsm_interpreter.py:892-903 | a `while` about to start a pass, whose nested steps return, returns if and only if its body has an entry point |
| `FsmProofs.PassMakesProgress` | AgentFrameWork/fsm_interpreter.py:843-849 | below the limit, a pass changes nothing and ends normally if and only if the body has no entry point |
| `FsmProofs.KillStopsRun` | AgentFrameWork/fsm_interpreter.py:183-224 | once a check between steps sees a kill, at most one more leaf runs, at any depth, and the run ends not running; if the agent is paused, none runs and it ends aborted |
| `FsmProofs.KillEndsPause` | AgentFrameWork/fsm_interpreter.py:190-194 | a kill after any number of checks spent in a pause ends the run aborted at that very check, with no handler invoked |
| `FsmProofs.SparedStep` | AgentFrameWork/fsm_interpreter.py:832-979 | a step of a killed run, at any nesting depth, leaves `aborted` alone if and only if the step that decides does: the first one of each body entered, except that a leading continue sends a `while` round to the limit and a `for` through all its values |
| `FsmProofs.KilledRunIsAborted` | AgentFrameWork/fsm_interpreter.py:183-224 | a run killed between two steps ends aborted if and only if it is paused, or the next step exists and, loops, ifs and groups included, spares the status |
| `FsmLoops.ForAppend` | AgentFrameWork/fsm_interpreter.py:937-947 | the passes over xs + ys are those over xs followed by those over ys, unless a break or a stop ended the first |
| `FsmLoops.ForStepSplits` | AgentFrameWork/fsm_interpreter.py:905-949 | a `for` over xs + ys equals a `for` over xs followed by one over ys, up to the successor field, and equals the first alone if that was broken or stopped |
| `FsmLoops.PassIgnoresNext` | AgentFrameWork/fsm_interpreter.py:846-860 | the successor left by an earlier step cannot influence a pass |
| `FsmLoops.WhileUnrolls` | AgentFrameWork/fsm_interpreter.py:892-901 | a `while` equals itself resumed at the start of any of its passes |
| `FsmLoops.WhileHistory` | AgentFrameWork/fsm_interpreter.py:892-903 | every `while` is a finite chain of passes that fell through, no longer than the iterations spent, then one of four endings: condition false, limit, stop, break |
| `FsmLoops.ControlIsDirect` | AgentFrameWork/fsm_interpreter.py:866-871 | a pass is broken if and only if the last step it dispatched itself is a break, and likewise for continue; no flag comes from deeper or earlier |
| `FsmLoops.WhileEndsOnFalse` | AgentFrameWork/fsm_interpreter.py:892-903 | a `while` with no break directly in its body goes on only with its condition false, whatever breaks stand in nested ifs and groups |
| `FsmLoops.ForTakesAllValues` | AgentFrameWork/fsm_interpreter.py:937-949 | a `for` with no break directly in its body is never broken off |
| `FsmLoops.BreakInsideIfIsContinue` | AgentFrameWork/fsm_interpreter.py:951-979 | in the body of an if or a group, replacing every break by a continue changes nothing |
| `DslExecutor.Executor.StepCall` | AgentFrameWork/dsl_executor.py:153-182 | an LLM or tool call fails without a function or on an exception, and otherwise keeps the variables and messages answered |
| `DslExecutor.Executor.Dispatch` | AgentFrameWork/dsl_executor.py:184-330 | every handler of the DSL computes its effect on the result |
| `DslExecutor.Executor.Run` | AgentFrameWork/dsl_executor.py:73-131 | `run` returns the result given by the functions, from the step asked for or the entry point |
| `DslEdges.StepTable` | AgentFrameWork/dsl_executor.py:153-362 | every step and every answer: whether the run goes on and where, status, reason, successor role, and the one thing each step changes |
| `DslEdges.RunFollowsEdges` | AgentFrameWork/dsl_executor.py:73-131 | every run starts at the step asked for, or else at the entry point, and fails if there is none; each step run after another is the one that names, in the state it left; the run takes one iteration a step, ends where the last one does not lead on, and reports the limit only when that is spent |
| `Dsl.SleepIsTransparent` | AgentFrameWork/dsl_executor.py:80-131 | if every sleep has a successor and the sleepless workflow does not fail on its limit, resuming as told through any number of sleeps gives the same status, variables, messages and reason, in as many iterations altogether |
| `Dsl.ProtocolIsSound` | AgentFrameWork/dsl_executor.py:80-131 | for a workflow and a limit, driving is transparent from every start, for all variables and messages, if and only if every sleep its own identifier designates has a successor, or the limit allows one step at most |
| `Dsl.SuccessorIsNeeded` | AgentFrameWork/dsl_executor.py:94-131 | started at a sleep without a successor, the sleepless workflow is over after one step and the driven one does something else |
| `Dsl.ResumesAfterSleep` | AgentFrameWork/dsl_executor.py:94-131 | every run that ends sleeping was suspended by a sleep of the workflow, whose duration it reports, and goes on at its successor if and only if there is one, or nothing to start over from |
| `Dsl.SleepWithoutSuccessor` | AgentFrameWork/dsl_executor.py:94-131 | any workflow whose entry point is a sleep without a successor sleeps for ever, however often it is resumed |
| `RateLimiter.RateLimiter.Check` | services/ratelimit.py:24-40 | state and verdict of a check, with the cleanup that may precede it |
| `RateLimiter.RateLimiter.Record` | services/ratelimit.py:42-54 | a record changes the buckets as a check does, without a verdict |
| `RateLimiter.RateLimiter.Cleanup` | services/ratelimit.py:56-61 | after the interval, exactly the buckets whose last event is older than twice the interval go |
| `RateLimiter.PruneIsExact` | services/ratelimit.py:33-35 | a bucket whose first event is in the window, its left edge included, is left alone; of another, exactly the first part goes that is not after that edge |
| `RateLimiter.NoLiveEventLost` | services/ratelimit.py:24-61 | after any calls with a clock that never goes back, each bucket is an end of its key's full history, and what it lacks is out of the window or older than 600 s |
| `RateLimiter.CheckSeesWindow` | services/ratelimit.py:33-40 | for every window, the total compared with the limit is at least the full history's weight over the window or the last 600 s, whichever is shorter, and at most its weight over [now-window, now]; the check rejects if and only if the key was known and the total exceeds the limit |
| `RateLimiter.RetryAfterIsExact` | services/ratelimit.py:38-40 | a rejection reports the limit, the whole seconds of the window and whether tokens were counted; after the delay it names, and not a second before, the oldest counted event is out of the window; the delay is at least 1 |
| `RateLimiter.CleanupLosesLiveEvent` | services/ratelimit.py:56-60 | a cleanup loses a live event of a key if and only if the key has been idle for more than 600 s but less than its window |
| `RateLimiter.DailyLimitForgets` | services/ratelimit.py:24-61 | a concrete run: a daily quota used up by one call admits another 15 minutes later |
| `StreamBus.Bus.Publish` | AgentFrameWork/stream_bus.py:38-51 | a chunk gets the next number and the buffer keeps the last ones |
| `StreamBus.Bus.Poll` | AgentFrameWork/stream_bus.py:53-55 | the chunks of the buffer beyond the cursor, in order |
| `StreamBus.Bus.Reset` | AgentFrameWork/stream_bus.py:57-59 | one agent's buffer is dropped, numbers go on |
| `StreamBus.PollReturnsUnread` | AgentFrameWork/stream_bus.py:48-55 | in every reachable state, a poll returns exactly the last `max` of the chunks published for the agent since its last poll or reset |
| `StreamBus.RunKeeps` | AgentFrameWork/stream_bus.py:38-59 | the invariant of every run of publications, polls and resets of any agents: what the buffer holds, and where the cursor stands |
| `StreamBus.SeesInOrder` | services/agent_daemon/service.py:226-231 | a reader that moves its cursor to the last number sees chunks of its own agent only, each at most once, in the order published |
| `StreamBus.SeesEverything` | services/agent_daemon/service.py:226-231 | it has seen or still awaits every chunk if and only if never more than `max` of them, nor a reset that drops some, came between two polls |
| `UsageCollector.Collector.Charge` | modules/usage/usage_collector.py:196-221 | the two upserts of one budget target |
| `UsageCollector.Collector.RecordBudget` | modules/usage/usage_collector.py:182-221 | the targets listed are charged one after the other |
| `UsageCollector.Collector.CountUsage` | modules/usage/usage_collector.py:134-161 | the last row of the model is incremented, or a row inserted |
| `UsageCollector.Collector.Store` | modules/usage/usage_collector.py:119-168 | all that one line writes: raw call, usage, availability, budgets |
| `UsageCollector.Collector.ConsumeFile` | modules/usage/usage_collector.py:94-172 | the lines of a file, blank and invalid ones skipped, each stored once, and their count |
| `UsageCollector.StoredKeepsUsage` | modules/usage/usage_collector.py:134-161 | storing a call keeps: one row per model called, with the number of its raw calls, the sums of their tokens and costs, the number not "ok", endpoint and agent of the first, time and outcome of the last |
| `UsageCollector.TargetsAreExact` | modules/usage/usage_collector.py:182-191 | a call is charged to its provider, its model, the pair of both, and its agent if it has one, and to nothing else |
| `UsageCollector.ChargeIsLocal` | modules/usage/usage_collector.py:196-221 | charging a target adds to its amount and to the sum of its type, and to no other |
| `UsageCollector.StoredKeepsBudgets` | modules/usage/usage_collector.py:182-221 | storing a call keeps: every target holds the cost of the calls that concern it, and each type of target sums to the cost of all |
| `UsageCollector.StoredKeepsDegraded` | modules/usage/usage_collector.py:79-91 | an endpoint is marked unavailable for a model if and only if the catalogue has a row for the two and a call failed there |
| `UsageCollector.ConsumeConsolidates` | modules/usage/usage_collector.py:94-172 | after any files, the raw calls added are the valid lines in order, with a looked-up cost where the line has none, and their number; each model's single row has the number, the sums and the failures of its raw calls, and the budgets agree with the raw calls |
| `UsageCollector.BudgetTotalsCoincide` | modules/usage/usage_collector.py:182-221 | from empty tables on, the budgets by provider, by model and by both have one total, the cost of all valid lines |
| `UsageJournal.Journal.Append` | modules/usage/usage_log.py:91-120 | a record reported as written stands at the end of the log, created if missing; one reported as not written stands there too if only the sync failed, and else changes nothing or only creates the log |
| `UsageJournal.Journal.RunOnce` | modules/usage/usage_collector.py:310-358 | what a cycle does to the three files, the archive and the database, for every way its renames, consumes, archive rotation and housekeeping can go |
| `UsageJournal.CycleTable` | modules/usage/usage_collector.py:310-358 | every way a cycle can go, by what is there and what fails: what becomes of log, flush and retry file, which records go to the archive and which are committed |
| `UsageJournal.CycleBalance` | modules/usage/usage_collector.py:323-354 | in every cycle, archive rotation included, copies after + records overwritten = copies before + records committed while their file stays |
| `UsageJournal.CycleConserves` | modules/usage/usage_collector.py:323-354 | without second copies, a cycle conserves every record if and only if it overwrites no flush file and commits nothing whose file stays |
| `UsageJournal.RunBalance` | modules/usage/usage_collector.py:310-358 | over every run of appends and cycles, whatever fails in it, the copies of a record and its losses add up to its appends and its duplications |
| `UsageJournal.NothingLostOrDoubled` | modules/usage/usage_collector.py:323-354 | over any appends and cycles harmless where they happen, each record is found in the files, the archive and the database together exactly as often as it was appended, and consumed at most as often |
| `UsageJournal.HarmlessIsExact` | modules/usage/usage_collector.py:323-354 | when no record is appended twice, a run conserves every record at every step if and only if all its cycles are harmless |
| `UsageJournal.SoundRunIsHarmless` | modules/usage/usage_collector.py:323-350 | with no failing rename, no failing retry file and all-or-nothing consumes, every run is harmless and archives nothing |
| `UsageJournal.LockedDatabaseLosesRecord` | modules/usage/usage_collector.py:325-337 | a concrete run: of three records appended, each before a cycle that finds the database locked, the second is lost |
| `UsageJournal.HousekeepingDoublesRecord` | modules/usage/usage_collector.py:339-354 | a concrete run: a consume fails after the first of two records and the housekeeping commits it; after a faultless cycle it is in the database twice |
| `UsageJournal.OrderIsKept` | modules/usage/usage_collector.py:323-348 | over any appends and harmless cycles that archive nothing, the records committed followed by those on their way are exactly those appended, in order and each once |
| `UsageJournal.FaultlessCycleDrains` | modules/usage/usage_collector.py:317-342 | a faultless cycle leaves nothing pending if and only if it had a log or a retry file to start on, or no flush file was left |
| `UsagePipeline.TablesHoldCommits` | modules/usage/usage_collector.py:310-358 | whatever fails in a run, the tables are consolidated and hold one raw call per record committed, in order |
| `UsagePipeline.TablesFollowAppends` | modules/usage/usage_collector.py:94-358 | over harmless cycles that archive nothing, the raw calls in the tables are the first of the calls appended, in order and each once, and all of them if and only if nothing is left in the files |
| `UsagePipeline.UsageIsExact` | modules/usage/usage_collector.py:94-358 | once such a run has drained its files, each model called has one usage row with the number, the sums of tokens and costs and the failures of the calls appended, each target the cost of those that concern it, and the budgets by provider, by model and by both one total, the cost of all |
| `Signals.AgentManager.SendSignal` | services/agent_manager/service.py:859-876 | a signal for a known agent is queued as pending under the next number, one for an unknown agent refused |
| `Signals.AgentManager.PendingSignals` | services/agent_manager/service.py:878-888 | the pending signals of the agent, by number |
| `Signals.AgentManager.Process` | services/agent_manager/service.py:402-428 | one signal ends completed with its action, and a configure may set the agent's state |
| `Signals.AgentManager.Check` | services/agent_manager/service.py:386-428 | the drain loop: tables, variables, pause flag, and whether a kill ended it |
| `Signals.CheckIsExact` | services/agent_manager/service.py:386-428 | a check completes exactly the agent's pending signals up to and including the first kill and changes no other; variables, pause flag and kill are the net effect of those |
| `SignalChecks.CheckMeans` | services/agent_manager/service.py:386-428 | the same of the raw table: the signals pending for the agent with no kill before them, and no others, are completed with their own kind as outcome; the pause flag is that of the last pause or resume among them, each variable and the agent's state that of the last configure that gives one, other agents' states stay, and a kill is reported if and only if one is among them |
| `Signals.RunSeesCheck` | AgentFrameWork/fsm_interpreter.py:249-256 | that net effect is what the interpreter's signal check applies to a run, changing variables, pause flag and, only on a kill, status and reason |
| `Signals.PendingAfterCheck` | services/agent_manager/service.py:878-921 | what stays pending is the rest of the agent's queue, and the whole queue of every other agent |
| `Signals.DeliveredInOrder` | services/agent_manager/service.py:857-921 | over any sends and checks, what an agent has drained followed by what is pending for it is what was sent to it, in order: first in, first out, each once |
| `Admission.AgentManager.Kill` | services/agent_manager/service.py:720-775 | the database effects of a kill, none for an agent that is not hydrated |
| `Admission.AgentManager.Admit` | services/agent_manager/service.py:820-853 | the agents killed, the verdict and the new state, for any sequence of evaluations |
| `Admission.AdmittedIsExact` | services/agent_manager/service.py:827-853 | the agent is admitted if and only if one of the evaluations says yes: the first, one after a kill, or the one that closes |
| `Admission.CandidatesAreExact` | services/agent_manager/service.py:834-841 | the candidates are exactly the active agents with a row that does not forbid preemption and a declared priority, 5 by default, strictly below that of the agent |
| `Admission.CandidatesAreDistinct` | services/agent_manager/service.py:836-841 | they are hydrated, all different, and strictly increasing in (priority, id) |
| `Admission.SortPermutes` | services/agent_manager/service.py:841 | sorting the candidates neither adds, drops nor repeats one |
| `Admission.Victims` | services/agent_manager/service.py:827-853 | how many candidates are killed: the agent did not fit before any of those kills, and fits after the last unless all are killed |
| `Admission.VictimsAreEligible` | services/agent_manager/service.py:834-845 | each victim was active, preemptible, of strictly lower priority and not the agent itself |
| `Admission.KillsLeastImportant` | services/agent_manager/service.py:841-850 | whoever is killed has a lower priority than whoever is spared, or the same and no higher id |
| `Admission.RefusalKillsAll` | services/agent_manager/service.py:843-853 | when the agent is refused, the killed are exactly the active preemptible agents of strictly lower priority |
| `Admission.AdmissionTouchesVictims` | services/agent_manager/service.py:764-773 | the victims, and no other agent, end stopped (if they have a row), unlisted and not hydrated, with a kill signal if they run in the daemon |
| `ProviderMerge.CatalogueDb.MergeLinks` | modules/catalogue/populate.py:291-319 | the loop over the duplicate's links and its counters, real or dry |
| `ProviderMerge.CatalogueDb.RepointAliases` | modules/catalogue/populate.py:321-329 | the aliases of the duplicate, and those only, are repointed and counted |
| `ProviderMerge.CatalogueDb.MergeDuplicateProvider` | modules/catalogue/populate.py:266-340 | the whole merge and its statistics; nothing happens if a provider is missing or the run is dry |
| `ProviderMerge.MergedRows` | modules/catalogue/populate.py:291-319 | the loop says of every row what becomes of it: moved, combined with its twin, deleted or unchanged |
| `ProviderMerge.MergeIsUnion` | modules/catalogue/populate.py:268-319 | for every model, the duplicate ends with no link and the canonical provider with one if and only if either had one: context window, maximal output and both costs are the duplicate's when non-null and else its own, name and model its own, or the whole link is that of whichever had one |
| `ProviderMerge.StatsAreExact` | modules/catalogue/populate.py:276-340 | the counters are the numbers of the duplicate's links for models the canonical provider has, and has not, of the aliases that named the duplicate, and 1 for its deletion |
| `ProviderMerge.MergeKeepsKeys` | modules/catalogue/populate.py:293-319 | links of other providers stay, and no provider gets a second link for a model |
| `ProviderMerge.MergeIsIdempotent` | modules/catalogue/populate.py:276-340 | the duplicate is deleted, no alias refers to it, and a second merge changes nothing and counts nothing |
| `ProviderMerge.DryRunIsHonest` | modules/catalogue/populate.py:266-340 | a dry run announces the counters of the real one, but for the deletion |
| `ProviderMerge.SelfMergeDestroys` | modules/catalogue/populate.py:293-312 | the canonical provider keeps all its models if and only if it is not its own duplicate, or has none |
| `Pricing.Catalogue.BuildIndex` | modules/catalogue/pricing.py:174-182 | the dictionary of an index holds, under every key, the rows that carry it, in order |
| `Pricing.Catalogue.FindCandidates` | modules/catalogue/pricing.py:202-207 | the dictionaries find the rows of the first index that knows the price |
| `Pricing.Catalogue.PlanUpdates` | modules/catalogue/pricing.py:184-227 | the updates planned for the rows as read, price by price, and the counters |
| `Pricing.Catalogue.ApplyUpdates` | modules/catalogue/pricing.py:230-241 | the updates are written in order |
| `Pricing.Catalogue.MergePricing` | modules/catalogue/pricing.py:142-244 | the table after the merge, unchanged when dry, and the counters |
| `Pricing.CandidatesAreExact` | modules/catalogue/pricing.py:202-207 | a price applies to the rows with its exact name; only if there are none, to those whose name ends alike; only if there are none of those, to those whose model reference ends alike |
| `Pricing.BatchIsReplay` | modules/catalogue/pricing.py:184-241 | planning all updates first and writing them later equals writing each price's updates in turn |
| `Pricing.MergeIsFold` | modules/catalogue/pricing.py:184-241 | every row ends as the fold of the prices that hit it, however many they are |
| `PriceList.MergeIsFinal` | modules/catalogue/pricing.py:112-241 | said of the price list, its keys and aliases and raw entries: a missing input cost, output cost or context window becomes what the last entry that reaches the row and gives one gives, the maximal output is replaced by the last given, sizes fall back from a missing or zero field to the tokens, and the row is free if and only if both costs of the last entry that reaches it are absent or zero |
| `PriceList.AppliesIsExact` | modules/catalogue/pricing.py:184-207 | an entry reaches a row if and only if its key has a slash, it is free where only such entries count, and its provider and model, cut at the first slash and with their aliases replaced, are those of the row, by name, end of name or end of reference |
| `PriceList.EndAlikeIsExact` | modules/catalogue/pricing.py:177-201 | names end alike if and only if what follows their last slash is the same |
| `PriceList.StatsTable` | modules/catalogue/pricing.py:184-227 | what each entry adds to the four counters, by the number of rows it reaches |
| `Pricing.SetFieldsSurvive` | modules/catalogue/pricing.py:214-221 | no cost or context window already set is changed, nor any name or reference |
| `Pricing.MergeIsIdempotent` | modules/catalogue/pricing.py:142-244 | merging the same list again leaves the same table and reports the same counts |
| `IpcFraming.SplitThenJoin` | services/afd/ipc.py:74-75 | joining the lines of a stream and what follows them gives the stream back; no line nor the rest holds a newline |
| `IpcFraming.JoinThenSplit` | services/afd/ipc.py:74-83 | newline-free lines, joined and split again, come back |
| `IpcFraming.HandleBuffer` | services/afd/ipc.py:74-83 | the inner loop answers the complete lines of the buffer in order, up to an exception, and keeps the rest |
| `IpcFraming.AnswersAreExact` | services/afd/ipc.py:74-85 | every line is answered in turn, one that does not parse by the error response and another by what the handler returned, until the handler raises |
| `IpcFraming.Handle` | services/afd/ipc.py:66-90 | however the stream is cut into chunks, what is sent is the answers to its newline-terminated lines, once each and in order, and only the bytes after the last newline stay in the buffer |
| `IpcFraming.NothingAfterException` | services/afd/ipc.py:84-90 | once the handler has raised, no later byte is answered |
| `IpcFraming.Receive` | services/afd/ipc.py:117-124 | however the answer is cut, the client decodes the first line of the whole stream, and reports a closed connection if and only if there is none |
| `IpcFraming.FirstResponseIsExact` | services/afd/ipc.py:117-124 | the client decodes exactly what stands before the first newline, whatever follows, and without a newline reports a closed connection |
| `IpcFraming.RequestMeetsResponse` | services/afd/ipc.py:109-124 | a request and its response, both cut at will, meet: the client gets what the handler returned |
| `IpcFraming.ResponsesStayApart` | services/afd/ipc.py:82-83 | any responses sent in a row can be told apart |
| `AutoDebug.AutoDebugService.Select` | AgentFrameWork/auto_debug_service.py:41-129 | the tasks of a stage: right status, right role, no child of the next role, in order |
| `AutoDebug.AutoDebugService.Handle` | AgentFrameWork/auto_debug_service.py:41-129 | a stage adds one child for each of them and counts them |
| `AutoDebug.AutoDebugService.Tick` | AgentFrameWork/auto_debug_service.py:24-39 | the three stages in order, and the number of tasks created |
| `AutoDebug.TickIsExact` | AgentFrameWork/auto_debug_service.py:24-129 | a tick adds one task for each finished coding task without test, each failed test without debugging and each finished debugging without correction, in this order and then theirs, with the role, the title and the context due, and nothing else |
| `AutoDebug.RunKeepsCycle` | AgentFrameWork/auto_debug_service.py:24-129 | over any ticks, changes of status and foreign tasks, the service gives no task two children of one role, and its tasks follow their parents in the cycle coder, tester, debugger |
| `AutoDebug.ChainsAreCyclic` | AgentFrameWork/auto_debug_service.py:24-129 | so the roles along any chain of parents walk the cycle backwards |
| `AutoDebug.HandledSettles` | AgentFrameWork/auto_debug_service.py:41-129 | a stage leaves nothing due for itself |
| `AutoDebug.SecondTickIsIdle` | AgentFrameWork/auto_debug_service.py:24-39 | a tick right after another creates nothing |
| `AgentStorage.AgentStorage.Write` | AgentFrameWork/agent_storage.py:146-176 | an unknown folder or a counter that would pass the quota is refused with the numbers reported, and changes nothing; otherwise the file and the counter are written |
| `AgentStorage.AgentStorage.Delete` | AgentFrameWork/agent_storage.py:190-196 | the file goes and its size is taken off the counter, not below 0 |
| `AgentStorage.AgentStorage.RecalcUsed` | AgentFrameWork/agent_storage.py:127-142 | the walk, in any order, makes the counter equal to the bytes really stored |
| `AgentStorage.CounterIsExact` | AgentFrameWork/agent_storage.py:127-196 | over any writes, overwrites, deletions, recalculations and changes of quota, the counter is the bytes really stored plus those replaced since the last recalculation |
| `AgentStorage.QuotaIsDefault` | AgentFrameWork/agent_storage.py:67-74 | as long as no quota is set, it is 10 MiB |
| `AgentStorage.QuotaIsLastSet` | AgentFrameWork/agent_storage.py:71-74 | the quota in force is the last one set, but 10 GiB at most |
| `AgentStorage.VerdictTable` | AgentFrameWork/agent_storage.py:154-172 | which writes are refused, for which of the two reasons, and the numbers reported |
| `AgentStorage.AcceptedWriteFits` | AgentFrameWork/agent_storage.py:165-176 | after every accepted write, the bytes really stored are within the counter and the counter within the quota |
| `AgentStorage.RefusedThoughItFits` | AgentFrameWork/agent_storage.py:167-172 | a write that would fit is refused if and only if it does not fit together with the file it replaces and the bytes replaced before |
| `AgentStorage.BigFileCannotBeRewritten` | AgentFrameWork/agent_storage.py:146-196 | a file of more than half the quota cannot be written again, not even after a recalculation, but can after a deletion |

## Left out

- LLM calls, skills, spawned agents, hand-offs and agent calls: arbitrary functions of the iteration count, the step, the variables and the messages; the arguments they resolve and the outputs they capture are part of the answer.
- FsmProofs.RunTerminates: a pause is assumed to be released once the finite list of signal checks is exhausted; the interpreter itself would wait for ever.
- Dsl.SleepIsTransparent: compares deterministic runs, and not the successor role, which a resumed run does not inherit.
- FsmLoops.ForStepSplits: compares the state up to the successor field, which a pass that dispatches nothing leaves as it was.
- RateLimiter.CheckSeesWindow: fixes one window per key.
- Content, token and budget fields of the results, task descriptions, time stamps, lifecycle hooks and logs: never read by the code modelled.
- The price looked up for a journal line without a cost: any function of provider, model and tokens.
- `{{name}}` substitution, Python's `str`, `lower` and `float` on text: abstract functions; NaN and negative zero are excluded, costs are exact reals.
- Handlers that misuse their configuration (unhashable names, missing `id`): steps are well formed.
- The file-based stream bus and its database: same interface, foreign storage.
- The deletion of old archives, and the purge of idle agents but for the commit it makes, `sweeps`.
- The seeding of an empty alias table before a price merge: the aliases are given.
- Path rules and files written past the storage API: paths are normalised and distinct.
- Operating-system signals to agents in other processes: only the database effects of a kill are modelled, and agent evaluation is any sequence of verdicts.
- Acknowledging a signal from outside the agent, and deleting tasks: the runs considered send and check signals, and add tasks or change their status.
- Threads, locks, sockets that fail while sending, and SQLite itself: each operation is one step, each commit is atomic, and the UNIQUE constraints are assumed.
- The YAML parser, role files, the installer queue, the dashboard and the command line: plumbing.
