/** The files of the usage journal: appends to the log, and the collection cycle
    that moves the log to a flush file, a failed flush to a retry file or an
    archive, and their records into the database. */
module UsageJournal {
  import opened Wrappers

  /** A record is named by its identity. */
  type Record = nat

  type File = Option<seq<Record>>

  /** The three files, the records archived, and those committed to the database
      so far. */
  datatype State = State(log: File, flush: File, retry: File, archive: seq<Record>, consumed: seq<Record>)

  /** How an append goes: the line is written; it is written but cannot be
      synced; the log is only created; nothing is done. */
  datatype Write = Written | Unsynced | OnlyCreated | Refused

  /** How consuming a file goes: it is committed and the file removed; it is
      committed but something fails before the file is removed; or it raises
      after storing the first `stored` records. */
  datatype Outcome = Consumed | OnlyCommitted | Raised(stored: nat)

  /** What happens during one cycle: whether the two renames succeed, how the
      two files are consumed, whether a flush file that is left is big enough to
      be archived, and whether the housekeeping that follows commits the open
      transaction. */
  datatype Cycle = Cycle(rotates: bool, retry: Outcome, flush: Outcome, renames: bool, archives: bool, sweeps: bool)

  function Records(f: File): seq<Record> {
    f.GetOr([])
  }

  // ---- What one operation computes ----

  function Appended(st: State, r: Record, how: Write): State {
    match how
    case Refused => st
    case OnlyCreated => st.(log := Some(Records(st.log)))
    case _ => st.(log := Some(Records(st.log) + [r]))
  }

  /** Step 1 of `run_once`: the log becomes the flush file, whatever that held. */
  function Rotated(st: State, c: Cycle): State {
    if Records(st.log) != [] && c.rotates then st.(log := None, flush := st.log) else st
  }

  /** Step 2: the retry file; the cycle goes on only if it is gone. */
  function Retried(st: State, c: Cycle): (bool, State) {
    if st.retry.None? then (true, st)
    else
      match c.retry
      case Consumed => (true, st.(retry := None, consumed := st.consumed + st.retry.value))
      case OnlyCommitted => (false, st.(consumed := st.consumed + st.retry.value))
      case Raised(_) => (false, st)
  }

  /** The part of a raised consume that the housekeeping commits. */
  function Leaked(file: seq<Record>, stored: nat, c: Cycle): seq<Record> {
    if !c.sweeps then [] else if stored < |file| then file[..stored] else file
  }

  /** Step 3: the flush file, renamed to the retry file if anything fails. */
  function Flushed(st: State, c: Cycle): State {
    if st.flush.None? then st
    else
      var file := st.flush.value;
      var st1 := if c.renames then st.(flush := None, retry := st.flush) else st;
      match c.flush
      case Consumed => st.(flush := None, consumed := st.consumed + file)
      case OnlyCommitted => st1.(consumed := st.consumed + file)
      case Raised(stored) => st1.(consumed := st.consumed + Leaked(file, stored, c))
  }

  /** Step 4: the archive takes a flush file that is still there. */
  function Archived(st: State, c: Cycle): State {
    if st.flush.Some? && c.archives then st.(flush := None, archive := st.archive + st.flush.value) else st
  }

  /** `run_once`. */
  function Collected(st: State, c: Cycle): State {
    if st.log.None? && st.retry.None? then st
    else
      var (go, st1) := Retried(Rotated(st, c), c);
      if go then Archived(Flushed(st1, c), c) else st1
  }

  const EMPTY := State(None, None, None, [], [])

  class Journal {
    var log: File
    var flush: File
    var retry: File
    var archive: seq<Record>
    var consumed: seq<Record>

    ghost function Now(): State
      reads this
    {
      State(log, flush, retry, archive, consumed)
    }

    constructor ()
      ensures Now() == EMPTY
    {
      log, flush, retry, archive, consumed := None, None, None, [], [];
    }

    /** `append_call`. */
    method Append(r: Record, how: Write) returns (ok: bool)
      modifies this
      ensures Now() == Appended(old(Now()), r, how)
      ensures ok <==> how.Written?
      ensures how.Written? || how.Unsynced? ==> Now() == old(Now()).(log := Some(Records(old(log)) + [r]))
      ensures how.OnlyCreated? ==> Now() == old(Now()).(log := Some(Records(old(log))))
      ensures how.Refused? ==> Now() == old(Now())
    {
      if how.Refused? {
        return false;
      }
      log := Some(Records(log));
      if how.OnlyCreated? {
        return false;
      }
      log := Some(Records(log) + [r]);
      return how.Written?;
    }

    method RotateLog(c: Cycle)
      modifies this
      ensures Now() == Rotated(old(Now()), c)
    {
      if Records(log) != [] && c.rotates {
        log, flush := None, log;
      }
    }

    method ConsumeRetry(c: Cycle) returns (go: bool)
      modifies this
      ensures (go, Now()) == Retried(old(Now()), c)
    {
      if retry.Some? {
        if c.retry.Raised? {
          return false;
        }
        consumed := consumed + retry.value;
        if c.retry.OnlyCommitted? {
          return false;
        }
        retry := None;
      }
      return true;
    }

    method ConsumeFlush(c: Cycle)
      modifies this
      ensures Now() == Flushed(old(Now()), c)
    {
      if flush.Some? {
        if !c.flush.Raised? {
          consumed := consumed + flush.value;
        } else {
          consumed := consumed + Leaked(flush.value, c.flush.stored, c);
        }
        if c.flush.Consumed? {
          flush := None;
        } else if c.renames {
          flush, retry := None, flush;
        }
      }
    }

    method RotateArchives(c: Cycle)
      modifies this
      ensures Now() == Archived(old(Now()), c)
    {
      if flush.Some? && c.archives {
        flush, archive := None, archive + flush.value;
      }
    }

    method RunOnce(c: Cycle)
      modifies this
      ensures Now() == Collected(old(Now()), c)
    {
      if log.None? && retry.None? {
        return;
      }
      RotateLog(c);
      var go := ConsumeRetry(c);
      if go {
        ConsumeFlush(c);
        RotateArchives(c);
      }
    }
  }

  // ---- One cycle, case by case ----

  /** The retry file could not be consumed and removed: the cycle ends there. */
  ghost predicate EndsAtRetry(st: State, st': State, c: Cycle)
    requires st.retry.Some?
  {
    && st'.retry == st.retry && st'.archive == st.archive
    && st'.consumed == st.consumed + if c.retry.OnlyCommitted? then st.retry.value else []
  }

  /** A flush file that was not removed waits as the retry file, or in the
      archive, or stays. */
  ghost predicate Waits(st: State, st': State, c: Cycle, file: seq<Record>) {
    && st'.retry == (if c.renames then Some(file) else None)
    && st'.flush == (if c.renames || c.archives then None else Some(file))
    && st'.archive == st.archive + if !c.renames && c.archives then file else []
  }

  /** The flush file is consumed; or it waits, and all of it was committed, or,
      by the housekeeping, what had been stored of it. */
  ghost predicate EndsAtFlush(st: State, st': State, c: Cycle, file: seq<Record>, committed: seq<Record>) {
    match c.flush
    case Consumed =>
      && st'.flush.None? && st'.retry.None? && st'.archive == st.archive && st'.consumed == committed + file
    case OnlyCommitted => Waits(st, st', c, file) && st'.consumed == committed + file
    case Raised(stored) =>
      && Waits(st, st', c, file)
      && st'.consumed ==
         committed + if !c.sweeps then [] else if stored < |file| then file[..stored] else file
  }

  lemma {:induction false} FlushTable(st: State, c: Cycle)
    requires st.retry.None?
    ensures var st' := Archived(Flushed(st, c), c);
      && st'.log == st.log
      && if st.flush.Some? then EndsAtFlush(st, st', c, st.flush.value, st.consumed) else st' == st
  {
    assert st.archive + [] == st.archive;
  }

  /** Every way a cycle can go. */
  lemma {:induction false} CycleTable(st: State, c: Cycle)
    ensures var st' := Collected(st, c);
      var moves := st.log.Some? && st.log.value != [] && c.rotates;
      var flush := if moves then st.log else st.flush;
      if st.log.None? && st.retry.None? then st' == st
      else
        && st'.log == (if moves then None else st.log)
        && if st.retry.Some? && !c.retry.Consumed? then st'.flush == flush && EndsAtRetry(st, st', c)
           else
             var committed := st.consumed + if st.retry.Some? then st.retry.value else [];
             if flush.Some? then EndsAtFlush(st, st', c, flush.value, committed)
             else st'.flush.None? && st'.retry.None? && st'.archive == st.archive && st'.consumed == committed
  {
    assert st.consumed + [] == st.consumed;
    var (go, st1) := Retried(Rotated(st, c), c);
    if Starts(st) && go {
      FlushTable(st1, c);
    }
  }

  // ---- Where the records are ----

  /** How often a record occurs in a list. */
  function Count(records: seq<Record>, r: Record): nat {
    if records == [] then 0
    else Count(records[..|records| - 1], r) + if records[|records| - 1] == r then 1 else 0
  }

  lemma {:induction false} CountConcat(a: seq<Record>, b: seq<Record>, r: Record)
    ensures Count(a + b, r) == Count(a, r) + Count(b, r)
  {
    if b == [] {
      assert a + b == a;
    } else {
      assert (a + b)[..|a + b| - 1] == a + b[..|b| - 1];
      CountConcat(a, b[..|b| - 1], r);
    }
  }

  lemma {:induction false} CountSome(records: seq<Record>, i: nat)
    requires i < |records|
    ensures Count(records, records[i]) > 0
  {
    if i < |records| - 1 {
      CountSome(records[..|records| - 1], i);
    }
  }

  /** How often a record occurs in the three files, the archive and the
      database. */
  function Copies(st: State, r: Record): nat {
    Count(Records(st.log), r) + Count(Records(st.flush), r) + Count(Records(st.retry), r)
    + Count(st.archive, r) + Count(st.consumed, r)
  }

  /** The rename of the log overwrites no record. */
  predicate KeepsFlush(st: State, c: Cycle) {
    Records(st.log) == [] || !c.rotates || Records(st.flush) == []
  }

  /** No record of the retry file is committed without the file being removed. */
  predicate RetryIsAtomic(st: State, c: Cycle) {
    Records(st.retry) == [] || !c.retry.OnlyCommitted?
  }

  /** The records a cycle commits from the flush file without removing it. */
  function FlushCopies(file: seq<Record>, c: Cycle): seq<Record> {
    match c.flush
    case Consumed => []
    case OnlyCommitted => file
    case Raised(stored) => Leaked(file, stored, c)
  }

  predicate Starts(st: State) {
    st.log.Some? || st.retry.Some?
  }

  predicate ReachesFlush(st: State, c: Cycle) {
    st.retry.None? || c.retry.Consumed?
  }

  /** No record of the flush file is, either. */
  predicate FlushIsAtomic(st: State, c: Cycle) {
    ReachesFlush(st, c) ==> FlushCopies(Records(Rotated(st, c).flush), c) == []
  }

  predicate Harmless(st: State, c: Cycle) {
    Starts(st) ==> KeepsFlush(st, c) && RetryIsAtomic(st, c) && FlushIsAtomic(st, c)
  }

  /** The records a cycle overwrites. */
  function Lost(st: State, c: Cycle): seq<Record> {
    if Starts(st) && !KeepsFlush(st, c) then Records(st.flush) else []
  }

  /** The records a cycle commits but keeps for a later one. */
  function Doubled(st: State, c: Cycle): seq<Record> {
    if !Starts(st) then []
    else if ReachesFlush(st, c) then FlushCopies(Records(Rotated(st, c).flush), c)
    else if c.retry.OnlyCommitted? then Records(st.retry)
    else []
  }

  lemma {:induction false} FlushBalance(st: State, c: Cycle, r: Record)
    requires st.retry.None?
    ensures Copies(Flushed(st, c), r) == Copies(st, r) + Count(FlushCopies(Records(st.flush), c), r)
  {
    if st.flush.Some? {
      CountConcat(st.consumed, st.flush.value, r);
      if c.flush.Raised? {
        CountConcat(st.consumed, Leaked(st.flush.value, c.flush.stored, c), r);
      }
    }
  }

  lemma {:induction false} ArchiveBalance(st: State, c: Cycle, r: Record)
    ensures Copies(Archived(st, c), r) == Copies(st, r)
  {
    if st.flush.Some? {
      CountConcat(st.archive, st.flush.value, r);
    }
  }

  lemma {:induction false} RotateBalance(st: State, c: Cycle, r: Record)
    ensures Copies(Rotated(st, c), r) == Copies(st, r) - if KeepsFlush(st, c) then 0 else Count(Records(st.flush), r)
  {}

  lemma {:induction false} RetryBalance(st: State, c: Cycle, r: Record)
    ensures var (go, st1) := Retried(st, c);
      && (go <==> ReachesFlush(st, c)) && (go ==> st1.retry.None? && st1.flush == st.flush)
      && Copies(st1, r) == Copies(st, r) + if !go && c.retry.OnlyCommitted? then Count(Records(st.retry), r) else 0
  {
    CountConcat(st.consumed, Records(st.retry), r);
  }

  /** What a cycle does to the copies of a record, in every case. */
  lemma {:induction false} CycleBalance(st: State, c: Cycle, r: Record)
    ensures Copies(Collected(st, c), r) + Count(Lost(st, c), r) == Copies(st, r) + Count(Doubled(st, c), r)
  {
    if Starts(st) {
      var st0 := Rotated(st, c);
      var (go, st1) := Retried(st0, c);
      RotateBalance(st, c, r);
      RetryBalance(st0, c, r);
      if go {
        FlushBalance(st1, c, r);
        ArchiveBalance(Flushed(st1, c), c, r);
      }
    }
  }

  /** If no record has a second copy, a cycle keeps the copies of every record
      exactly when it is harmless: it neither overwrites a flush file left
      behind by a failed retry, nor commits records whose file stays. */
  lemma {:induction false} CycleConserves(st: State, c: Cycle)
    requires forall r :: Copies(st, r) <= 1
    ensures (forall r :: Copies(Collected(st, c), r) == Copies(st, r)) <==> Harmless(st, c)
  {
    if Harmless(st, c) {
      forall r: Record
        ensures Copies(Collected(st, c), r) == Copies(st, r)
      {
        CycleBalance(st, c, r);
      }
    } else {
      var r := Harmed(st, c);
      CycleBalance(st, c, r);
    }
  }

  /** A harmful cycle has a victim: a record overwritten and not doubled, or
      doubled and not overwritten. */
  lemma {:induction false} Harmed(st: State, c: Cycle) returns (r: Record)
    requires !Harmless(st, c) && forall r :: Copies(st, r) <= 1
    ensures Count(Lost(st, c), r) != Count(Doubled(st, c), r)
  {
    if !KeepsFlush(st, c) {
      r := Records(st.flush)[0];
      CountSome(Records(st.flush), 0);
      assert Copies(st, r) <= 1 && Rotated(st, c).flush == st.log;
      if ReachesFlush(st, c) && c.flush.Raised? && c.sweeps && c.flush.stored < |Records(st.log)| {
        var n := c.flush.stored;
        CountConcat(Records(st.log)[..n], Records(st.log)[n..], r);
        assert Records(st.log)[..n] + Records(st.log)[n..] == Records(st.log);
      }
    } else {
      r := Doubled(st, c)[0];
      CountSome(Doubled(st, c), 0);
    }
  }

  // ---- Runs ----

  datatype Event = Append(r: Record, how: Write) | Collect(c: Cycle)

  function After(events: seq<Event>): State {
    if events == [] then EMPTY
    else
      var before := After(events[..|events| - 1]);
      match events[|events| - 1]
      case Append(r, how) => Appended(before, r, how)
      case Collect(c) => Collected(before, c)
  }

  predicate Appends(ev: Event, r: Record) {
    ev.Append? && ev.r == r && (ev.how.Written? || ev.how.Unsynced?)
  }

  /** How often a record has been written to the log, overwritten, and committed
      while its file stayed. */
  function AppendedIn(events: seq<Event>, r: Record): nat {
    if events == [] then 0
    else AppendedIn(events[..|events| - 1], r) + if Appends(events[|events| - 1], r) then 1 else 0
  }

  function LostIn(events: seq<Event>, r: Record): nat {
    if events == [] then 0
    else
      var rest, last := events[..|events| - 1], events[|events| - 1];
      LostIn(rest, r) + if last.Collect? then Count(Lost(After(rest), last.c), r) else 0
  }

  function DoubledIn(events: seq<Event>, r: Record): nat {
    if events == [] then 0
    else
      var rest, last := events[..|events| - 1], events[|events| - 1];
      DoubledIn(rest, r) + if last.Collect? then Count(Doubled(After(rest), last.c), r) else 0
  }

  lemma {:induction false} AppendBalance(st: State, r': Record, how: Write, r: Record)
    ensures Copies(Appended(st, r', how), r) == Copies(st, r) + if Appends(Append(r', how), r) then 1 else 0
  {
    assert (Records(st.log) + [r'])[..|Records(st.log)|] == Records(st.log);
  }

  /** The books of every run, whatever fails in it: the copies of a record and
      the losses add up to its appends and the duplications. */
  lemma {:induction false} RunBalance(events: seq<Event>, r: Record)
    ensures Copies(After(events), r) + LostIn(events, r) == AppendedIn(events, r) + DoubledIn(events, r)
  {
    if events != [] {
      var rest, last := events[..|events| - 1], events[|events| - 1];
      RunBalance(rest, r);
      match last
      case Append(r', how) => AppendBalance(After(rest), r', how, r);
      case Collect(c) => CycleBalance(After(rest), c, r);
    }
  }

  /** Every cycle of the run is harmless where it happens. */
  predicate IsHarmlessRun(events: seq<Event>) {
    events != [] ==>
      var rest, last := events[..|events| - 1], events[|events| - 1];
      (last.Collect? ==> Harmless(After(rest), last.c)) && IsHarmlessRun(rest)
  }

  lemma {:induction false} HarmlessCycle(st: State, c: Cycle)
    requires Harmless(st, c)
    ensures Lost(st, c) == [] && Doubled(st, c) == []
  {}

  /** Over any appends and harmless cycles, every record is found in the files,
      the archive and the database together exactly as often as it was
      appended; so none is consumed more often than that. */
  lemma {:induction false} NothingLostOrDoubled(events: seq<Event>, r: Record)
    requires IsHarmlessRun(events)
    ensures Copies(After(events), r) == AppendedIn(events, r)
    ensures Count(After(events).consumed, r) <= AppendedIn(events, r)
  {
    RunBalance(events, r);
    NoHarmDone(events, r);
  }

  lemma {:induction false} NoHarmDone(events: seq<Event>, r: Record)
    requires IsHarmlessRun(events)
    ensures LostIn(events, r) == 0 && DoubledIn(events, r) == 0
  {
    if events != [] {
      var rest, last := events[..|events| - 1], events[|events| - 1];
      NoHarmDone(rest, r);
      if last.Collect? {
        HarmlessCycle(After(rest), last.c);
      }
    }
  }

  /** The books agree after every event of the run. */
  ghost predicate IsConserved(events: seq<Event>) {
    (forall r :: Copies(After(events), r) == AppendedIn(events, r))
    && (events != [] ==> IsConserved(events[..|events| - 1]))
  }

  /** If no record is appended twice, the harmless runs are exactly those that
      conserve every record at every step. */
  lemma {:induction false} HarmlessIsExact(events: seq<Event>)
    requires forall r :: AppendedIn(events, r) <= 1
    ensures IsConserved(events) <==> IsHarmlessRun(events)
  {
    if events != [] {
      var rest, last := events[..|events| - 1], events[|events| - 1];
      assert forall r :: AppendedIn(rest, r) <= AppendedIn(events, r);
      HarmlessIsExact(rest);
      if IsHarmlessRun(events) {
        forall r
          ensures Copies(After(events), r) == AppendedIn(events, r)
        {
          NothingLostOrDoubled(events, r);
        }
      } else if IsConserved(events) && last.Collect? {
        ConservedCycle(rest, last.c, events);
      }
    }
  }

  lemma {:induction false} ConservedCycle(rest: seq<Event>, c: Cycle, events: seq<Event>)
    requires events == rest + [Collect(c)] && IsConserved(events) && IsConserved(rest)
    requires forall r :: AppendedIn(events, r) <= 1
    ensures Harmless(After(rest), c)
  {
    assert events[..|rest|] == rest;
    forall r
      ensures AppendedIn(events, r) == AppendedIn(rest, r)
      ensures Copies(After(rest), r) <= 1 && Copies(Collected(After(rest), c), r) == Copies(After(rest), r)
    {
      assert Copies(After(rest), r) == AppendedIn(rest, r);
    }
    CycleConserves(After(rest), c);
  }

  // ---- The order of the records ----

  /** The records written to the log, in order. */
  function AppendedOrder(events: seq<Event>): seq<Record> {
    if events == [] then []
    else
      var rest, last := AppendedOrder(events[..|events| - 1]), events[|events| - 1];
      if last.Append? && Appends(last, last.r) then rest + [last.r] else rest
  }

  /** The records in the database, then those on their way to it. */
  function Pipeline(st: State): seq<Record> {
    st.consumed + InFlight(st)
  }

  function InFlight(st: State): seq<Record> {
    Records(st.retry) + Records(st.flush) + Records(st.log)
  }

  lemma {:induction false} RotateKeepsOrder(st: State, c: Cycle)
    requires KeepsFlush(st, c)
    ensures Pipeline(Rotated(st, c)) == Pipeline(st)
  {
    assert Records(st.retry) + [] + Records(st.log) == Records(st.retry) + Records(st.log) + [];
  }

  lemma {:induction false} RetryKeepsOrder(st: State, c: Cycle)
    requires RetryIsAtomic(st, c)
    ensures Pipeline(Retried(st, c).1) == Pipeline(st)
  {
    var rest := Records(st.flush) + Records(st.log);
    assert InFlight(st) == Records(st.retry) + rest;
    assert st.consumed + Records(st.retry) + rest == st.consumed + (Records(st.retry) + rest);
    assert InFlight(st.(retry := None)) == rest;
    assert Records(st.retry) == [] ==> st.consumed + Records(st.retry) == st.consumed;
  }

  lemma {:induction false} FlushKeepsOrder(st: State, c: Cycle)
    requires st.retry.None? && FlushCopies(Records(st.flush), c) == []
    ensures Pipeline(Flushed(st, c)) == Pipeline(st)
  {
    var file, log := Records(st.flush), Records(st.log);
    assert InFlight(st) == file + log;
    assert st.consumed + file + log == st.consumed + (file + log);
    assert st.consumed + [] == st.consumed;
    assert InFlight(st.(flush := None)) == log;
    assert InFlight(st.(flush := None, retry := st.flush)) == file + log;
  }

  lemma {:induction false} CycleKeepsOrder(st: State, c: Cycle)
    requires Harmless(st, c) && Collected(st, c).archive == st.archive
    ensures Pipeline(Collected(st, c)) == Pipeline(st)
  {
    if Starts(st) {
      var st0 := Rotated(st, c);
      var (go, st1) := Retried(st0, c);
      RotateKeepsOrder(st, c);
      RetryKeepsOrder(st0, c);
      if go {
        var st2 := Flushed(st1, c);
        FlushKeepsOrder(st1, c);
        NothingArchived(st2, c);
      }
    }
  }

  lemma {:induction false} NothingArchived(st: State, c: Cycle)
    requires Archived(st, c).archive == st.archive
    ensures Pipeline(Archived(st, c)) == Pipeline(st)
  {
    if st.flush.Some? && c.archives {
      assert |st.flush.value| == 0;
    }
  }

  ghost predicate IsInOrder(events: seq<Event>) {
    Pipeline(After(events)) == AppendedOrder(events)
  }

  lemma {:induction false} ArchiveGrows(st: State, c: Cycle)
    ensures st.archive <= Collected(st, c).archive
  {}

  lemma {:induction false} NextInOrder(events: seq<Event>)
    requires events != [] && IsHarmlessRun(events) && After(events).archive == []
    requires IsInOrder(events[..|events| - 1])
    ensures IsInOrder(events)
  {
    var rest, last := events[..|events| - 1], events[|events| - 1];
    match last
    case Append(r, how) =>
      AppendKeepsOrder(After(rest), r, how);
      assert After(events) == Appended(After(rest), r, how);
    case Collect(c) =>
      ArchiveGrows(After(rest), c);
      CycleKeepsOrder(After(rest), c);
      assert After(events) == Collected(After(rest), c);
  }

  /** Over any appends and harmless cycles, as long as nothing goes to the
      archive, the records reach the database in the order of their appends,
      each once: those committed, followed by those on their way, are exactly
      those appended. */
  lemma {:induction false} OrderIsKept(events: seq<Event>)
    requires IsHarmlessRun(events) && After(events).archive == []
    ensures Pipeline(After(events)) == AppendedOrder(events)
  {
    if events == [] {
      assert Pipeline(EMPTY) == [];
    } else {
      var last := events[|events| - 1];
      if last.Collect? {
        ArchiveGrows(After(events[..|events| - 1]), last.c);
      }
      OrderIsKept(events[..|events| - 1]);
      NextInOrder(events);
    }
  }

  lemma {:induction false} AppendKeepsOrder(st: State, r: Record, how: Write)
    ensures Pipeline(Appended(st, r, how)) == Pipeline(st) + if Appends(Append(r, how), r) then [r] else []
  {
    var before := Records(st.retry) + Records(st.flush);
    assert before + (Records(st.log) + [r]) == before + Records(st.log) + [r];
    assert st.consumed + (InFlight(st) + [r]) == st.consumed + InFlight(st) + [r];
  }

  // ---- What the environment can guarantee ----

  /** No rename fails, the retry file can be consumed, and a consume that raises
      leaves nothing behind. */
  predicate IsSound(c: Cycle) {
    c.rotates && c.renames && c.retry.Consumed?
    && (c.flush.Consumed? || (c.flush.Raised? && (c.flush.stored == 0 || !c.sweeps)))
  }

  predicate AllSound(events: seq<Event>) {
    events != [] ==>
      var last := events[|events| - 1];
      (last.Collect? ==> IsSound(last.c)) && AllSound(events[..|events| - 1])
  }

  /** Sound cycles are harmless: between them there is no flush file. */
  lemma {:induction false} SoundRunIsHarmless(events: seq<Event>)
    requires AllSound(events)
    ensures IsHarmlessRun(events) && After(events).flush.None? && After(events).archive == []
  {
    if events != [] {
      SoundRunIsHarmless(events[..|events| - 1]);
    }
  }

  /** A cycle in which the database stays locked. */
  const LOCKED := Cycle(true, Raised(0), Raised(0), true, false, true)

  /** A record appended to an empty log, then such a cycle. */
  lemma {:induction false} LockedRound(st: State, r: Record)
    requires st.log.None?
    ensures Collected(Appended(st, r, Written), LOCKED)
      == if st.retry.None? then st.(flush := None, retry := Some([r])) else st.(flush := Some([r]))
  {
    var st1 := Appended(st, r, Written);
    assert st1 == st.(log := Some([r])) by {
      assert [] + [r] == [r];
    }
    assert Leaked([r], 0, LOCKED) == [];
    assert st.consumed + [] == st.consumed;
  }

  function Three(a: Record, b: Record, c: Record): seq<Event> {
    [Append(a, Written), Collect(LOCKED), Append(b, Written), Collect(LOCKED), Append(c, Written), Collect(LOCKED)]
  }

  /** Three appends, each followed by a cycle that finds the database locked: the
      second record is lost. */
  lemma {:induction false} LockedDatabaseLosesRecord(a: Record, b: Record, c: Record)
    ensures After(Three(a, b, c)) == State(None, Some([c]), Some([a]), [], [])
  {
    var all := Three(a, b, c);
    assert all[..0] == [] && all[..6] == all;
    var st1 := State(None, None, Some([a]), [], []);
    var st2 := State(None, Some([b]), Some([a]), [], []);
    LockedRound(EMPTY, a);
    AfterRound(all, 0, a);
    LockedRound(st1, b);
    AfterRound(all, 2, b);
    LockedRound(st2, c);
    AfterRound(all, 4, c);
  }

  lemma {:induction false} AfterRound(events: seq<Event>, n: nat, r: Record)
    requires n + 1 < |events| && events[n] == Append(r, Written) && events[n + 1] == Collect(LOCKED)
    ensures After(events[..n + 2]) == Collected(Appended(After(events[..n]), r, Written), LOCKED)
  {
    AfterPrefix(events, n);
    AfterPrefix(events, n + 1);
  }

  /** A cycle whose flush raises after one record, and whose housekeeping commits
      it. */
  const HALFWAY := Cycle(true, Consumed, Raised(1), true, false, true)

  const FAULTLESS := Cycle(true, Consumed, Consumed, true, false, true)

  lemma {:induction false} HalfwayRound(a: Record, b: Record)
    ensures Collected(State(Some([a, b]), None, None, [], []), HALFWAY) == State(None, None, Some([a, b]), [], [a])
  {
    assert [a, b][..1] == [a];
    assert [] + [a] == [a];
  }

  lemma {:induction false} FaultlessRound(st: State)
    requires st.log.None? && st.flush.None? && st.retry.Some?
    ensures Collected(st, FAULTLESS) == st.(retry := None, consumed := st.consumed + st.retry.value)
  {
    var st1 := st.(retry := None, consumed := st.consumed + st.retry.value);
    assert Retried(st, FAULTLESS) == (true, st1);
    assert Flushed(st1, FAULTLESS) == st1;
  }

  function Two(a: Record, b: Record): seq<Event> {
    [Append(a, Written), Append(b, Written), Collect(HALFWAY), Collect(FAULTLESS)]
  }

  lemma {:induction false} TwoAppends(events: seq<Event>, a: Record, b: Record)
    requires |events| > 2 && events[0] == Append(a, Written) && events[1] == Append(b, Written)
    ensures After(events[..2]) == State(Some([a, b]), None, None, [], [])
  {
    assert events[..0] == [];
    AfterPrefix(events, 0);
    AfterPrefix(events, 1);
    assert [] + [a] == [a] && [a] + [b] == [a, b];
  }

  /** Such a cycle, then one without any fault: of the two records appended, the
      first is counted twice. */
  lemma {:induction false} HousekeepingDoublesRecord(a: Record, b: Record)
    ensures After(Two(a, b)) == State(None, None, None, [], [a, a, b])
  {
    var all := Two(a, b);
    assert all[..4] == all;
    TwoAppends(all, a, b);
    AfterPrefix(all, 2);
    HalfwayRound(a, b);
    AfterPrefix(all, 3);
    FaultlessRound(State(None, None, Some([a, b]), [], [a]));
    assert [a] + [a, b] == [a, a, b];
  }

  lemma {:induction false} AfterPrefix(events: seq<Event>, n: nat)
    requires n < |events|
    ensures After(events[..n + 1]) ==
      match events[n]
      case Append(r, how) => Appended(After(events[..n]), r, how)
      case Collect(c) => Collected(After(events[..n]), c)
  {
    assert events[..n + 1][..n] == events[..n];
  }

  /** A cycle without any fault leaves nothing pending, unless the log and the
      retry file are both missing: then it does not start, and a flush file
      stays. */
  lemma {:induction false} FaultlessCycleDrains(st: State, c: Cycle)
    requires c.rotates && c.retry.Consumed? && c.flush.Consumed?
    ensures var st' := Collected(st, c);
      Records(st'.log) == Records(st'.flush) == Records(st'.retry) == []
      <==> Starts(st) || Records(st.flush) == []
  {
    if Starts(st) {
      var st1 := Retried(Rotated(st, c), c).1;
      assert Flushed(st1, c).flush.None? && Records(Flushed(st1, c).log) == [];
      assert Collected(st, c) == Flushed(st1, c);
    }
  }
}
