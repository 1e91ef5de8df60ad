/** The disk space of one agent: files in fixed folders, and a counter of used
    bytes checked against a quota. */
module AgentStorage {

  const DEFAULT_QUOTA := 10 * 1024 * 1024
  const MAX_QUOTA := 10 * 1024 * 1024 * 1024
  const FOLDERS: set<string> := {"mem", "ctx", "history", "work", "important", "perso"}

  type Bytes = seq<bv8>

  /** A normalised path: folder and name. */
  type Path = (string, string)

  datatype State = State(files: map<Path, Bytes>, used: int, max: int)

  datatype Verdict = Stored | UnknownFolder | QuotaExceeded(limit: int, used: int, missing: int)

  // ---- What one operation computes ----

  function Max(a: int, b: int): int {
    if a < b then b else a
  }

  function Judge(st: State, path: Path, data: Bytes): Verdict {
    if path.0 !in FOLDERS then UnknownFolder
    else if st.used + |data| > st.max then QuotaExceeded(st.max, st.used, st.used + |data| - st.max)
    else Stored
  }

  function Written(st: State, path: Path, data: Bytes): State {
    if Judge(st, path, data).Stored? then
      st.(files := st.files[path := data], used := Max(0, st.used + |data|))
    else st
  }

  function Deleted(st: State, path: Path): State {
    if path in st.files then st.(files := st.files - {path}, used := Max(0, st.used - |st.files[path]|)) else st
  }

  ghost function Recalculated(st: State): State {
    st.(used := Real(st.files))
  }

  function Limited(st: State, value: int): State {
    st.(max := if value < MAX_QUOTA then value else MAX_QUOTA)
  }

  /** The bytes really stored. */
  ghost function Real(files: map<Path, Bytes>): nat {
    if files == map[] then 0
    else
      var path :| path in files;
      |files[path]| + Real(files - {path})
  }

  class AgentStorage {
    var files: map<Path, Bytes>
    var used: int
    var max: int

    ghost function Now(): State
      reads this
    {
      State(files, used, max)
    }

    constructor ()
      ensures Now() == EMPTY
    {
      files, used, max := map[], 0, DEFAULT_QUOTA;
    }

    method SetUsed(value: int)
      modifies this`used
      ensures used == Max(0, value)
    {
      used := Max(0, value);
    }

    method SetMax(value: int)
      modifies this`max
      ensures Now() == Limited(old(Now()), value)
    {
      max := if value < MAX_QUOTA then value else MAX_QUOTA;
    }

    /** `recalc_used`: the files are visited in no particular order. */
    method RecalcUsed() returns (total: int)
      modifies this`used
      ensures Now() == Recalculated(old(Now()))
      ensures total == Real(files)
    {
      total := 0;
      var left := files;
      while left != map[]
        invariant total + Real(left) == Real(files)
        decreases |left|
      {
        var path :| path in left;
        RealRemove(left, path);
        total := total + |left[path]|;
        left := left - {path};
      }
      SetUsed(total);
    }

    method Write(path: Path, data: Bytes) returns (verdict: Verdict)
      modifies this`files, this`used
      ensures Now() == Written(old(Now()), path, data)
      ensures verdict == Judge(old(Now()), path, data)
    {
      if path.0 !in FOLDERS {
        return UnknownFolder;
      }
      var after := used + |data|;
      if after > max {
        return QuotaExceeded(max, used, after - max);
      }
      files := files[path := data];
      SetUsed(after);
      return Stored;
    }

    method Delete(path: Path)
      modifies this`files, this`used
      ensures Now() == Deleted(old(Now()), path)
    {
      if path in files {
        var size := |files[path]|;
        files := files - {path};
        SetUsed(Max(0, used - size));
      }
    }
  }

  // ---- The bytes really stored ----

  lemma {:induction false} RealRemove(files: map<Path, Bytes>, path: Path)
    requires path in files
    ensures Real(files) == |files[path]| + Real(files - {path})
    decreases |files|
  {
    var first :| first in files && Real(files) == |files[first]| + Real(files - {first});
    if first != path {
      RealRemove(files - {first}, path);
      RealRemove(files - {path}, first);
      assert files - {first} - {path} == files - {path} - {first};
    }
  }

  lemma {:induction false} RealUpdate(files: map<Path, Bytes>, path: Path, data: Bytes)
    ensures Real(files[path := data]) == Real(files) + |data| - if path in files then |files[path]| else 0
  {
    var files' := files[path := data];
    RealRemove(files', path);
    if path in files {
      RealRemove(files, path);
      assert files' - {path} == files - {path};
    } else {
      assert files' - {path} == files;
    }
  }

  // ---- Runs ----

  datatype Event =
    | Write(path: Path, data: Bytes)
    | Delete(path: Path)
    | Recalc
    | SetMax(value: int)

  const EMPTY := State(map[], 0, DEFAULT_QUOTA)

  ghost function Step(st: State, ev: Event): State {
    match ev
    case Write(path, data) => Written(st, path, data)
    case Delete(path) => Deleted(st, path)
    case Recalc => Recalculated(st)
    case SetMax(value) => Limited(st, value)
  }

  ghost function After(events: seq<Event>): State {
    if events == [] then EMPTY else Step(After(events[..|events| - 1]), events[|events| - 1])
  }

  /** The bytes that accepted writes have replaced since the last recalculation. */
  ghost function Replaced(events: seq<Event>): nat {
    if events == [] then 0
    else
      var st, before := After(events[..|events| - 1]), Replaced(events[..|events| - 1]);
      match events[|events| - 1]
      case Write(path, data) =>
        if Judge(st, path, data).Stored? && path in st.files then before + |st.files[path]| else before
      case Recalc => 0
      case _ => before
  }

  /** The counter is always the bytes stored plus those replaced since the last
      recalculation; in particular it is never too low. */
  lemma {:induction false} CounterIsExact(events: seq<Event>)
    ensures After(events).used == Real(After(events).files) + Replaced(events)
  {
    if events != [] {
      var rest, last := events[..|events| - 1], events[|events| - 1];
      CounterIsExact(rest);
      var st := After(rest);
      match last
      case Write(path, data) => RealUpdate(st.files, path, data);
      case Delete(path) =>
        if path in st.files {
          RealRemove(st.files, path);
        }
      case Recalc =>
      case SetMax(_) =>
    }
  }

  /** The quota in force is the last one set, capped at 10 GiB; before that, 10 MiB. */
  lemma {:induction false} QuotaIsLastSet(earlier: seq<Event>, value: int, later: seq<Event>)
    requires forall ev | ev in later :: !ev.SetMax?
    ensures After(earlier + [SetMax(value)] + later).max == if value <= 10737418240 then value else 10737418240
    decreases |later|
  {
    var events := earlier + [SetMax(value)] + later;
    if later == [] {
      assert events[..|events| - 1] == earlier && events[|events| - 1] == SetMax(value);
    } else {
      var n := |later| - 1;
      assert events[..|events| - 1] == earlier + [SetMax(value)] + later[..n] && later[n] in later;
      QuotaIsLastSet(earlier, value, later[..n]);
    }
  }

  lemma {:induction false} QuotaIsDefault(events: seq<Event>)
    requires forall ev | ev in events :: !ev.SetMax?
    ensures After(events).max == 10485760
  {
    if events != [] {
      QuotaIsDefault(events[..|events| - 1]);
      assert events[|events| - 1] in events;
    }
  }

  /** The verdicts on a write, with the numbers they report. */
  lemma {:induction false} VerdictTable(st: State, path: Path, data: Bytes)
    ensures var verdict, folder := Judge(st, path, data), path.0;
      var known := folder == "mem" || folder == "ctx" || folder == "history"
                   || folder == "work" || folder == "important" || folder == "perso";
      && (verdict.UnknownFolder? <==> !known)
      && (verdict.Stored? <==> known && st.used + |data| <= st.max)
      && (verdict.QuotaExceeded? ==>
           verdict.limit == st.max && verdict.used == st.used && st.used + |data| == st.max + verdict.missing)
  {}

  /** Every write that succeeds leaves the bytes stored within the quota. */
  lemma {:induction false} AcceptedWriteFits(events: seq<Event>, path: Path, data: Bytes)
    requires Judge(After(events), path, data).Stored?
    ensures var st := Written(After(events), path, data);
      Real(st.files) <= st.used <= st.max && path in st.files && st.files[path] == data
  {
    CounterIsExact(events);
    RealUpdate(After(events).files, path, data);
  }

  /** A write that would fit is refused exactly when the replaced bytes, which
      are still counted, do not fit with it. */
  lemma {:induction false} RefusedThoughItFits(events: seq<Event>, path: Path, data: Bytes)
    requires path.0 in FOLDERS && Real(After(events).files[path := data]) <= After(events).max
    ensures Judge(After(events), path, data).QuotaExceeded?
            <==> Real(After(events).files) + Replaced(events) + |data| > After(events).max
  {
    CounterIsExact(events);
  }

  /** So a file of more than half the quota cannot be written twice, although
      that would not take more space; after a recalculation it still cannot,
      and after a deletion it can. */
  lemma {:induction false} BigFileCannotBeRewritten(name: string, data: Bytes)
    requires DEFAULT_QUOTA < 2 * |data| <= 2 * DEFAULT_QUOTA
    ensures var path: Path := ("work", name);
      var st := After([Write(path, data)]);
      && st.files == map[path := data]
      && Judge(st, path, data) == QuotaExceeded(DEFAULT_QUOTA, |data|, 2 * |data| - DEFAULT_QUOTA)
      && Judge(Recalculated(st), path, data).QuotaExceeded?
      && Judge(Deleted(st, path), path, data).Stored?
  {
    var path: Path := ("work", name);
    var none: seq<Event> := [];
    var events := [Write(path, data)];
    assert events[..|events| - 1] == none && After(none) == EMPTY;
    assert After(events) == Step(EMPTY, events[0]);
    assert "work" in FOLDERS;
    RealUpdate(map[], path, data);
  }
}
