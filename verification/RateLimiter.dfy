/** The sliding-window rate limiter: pruned per-key event lists that must agree
    with the full history of calls. */
module RateLimiter {
  import opened Wrappers

  const CLEANUP_INTERVAL := 300.0

  datatype Event = Event(time: real, weight: nat)

  datatype State = State(buckets: map<string, seq<Event>>, lastCleanup: real)

  datatype Verdict = Admitted | Rejected(limit: int, window: int, retryAfter: int, tokens: bool)

  // ---- What one call computes ----

  function Newer(events: seq<Event>, cutoff: real): seq<Event> {
    if events == [] then []
    else if events[0].time > cutoff then [events[0]] + Newer(events[1..], cutoff)
    else Newer(events[1..], cutoff)
  }

  function Sum(events: seq<Event>): nat {
    if events == [] then 0 else events[0].weight + Sum(events[1..])
  }

  /** A bucket is filtered only when its first event is older than the window. */
  function Prune(events: seq<Event>, cutoff: real): seq<Event> {
    if events != [] && events[0].time < cutoff then Newer(events, cutoff) else events
  }

  predicate Stale(events: seq<Event>, now: real) {
    events != [] && events[|events| - 1].time < now - CLEANUP_INTERVAL * 2.0
  }

  /** `_cleanup`, and the condition under which a call starts with it. */
  function Cleaned(st: State, now: real): State {
    if now - st.lastCleanup > CLEANUP_INTERVAL then
      State(map k | k in st.buckets && !Stale(st.buckets[k], now) :: st.buckets[k], now)
    else st
  }

  /** The part common to `check` and `record`. */
  function Recorded(st: State, key: string, window: real, weight: nat, now: real): State {
    var st1 := Cleaned(st, now);
    var e := Event(now, weight);
    st1.(buckets := st1.buckets[key :=
      if key in st1.buckets then Prune(st1.buckets[key], now - window) + [e] else [e]])
  }

  /** Python's `int` on a float. */
  function Truncate(x: real): int {
    if x >= 0.0 then x.Floor else -((-x).Floor)
  }

  /** The answer of `check`: the first event of a key is let through unseen. */
  function Judge(st: State, key: string, limit: int, window: real, weight: nat, now: real): Verdict {
    if key !in Cleaned(st, now).buckets then Admitted
    else
      var events := Recorded(st, key, window, weight, now).buckets[key];
      if Sum(events) > limit then
        Rejected(limit, Truncate(window), Truncate(events[0].time + window - now) + 1, weight > 1)
      else Admitted
  }

  class RateLimiter {
    var buckets: map<string, seq<Event>>
    var lastCleanup: real

    ghost function Now(): State
      reads this
    {
      State(buckets, lastCleanup)
    }

    constructor ()
      ensures Now() == State(map[], 0.0)
    {
      buckets, lastCleanup := map[], 0.0;
    }

    method Cleanup(now: real)
      modifies this
      ensures Now() == Cleaned(old(Now()), now)
    {
      if now - lastCleanup > CLEANUP_INTERVAL {
        buckets := map k | k in buckets && !Stale(buckets[k], now) :: buckets[k];
        lastCleanup := now;
      }
    }

    method Check(key: string, limit: int, window: real, weight: nat, now: real) returns (verdict: Verdict)
      modifies this
      ensures Now() == Recorded(old(Now()), key, window, weight, now)
      ensures verdict == Judge(old(Now()), key, limit, window, weight, now)
    {
      Cleanup(now);
      if key !in buckets {
        buckets := buckets[key := [Event(now, weight)]];
        return Admitted;
      }
      var events := Prune(buckets[key], now - window) + [Event(now, weight)];
      buckets := buckets[key := events];
      var total := 0;
      for i := 0 to |events|
        invariant total + Sum(events[i..]) == Sum(events)
      {
        total := total + events[i].weight;
      }
      if total > limit {
        return Rejected(limit, Truncate(window), Truncate(events[0].time + window - now) + 1, weight > 1);
      }
      return Admitted;
    }

    method Record(key: string, window: real, weight: nat, now: real)
      modifies this
      ensures Now() == Recorded(old(Now()), key, window, weight, now)
    {
      Cleanup(now);
      if key !in buckets {
        buckets := buckets[key := [Event(now, weight)]];
      } else {
        buckets := buckets[key := Prune(buckets[key], now - window) + [Event(now, weight)]];
      }
    }
  }

  // ---- Runs of calls ----

  /** A call of `check`, with a limit, or of `record`. */
  datatype Call = Call(key: string, window: real, weight: nat, now: real, limit: Option<int>)

  function After(calls: seq<Call>): State {
    if calls == [] then State(map[], 0.0)
    else
      var c := calls[|calls| - 1];
      Recorded(After(calls[..|calls| - 1]), c.key, c.window, c.weight, c.now)
  }

  /** Everything ever recorded for a key, rejected calls included. */
  function History(calls: seq<Call>, key: string): seq<Event> {
    if calls == [] then []
    else
      var c := calls[|calls| - 1];
      var earlier := History(calls[..|calls| - 1], key);
      if c.key == key then earlier + [Event(c.now, c.weight)] else earlier
  }

  /** The clock never goes back, and every key is used with one window. */
  ghost predicate Regular(calls: seq<Call>, window: string -> real) {
    calls != [] ==>
      var before, c := calls[..|calls| - 1], calls[|calls| - 1];
      && (before != [] ==> before[|before| - 1].now <= c.now)
      && c.window == window(c.key) && 0.0 <= c.window
      && Regular(before, window)
  }

  /** How far back events are remembered: the window, but no more than 600 s,
      twice the cleanup interval. */
  function Horizon(window: real): real {
    if window < 600.0 then window else 600.0
  }

  /** What is kept of a history: its end, and nothing newer than the cutoff is
      missing. */
  predicate Kept(history: seq<Event>, events: seq<Event>, cutoff: real) {
    if |history| <= |events| then history == events
    else history[0].time <= cutoff && Kept(history[1..], events, cutoff)
  }

  predicate Sorted(events: seq<Event>) {
    |events| >= 2 ==> events[0].time <= events[1].time && Sorted(events[1..])
  }

  function Bucket(st: State, key: string): seq<Event> {
    if key in st.buckets then st.buckets[key] else []
  }

  // Facts about sorted lists and their ends.

  lemma {:induction false} SortedAppend(events: seq<Event>, e: Event)
    requires Sorted(events) && (events != [] ==> events[|events| - 1].time <= e.time)
    ensures Sorted(events + [e])
  {
    if |events| >= 2 {
      SortedAppend(events[1..], e);
      assert (events + [e])[1..] == events[1..] + [e];
    }
  }

  lemma {:induction false} SortedLast(events: seq<Event>, i: nat)
    requires Sorted(events) && i < |events|
    ensures events[i].time <= events[|events| - 1].time
  {
    if i > 0 {
      SortedLast(events[1..], i - 1);
    } else if |events| >= 2 {
      SortedLast(events[1..], 0);
    }
  }

  lemma {:induction false} SortedFirst(events: seq<Event>, i: nat)
    requires Sorted(events) && i < |events|
    ensures events[0].time <= events[i].time
  {
    if i > 0 {
      SortedFirst(events[1..], i - 1);
    }
  }

  lemma {:induction false} NewerThanFirst(events: seq<Event>, cutoff: real)
    requires Sorted(events) && (events != [] ==> events[0].time > cutoff)
    ensures Newer(events, cutoff) == events
  {
    if events != [] {
      NewerThanFirst(events[1..], cutoff);
    }
  }

  /** On a sorted list, filtering removes a prefix that is not newer. */
  lemma {:induction false} NewerIsEnd(events: seq<Event>, cutoff: real)
    requires Sorted(events)
    ensures |Newer(events, cutoff)| <= |events| && Kept(events, Newer(events, cutoff), cutoff)
    ensures Newer(events, cutoff) != [] ==> Newer(events, cutoff)[0].time > cutoff
  {
    if events != [] {
      if events[0].time > cutoff {
        NewerThanFirst(events, cutoff);
      } else {
        NewerIsEnd(events[1..], cutoff);
      }
    }
  }

  lemma {:induction false} PruneKeeps(events: seq<Event>, cutoff: real)
    requires Sorted(events)
    ensures Kept(events, Prune(events, cutoff), cutoff)
    ensures Prune(events, cutoff) != [] ==> Prune(events, cutoff)[0].time >= cutoff
  {
    NewerIsEnd(events, cutoff);
  }

  /** Pruning cuts off a first part of a bucket: nothing if its first event is in
      the window, its left edge included, and else all that is not after that
      edge. */
  lemma {:induction false} PruneIsExact(events: seq<Event>, cutoff: real) returns (k: nat)
    requires Sorted(events)
    ensures k <= |events| && Prune(events, cutoff) == events[k..]
    ensures events != [] && events[0].time >= cutoff ==> k == 0
    ensures events != [] && events[0].time < cutoff ==>
      (forall i | 0 <= i < k :: events[i].time <= cutoff) && forall i | k <= i < |events| :: events[i].time > cutoff
  {
    k := 0;
    if events != [] && events[0].time < cutoff {
      k := NewerIsSuffix(events, cutoff);
    }
  }

  lemma {:induction false} NewerIsSuffix(events: seq<Event>, cutoff: real) returns (k: nat)
    requires Sorted(events)
    ensures k <= |events| && Newer(events, cutoff) == events[k..]
    ensures forall i | 0 <= i < k :: events[i].time <= cutoff
    ensures forall i | k <= i < |events| :: events[i].time > cutoff
  {
    k := 0;
    if events != [] {
      if events[0].time > cutoff {
        NewerThanFirst(events, cutoff);
        forall i | 0 <= i < |events|
          ensures events[i].time > cutoff
        {
          SortedFirst(events, i);
        }
      } else {
        k := NewerIsSuffix(events[1..], cutoff);
        k := k + 1;
      }
    }
  }

  lemma {:induction false} KeptShorter(history: seq<Event>, events: seq<Event>, cutoff: real)
    requires Kept(history, events, cutoff)
    ensures |events| <= |history|
    ensures events != [] ==> history[|history| - 1] == events[|events| - 1]
    ensures Sorted(history) ==> Sorted(events)
  {
    if |history| > |events| {
      KeptShorter(history[1..], events, cutoff);
    }
  }

  /** Keeping part of what was kept. */
  lemma {:induction false} KeptKept(history: seq<Event>, events: seq<Event>, fewer: seq<Event>, cutoff: real)
    requires Kept(history, events, cutoff) && Kept(events, fewer, cutoff)
    ensures Kept(history, fewer, cutoff)
  {
    KeptShorter(events, fewer, cutoff);
    if |history| > |events| {
      KeptKept(history[1..], events, fewer, cutoff);
    }
  }

  lemma {:induction false} KeptAppend(history: seq<Event>, events: seq<Event>, cutoff: real, e: Event)
    requires Kept(history, events, cutoff)
    ensures Kept(history + [e], events + [e], cutoff)
  {
    if |history| > |events| {
      KeptAppend(history[1..], events, cutoff, e);
      assert (history + [e])[1..] == history[1..] + [e];
    }
  }

  lemma {:induction false} KeptLater(history: seq<Event>, events: seq<Event>, cutoff: real, later: real)
    requires Kept(history, events, cutoff) && cutoff <= later
    ensures Kept(history, events, later)
  {
    if |history| > |events| {
      KeptLater(history[1..], events, cutoff, later);
    }
  }

  /** A sorted list whose last event is old may be dropped altogether. */
  lemma {:induction false} AllOld(events: seq<Event>, cutoff: real)
    requires Sorted(events) && (events != [] ==> events[|events| - 1].time <= cutoff)
    ensures Kept(events, [], cutoff)
  {
    if events != [] {
      SortedLast(events, 0);
      AllOld(events[1..], cutoff);
    }
  }

  lemma {:induction false} CallKeeps(history: seq<Event>, events: seq<Event>, cutoff: real, later: real, e: Event)
    requires Kept(history, events, later) && Sorted(events) && cutoff <= later
    ensures Kept(history + [e], Prune(events, cutoff) + [e], later)
  {
    PruneKeeps(events, cutoff);
    KeptLater(events, Prune(events, cutoff), cutoff, later);
    KeptKept(history, events, Prune(events, cutoff), later);
    KeptAppend(history, Prune(events, cutoff), later, e);
  }

  // The invariant of a run.

  lemma {:induction false} HistoryIsSorted(calls: seq<Call>, window: string -> real, key: string)
    requires Regular(calls, window)
    ensures Sorted(History(calls, key))
    ensures History(calls, key) != [] ==> History(calls, key)[|History(calls, key)| - 1].time <= calls[|calls| - 1].now
  {
    if calls != [] {
      var before, c := calls[..|calls| - 1], calls[|calls| - 1];
      HistoryIsSorted(before, window, key);
      SortedAppend(History(before, key), Event(c.now, c.weight));
    }
  }

  /** What one call does, seen from one key. */
  lemma {:induction false} RecordedBucket(st: State, c: Call, key: string)
    ensures var events := Bucket(Cleaned(st, c.now), key);
      Bucket(Recorded(st, c.key, c.window, c.weight, c.now), key)
      == if c.key == key then Prune(events, c.now - c.window) + [Event(c.now, c.weight)] else events
  {}

  /** A cleanup drops a bucket whole, and then only if all its events are older
      than twice the interval. */
  lemma {:induction false} CleanedBucket(st: State, now: real, key: string)
    ensures var events := Bucket(Cleaned(st, now), key);
      events == Bucket(st, key) || (events == [] && Stale(Bucket(st, key), now))
  {}

  /** One more call, seen from one key. */
  lemma {:induction false} NextCallKeeps(before: seq<Call>, c: Call, key: string, cutoff: real)
    requires var cleaned := Bucket(Cleaned(After(before), c.now), key);
      Kept(History(before, key), cleaned, cutoff) && Sorted(cleaned)
    requires c.key == key ==> c.now - c.window <= cutoff
    ensures Kept(History(before + [c], key), Bucket(After(before + [c]), key), cutoff)
  {
    var calls := before + [c];
    assert calls[..|before|] == before;
    RecordedBucket(After(before), c, key);
    if c.key == key {
      var cleaned := Bucket(Cleaned(After(before), c.now), key);
      CallKeeps(History(before, key), cleaned, c.now - c.window, cutoff, Event(c.now, c.weight));
    }
  }

  /** Pruning and cleanup lose no event within the horizon: after any calls, every
      bucket is the end of its key's history, and what it lacks is out of the
      window, or older than twice the cleanup interval. */
  lemma {:induction false} NoLiveEventLost(calls: seq<Call>, window: string -> real, key: string, now: real)
    requires Regular(calls, window)
    requires calls != [] ==> calls[|calls| - 1].now <= now
    ensures Kept(History(calls, key), Bucket(After(calls), key), now - Horizon(window(key)))
    decreases |calls|, 0
  {
    if calls != [] {
      var before, c := calls[..|calls| - 1], calls[|calls| - 1];
      var horizon := Horizon(window(key));
      LiveAfterCleanup(before, window, key, c.now);
      NextCallKeeps(before, c, key, c.now - horizon);
      assert before + [c] == calls;
      KeptLater(History(calls, key), Bucket(After(calls), key), c.now - horizon, now - horizon);
    }
  }

  /** The same just after the cleanup that the next call may begin with. */
  lemma {:induction false} LiveAfterCleanup(calls: seq<Call>, window: string -> real, key: string, now: real)
    requires Regular(calls, window)
    requires calls != [] ==> calls[|calls| - 1].now <= now
    ensures var events := Bucket(Cleaned(After(calls), now), key);
      Kept(History(calls, key), events, now - Horizon(window(key))) && Sorted(events)
    decreases |calls|, 1
  {
    var history, events, cutoff := History(calls, key), Bucket(After(calls), key), now - Horizon(window(key));
    NoLiveEventLost(calls, window, key, now);
    HistoryIsSorted(calls, window, key);
    KeptShorter(history, events, cutoff);
    CleanedBucket(After(calls), now, key);
    if Bucket(Cleaned(After(calls), now), key) != events {
      AllOld(history, cutoff);
    }
  }

  // ---- The total that is compared with the limit ----

  /** The weight of the events newer than `cutoff`, or not older than it. */
  function WeightAfter(events: seq<Event>, cutoff: real): nat {
    if events == [] then 0
    else (if events[0].time > cutoff then events[0].weight else 0) + WeightAfter(events[1..], cutoff)
  }

  function WeightFrom(events: seq<Event>, cutoff: real): nat {
    if events == [] then 0
    else (if events[0].time >= cutoff then events[0].weight else 0) + WeightFrom(events[1..], cutoff)
  }

  lemma {:induction false} SumIsBetween(history: seq<Event>, events: seq<Event>, cutoff: real, later: real)
    requires Sorted(history) && Kept(history, events, later) && cutoff <= later
    requires events != [] ==> events[0].time >= cutoff
    ensures WeightAfter(history, later) <= Sum(events) <= WeightFrom(history, cutoff)
    decreases |history|
  {
    if |history| > |events| {
      SumIsBetween(history[1..], events, cutoff, later);
    } else if history != [] {
      SumIsBetween(history[1..], events[1..], cutoff, later);
    }
  }

  /** The state before the last of some calls. */
  function Before(calls: seq<Call>): State
    requires calls != []
  {
    After(calls[..|calls| - 1])
  }

  function Last(calls: seq<Call>): Call
    requires calls != []
  {
    calls[|calls| - 1]
  }

  function Judged(calls: seq<Call>): Verdict
    requires calls != [] && Last(calls).limit.Some?
  {
    var c := Last(calls);
    Judge(Before(calls), c.key, c.limit.value, c.window, c.weight, c.now)
  }

  lemma {:induction false} FirstIsLive(calls: seq<Call>, window: string -> real)
    requires Regular(calls, window) && calls != []
    ensures var c := Last(calls);
      var events := Bucket(After(calls), c.key);
      events != [] && events[0].time >= c.now - c.window
  {
    var before, c := calls[..|calls| - 1], Last(calls);
    LiveAfterCleanup(before, window, c.key, c.now);
    PruneKeeps(Bucket(Cleaned(After(before), c.now), c.key), c.now - c.window);
    RecordedBucket(After(before), c, c.key);
  }

  lemma {:induction false} TotalIsBetween(calls: seq<Call>, window: string -> real)
    requires Regular(calls, window) && calls != []
    ensures var c := Last(calls);
      var history := History(calls, c.key);
      var total := Sum(Bucket(After(calls), c.key));
      WeightAfter(history, c.now - Horizon(c.window)) <= total <= WeightFrom(history, c.now - c.window)
  {
    var c := Last(calls);
    NoLiveEventLost(calls, window, c.key, c.now);
    HistoryIsSorted(calls, window, c.key);
    FirstIsLive(calls, window);
    SumIsBetween(History(calls, c.key), Bucket(After(calls), c.key), c.now - c.window, c.now - Horizon(c.window));
  }

  /** After any calls, the total a check compares with its limit is at least the
      weight of the full history over the last 600 seconds, or over
      (now - window, now] when that is shorter, and at most its weight over
      [now - window, now]; the check rejects exactly when that total exceeds the
      limit and the key was still known. */
  lemma {:induction false} CheckSeesWindow(calls: seq<Call>, window: string -> real)
    requires Regular(calls, window) && calls != [] && Last(calls).limit.Some?
    ensures var c := Last(calls);
      var history := History(calls, c.key);
      var total := Sum(Bucket(After(calls), c.key));
      && WeightAfter(history, c.now - Horizon(c.window)) <= total <= WeightFrom(history, c.now - c.window)
      && (c.window <= 600.0 ==> WeightAfter(history, c.now - c.window) <= total)
      && (Judged(calls).Rejected? <==> c.key in Cleaned(Before(calls), c.now).buckets && total > c.limit.value)
  {
    var c := Last(calls);
    TotalIsBetween(calls, window);
    assert After(calls) == Recorded(Before(calls), c.key, c.window, c.weight, c.now);
  }

  /** A rejection reports the limit, the whole seconds of the window and whether
      tokens were counted, and names a delay after which, and not a second
      before which, its oldest counted event has left the window. */
  lemma {:induction false} RetryAfterIsExact(calls: seq<Call>, window: string -> real)
    requires Regular(calls, window) && calls != [] && Last(calls).limit.Some?
    requires Judged(calls).Rejected?
    ensures var c, retry := Last(calls), Judged(calls).retryAfter;
      var oldest := Bucket(After(calls), c.key)[0];
      && Judged(calls).limit == c.limit.value
      && Judged(calls).window as real <= c.window < (Judged(calls).window + 1) as real
      && (Judged(calls).tokens <==> c.weight > 1)
      && retry >= 1
      && oldest.time < c.now + retry as real - c.window
      && c.now + (retry - 1) as real - c.window <= oldest.time
  {
    FirstIsLive(calls, window);
  }

  /** The horizon is exact: a cleanup loses a live event of a key
      exactly when the key has been idle for longer than twice the interval but
      less than its window. */
  lemma {:induction false} CleanupLosesLiveEvent(st: State, key: string, window: real, now: real)
    requires key in st.buckets && st.buckets[key] != [] && Sorted(st.buckets[key])
    requires now - st.lastCleanup > 300.0
    ensures var events := st.buckets[key];
      var last := events[|events| - 1].time;
      (exists e | e in events :: e.time > now - window && e !in Bucket(Cleaned(st, now), key))
      <==> now - window < last < now - 600.0
  {
    var events := st.buckets[key];
    var last := events[|events| - 1];
    assert last in events;
    forall i | 0 <= i < |events|
      ensures events[i].time <= last.time
    {
      SortedLast(events, i);
    }
  }

  const DAY := 86400.0

  /** Two calls of the daily limiter, a quarter of an hour apart: the day's
      quota is used up by the first, and the second is admitted. */
  lemma {:induction false} DailyLimitForgets(key: string, limit: nat)
    ensures var calls := [Call(key, DAY, limit, 1.0, Some(limit)), Call(key, DAY, 1, 901.0, Some(limit))];
      Judged(calls).Admitted? && WeightAfter(History(calls, key), 901.0 - DAY) == limit + 1
  {
    var first, second := Call(key, DAY, limit, 1.0, Some(limit)), Call(key, DAY, 1, 901.0, Some(limit));
    var none: seq<Call> := [];
    var calls := [first, second];
    assert [first][..0] == none && calls[..1] == [first];
    RecordedBucket(State(map[], 0.0), first, key);
    assert After([first]) == Recorded(After(none), key, DAY, limit, 1.0);
    var e, e' := Event(1.0, limit), Event(901.0, 1);
    assert Bucket(After([first]), key) == [e];
    assert History([first], key) == History(none, key) + [e];
    var history := History(calls, key);
    assert history == [e, e'] && history[1..] == [e'] && [e'][1..] == [];
    assert WeightAfter([e'], 901.0 - DAY) == 1;
  }
}
