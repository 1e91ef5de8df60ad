/** The in-process stream bus, a bounded buffer of chunks per agent, and the
    reader that polls it with a cursor. */
module StreamBus {

  datatype Chunk = Chunk(seqNo: nat, text: string, kind: string)

  datatype State = State(buffers: map<int, seq<Chunk>>, seqNo: nat)

  // ---- What one operation computes ----

  function Buffer(st: State, agent: int): seq<Chunk> {
    if agent in st.buffers then st.buffers[agent] else []
  }

  function Min(a: int, b: int): int {
    if a < b then a else b
  }

  /** The deletion of `buf[0:len(buf) - max]` when the buffer is too long; a
      slice bound past the end is cut to the length. */
  function Trim(buf: seq<Chunk>, max: int): seq<Chunk> {
    if |buf| > max then buf[Min(|buf| - max, |buf|)..] else buf
  }

  function Published(st: State, max: int, agent: int, text: string, kind: string): State {
    var chunk := Chunk(st.seqNo + 1, text, kind);
    State(st.buffers[agent := Trim(Buffer(st, agent) + [chunk], max)], st.seqNo + 1)
  }

  function Since(st: State, agent: int, cursor: int): seq<Chunk> {
    Newer(Buffer(st, agent), cursor)
  }

  function Newer(buf: seq<Chunk>, cursor: int): seq<Chunk> {
    if buf == [] then []
    else
      var last := buf[|buf| - 1];
      Newer(buf[..|buf| - 1], cursor) + if last.seqNo > cursor then [last] else []
  }

  function Cleared(st: State, agent: int): State {
    st.(buffers := st.buffers - {agent})
  }

  class Bus {
    var buffers: map<int, seq<Chunk>>
    var seqNo: nat
    const max: int

    ghost function Now(): State
      reads this
    {
      State(buffers, seqNo)
    }

    constructor (max: int)
      ensures Now() == State(map[], 0) && this.max == max
    {
      buffers, seqNo, this.max := map[], 0, max;
    }

    method Publish(agent: int, text: string, kind: string) returns (n: nat)
      modifies this
      ensures Now() == Published(old(Now()), max, agent, text, kind)
      ensures n == seqNo == old(seqNo) + 1
    {
      seqNo := seqNo + 1;
      var buf := (if agent in buffers then buffers[agent] else []) + [Chunk(seqNo, text, kind)];
      if |buf| > max {
        buf := buf[Min(|buf| - max, |buf|)..];
      }
      buffers := buffers[agent := buf];
      n := seqNo;
    }

    method Poll(agent: int, cursor: int) returns (chunks: seq<Chunk>)
      ensures chunks == Since(Now(), agent, cursor)
    {
      var buf := if agent in buffers then buffers[agent] else [];
      chunks := [];
      for i := 0 to |buf|
        invariant chunks == Newer(buf[..i], cursor)
      {
        assert buf[..i + 1][..i] == buf[..i];
        if buf[i].seqNo > cursor {
          chunks := chunks + [buf[i]];
        }
      }
      assert buf[..|buf|] == buf;
    }

    method Reset(agent: int)
      modifies this
      ensures Now() == Cleared(old(Now()), agent)
    {
      buffers := buffers - {agent};
    }
  }

  // ---- Runs ----

  datatype Event =
    | Publish(agent: int, text: string, kind: string)
    | Reset(agent: int)
    | Poll(agent: int)

  /** The bus, and for one agent its reader: the cursor, what it has seen, and
      what has been published for the agent; of that, `unread` is what came
      since the last poll or reset, and `passed` what the buffer held then. */
  datatype World = World(
    bus: State,
    cursor: nat,
    seen: seq<Chunk>,
    published: seq<Chunk>,
    passed: seq<Chunk>,
    unread: seq<Chunk>)

  /** The cursor after a poll: the number of the last chunk, if any came. */
  function Cursor(chunks: seq<Chunk>, cursor: nat): nat {
    if chunks == [] then cursor else chunks[|chunks| - 1].seqNo
  }

  function Step(w: World, max: int, reader: int, ev: Event): World {
    match ev
    case Publish(agent, text, kind) =>
      var bus := Published(w.bus, max, agent, text, kind);
      if agent != reader then w.(bus := bus)
      else
        var chunk := Chunk(bus.seqNo, text, kind);
        w.(bus := bus, published := w.published + [chunk], unread := w.unread + [chunk])
    case Reset(agent) =>
      var bus := Cleared(w.bus, agent);
      if agent != reader then w.(bus := bus) else w.(bus := bus, passed := [], unread := [])
    case Poll(agent) =>
      if agent != reader then w
      else
        var chunks := Since(w.bus, reader, w.cursor);
        w.(cursor := Cursor(chunks, w.cursor), seen := w.seen + chunks,
           passed := Buffer(w.bus, reader), unread := [])
  }

  const START := World(State(map[], 0), 0, [], [], [], [])

  function Run(max: int, reader: int, events: seq<Event>): World {
    if events == [] then START
    else Step(Run(max, reader, events[..|events| - 1]), max, reader, events[|events| - 1])
  }

  // ---- What a reader sees ----

  ghost predicate Increasing(chunks: seq<Chunk>) {
    forall i, j | 0 <= i < j < |chunks| :: chunks[i].seqNo < chunks[j].seqNo
  }

  ghost predicate Below(chunks: seq<Chunk>, bound: int) {
    forall i | 0 <= i < |chunks| :: chunks[i].seqNo <= bound
  }

  ghost predicate Above(chunks: seq<Chunk>, bound: int) {
    forall i | 0 <= i < |chunks| :: chunks[i].seqNo > bound
  }

  ghost predicate Subset(part: seq<Chunk>, whole: seq<Chunk>) {
    forall c | c in part :: c in whole
  }

  /** The last `max` elements, none if `max` is not positive. */
  function LastOf(chunks: seq<Chunk>, max: int): seq<Chunk> {
    chunks[Excess(|chunks|, max)..]
  }

  function Excess(n: nat, max: int): (k: nat)
    ensures k <= n
  {
    if max <= 0 then n else if n <= max then 0 else n - max
  }

  /** The invariant of a run: the buffer holds the last chunks of those passed
      and those unread, the former up to the cursor, the latter beyond it. */
  ghost predicate Inv(w: World, max: int, reader: int) {
    && Buffer(w.bus, reader) == LastOf(w.passed + w.unread, max)
    && Below(w.passed, w.cursor) && Above(w.unread, w.cursor) && w.cursor <= w.bus.seqNo
    && Below(w.published, w.bus.seqNo) && Increasing(w.published)
    && Below(w.unread, w.bus.seqNo) && Increasing(w.unread) && Subset(w.unread, w.published)
    && Below(w.seen, w.cursor) && Increasing(w.seen) && Subset(w.seen, w.published)
  }

  lemma {:induction false} NewerOfBelow(passed: seq<Chunk>, cursor: int)
    requires Below(passed, cursor)
    ensures Newer(passed, cursor) == []
  {
    if passed != [] {
      NewerOfBelow(passed[..|passed| - 1], cursor);
    }
  }

  lemma {:induction false} NewerOfSplit(passed: seq<Chunk>, unread: seq<Chunk>, cursor: int)
    requires Below(passed, cursor) && Above(unread, cursor)
    ensures Newer(passed + unread, cursor) == unread
    decreases |unread|
  {
    if unread == [] {
      NewerOfBelow(passed, cursor);
      assert passed + unread == passed;
    } else {
      var n := |unread| - 1;
      assert (passed + unread)[..|passed| + n] == passed + unread[..n];
      NewerOfSplit(passed, unread[..n], cursor);
      assert unread[..n] + [unread[n]] == unread;
    }
  }

  lemma {:induction false} LastOfSplit(passed: seq<Chunk>, unread: seq<Chunk>, max: int)
    ensures var k := Excess(|passed| + |unread|, max);
      LastOf(passed + unread, max) == passed[if k < |passed| then k else |passed|..] + LastOf(unread, max)
  {}

  /** A poll returns exactly the last `max` chunks published for the agent since
      the last poll or reset. */
  lemma {:induction false} PollReturnsUnread(w: World, max: int, reader: int)
    requires Inv(w, max, reader)
    ensures Since(w.bus, reader, w.cursor) == LastOf(w.unread, max)
  {
    LastOfSplit(w.passed, w.unread, max);
    var k := Excess(|w.passed| + |w.unread|, max);
    NewerOfSplit(w.passed[if k < |w.passed| then k else |w.passed|..], LastOf(w.unread, max), w.cursor);
  }

  lemma {:induction false} TrimOfLast(all: seq<Chunk>, chunk: Chunk, max: int)
    ensures Trim(LastOf(all, max) + [chunk], max) == LastOf(all + [chunk], max)
  {
    if max > 0 && |all| >= max {
      assert LastOf(all, max) + [chunk] == (all + [chunk])[|all| - max..];
    } else if max > 0 {
      assert LastOf(all, max) == all;
    } else {
      assert LastOf(all, max) == [] && LastOf(all + [chunk], max) == [];
    }
  }

  lemma {:induction false} BufferAfterPublish(
      passed: seq<Chunk>, unread: seq<Chunk>, buf: seq<Chunk>, chunk: Chunk, max: int)
    requires buf == LastOf(passed + unread, max)
    ensures Trim(buf + [chunk], max) == LastOf(passed + (unread + [chunk]), max)
  {
    TrimOfLast(passed + unread, chunk, max);
    assert (passed + unread) + [chunk] == passed + (unread + [chunk]);
  }

  lemma {:induction false} Appends(chunks: seq<Chunk>, chunk: Chunk)
    requires Increasing(chunks) && Below(chunks, chunk.seqNo - 1)
    ensures Increasing(chunks + [chunk]) && Below(chunks + [chunk], chunk.seqNo)
  {
    var all := chunks + [chunk];
    forall i | 0 <= i < |all|
      ensures all[i].seqNo <= chunk.seqNo
    {
      assert i < |chunks| ==> all[i] == chunks[i];
    }
    forall i, j | 0 <= i < j < |all|
      ensures all[i].seqNo < all[j].seqNo
    {
      assert all[i] == chunks[i];
      assert j < |chunks| ==> all[j] == chunks[j];
    }
  }

  lemma {:induction false} UnreadAfterPublish(unread: seq<Chunk>, published: seq<Chunk>, chunk: Chunk, cursor: int)
    requires Above(unread, cursor) && cursor < chunk.seqNo && Subset(unread, published)
    ensures Above(unread + [chunk], cursor) && Subset(unread + [chunk], published + [chunk])
  {}

  lemma {:induction false} PublishKeeps(w: World, max: int, reader: int, text: string, kind: string)
    requires Inv(w, max, reader)
    ensures Inv(Step(w, max, reader, Publish(reader, text, kind)), max, reader)
  {
    var chunk, w' := Chunk(w.bus.seqNo + 1, text, kind), Step(w, max, reader, Publish(reader, text, kind));
    assert w' == w.(bus := w'.bus, published := w.published + [chunk], unread := w.unread + [chunk]);
    BufferAfterPublish(w.passed, w.unread, Buffer(w.bus, reader), chunk, max);
    assert Buffer(w'.bus, reader) == LastOf(w'.passed + w'.unread, max);
    Appends(w.published, chunk);
    Appends(w.unread, chunk);
    UnreadAfterPublish(w.unread, w.published, chunk, w.cursor);
    assert Subset(w.seen, w.published + [chunk]);
  }

  lemma {:induction false} LastOfTwice(chunks: seq<Chunk>, max: int)
    ensures LastOf(LastOf(chunks, max) + [], max) == LastOf(chunks, max)
  {}

  lemma {:induction false} PollPasses(passed: seq<Chunk>, unread: seq<Chunk>, max: int, cursor: nat)
    requires Below(passed, cursor) && Increasing(unread) && Above(unread, cursor)
    ensures Below(LastOf(passed + unread, max), Cursor(LastOf(unread, max), cursor))
  {
    var all, kept := passed + unread, LastOf(passed + unread, max);
    var k, last := Excess(|all|, max), Cursor(LastOf(unread, max), cursor);
    forall i | 0 <= i < |kept|
      ensures kept[i].seqNo <= last
    {
      assert kept[i] == all[k + i];
      if k + i < |passed| {
        assert passed[k + i].seqNo <= cursor <= last;
      } else {
        assert unread[k + i - |passed|].seqNo <= unread[|unread| - 1].seqNo;
      }
    }
  }

  lemma {:induction false} PollSees(w: World, chunks: seq<Chunk>, max: int)
    requires Increasing(w.unread) && Above(w.unread, w.cursor)
    requires Below(w.unread, w.bus.seqNo) && Subset(w.unread, w.published)
    requires Below(w.seen, w.cursor) && Increasing(w.seen) && Subset(w.seen, w.published) && w.cursor <= w.bus.seqNo
    requires chunks == LastOf(w.unread, max)
    ensures var cursor := Cursor(chunks, w.cursor);
      && cursor <= w.bus.seqNo && Below(w.seen + chunks, cursor)
      && Increasing(w.seen + chunks) && Subset(w.seen + chunks, w.published)
  {}

  lemma {:induction false} PollKeeps(w: World, max: int, reader: int)
    requires Inv(w, max, reader)
    ensures Inv(Step(w, max, reader, Poll(reader)), max, reader)
  {
    PollReturnsUnread(w, max, reader);
    PollSees(w, Since(w.bus, reader, w.cursor), max);
    PollPasses(w.passed, w.unread, max, w.cursor);
    LastOfTwice(w.passed + w.unread, max);
  }

  lemma {:induction false} OthersKeep(w: World, max: int, reader: int, ev: Event)
    requires Inv(w, max, reader) && ev.agent != reader
    ensures Inv(Step(w, max, reader, ev), max, reader)
  {}

  lemma {:induction false} ResetKeeps(w: World, max: int, reader: int)
    requires Inv(w, max, reader)
    ensures Inv(Step(w, max, reader, Reset(reader)), max, reader)
  {}

  lemma {:induction false} RunKeeps(max: int, reader: int, events: seq<Event>)
    ensures Inv(Run(max, reader, events), max, reader)
  {
    if events != [] {
      var before, ev := events[..|events| - 1], events[|events| - 1];
      RunKeeps(max, reader, before);
      var w := Run(max, reader, before);
      if ev.agent != reader {
        OthersKeep(w, max, reader, ev);
      } else {
        match ev
        case Publish(_, text, kind) => PublishKeeps(w, max, reader, text, kind);
        case Reset(_) => ResetKeeps(w, max, reader);
        case Poll(_) => PollKeeps(w, max, reader);
      }
    }
  }

  /** Whatever the interleaving with other agents, polls and resets, a reader
      sees chunks of its own agent only, each at most once, in the order in
      which they were published. */
  lemma {:induction false} SeesInOrder(max: int, reader: int, events: seq<Event>)
    ensures var w := Run(max, reader, events);
      Increasing(w.seen) && Increasing(w.published) && Subset(w.seen, w.published)
  {
    RunKeeps(max, reader, events);
  }

  /** No poll of the run finds more than `max` unread chunks, and none is
      discarded by a reset of the agent. */
  ghost predicate Unhurried(max: int, reader: int, events: seq<Event>) {
    forall n | 0 <= n < |events| ::
      var w := Run(max, reader, events[..n]);
      && (events[n] == Poll(reader) ==> |w.unread| <= max)
      && (events[n] == Reset(reader) ==> w.unread == [])
  }

  /** The chunks that were neither seen nor wait to be polled are lost. */
  lemma {:induction false} StepLoses(w: World, max: int, reader: int, ev: Event)
    requires Inv(w, max, reader) && max >= 0
    ensures var w' := Step(w, max, reader, ev);
      var loses := (ev == Poll(reader) && |w.unread| > max) || (ev == Reset(reader) && w.unread != []);
      && |w'.published| - |w'.seen| - |w'.unread| >= |w.published| - |w.seen| - |w.unread| + (if loses then 1 else 0)
      && (!loses && w.published == w.seen + w.unread ==> w'.published == w'.seen + w'.unread)
  {
    match ev
    case Publish(agent, text, kind) =>
      var chunk := Chunk(w.bus.seqNo + 1, text, kind);
      assert (w.seen + w.unread) + [chunk] == w.seen + (w.unread + [chunk]);
    case Reset(agent) =>
    case Poll(agent) =>
      if agent == reader {
        PollReturnsUnread(w, max, reader);
        assert |w.unread| <= max ==> LastOf(w.unread, max) == w.unread;
      }
  }

  /** A reader sees everything, up to what it has not polled yet, exactly when
      it never let more than `max` chunks, or a reset, come between two polls. */
  lemma {:induction false} SeesEverything(max: int, reader: int, events: seq<Event>)
    requires max >= 0
    ensures var w := Run(max, reader, events);
      && (Unhurried(max, reader, events) ==> w.published == w.seen + w.unread)
      && (!Unhurried(max, reader, events) ==> |w.seen| + |w.unread| < |w.published|)
  {
    if events != [] {
      var before, ev := events[..|events| - 1], events[|events| - 1];
      SeesEverything(max, reader, before);
      RunKeeps(max, reader, before);
      StepLoses(Run(max, reader, before), max, reader, ev);
      UnhurriedPrefix(max, reader, events);
    }
  }

  lemma {:induction false} UnhurriedPrefix(max: int, reader: int, events: seq<Event>)
    requires events != []
    ensures var before, ev := events[..|events| - 1], events[|events| - 1];
      var w := Run(max, reader, before);
      Unhurried(max, reader, events) <==>
        && Unhurried(max, reader, before)
        && (ev == Poll(reader) ==> |w.unread| <= max)
        && (ev == Reset(reader) ==> w.unread == [])
  {
    var before := events[..|events| - 1];
    forall n | 0 <= n <= |before|
      ensures before[..n] == events[..n]
    {}
    assert forall n | 0 <= n < |before| :: before[n] == events[n];
  }
}
