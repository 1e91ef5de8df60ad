/** What a price merge makes of the catalogue, said of the price list itself: its
    keys, its aliases and the raw values of its entries. */
module PriceList {
  import opened Wrappers
  import opened Counting
  import opened Pricing

  // ---- Names and keys ----

  /** `last` is what follows the last slash of a name, or all of it. */
  ghost predicate EndsIn(s: string, last: string) {
    '/' !in last && (s == last || exists head :: s == head + "/" + last)
  }

  /** The two names end alike. */
  ghost predicate EndAlike(s: string, s': string) {
    exists last :: EndsIn(s, last) && EndsIn(s', last)
  }

  lemma {:induction false} SlashIsFirst(s: string, head: string, tail: string)
    requires s == head + "/" + tail && '/' !in head
    ensures Slash(s) == |head|
  {
    if head != [] {
      assert s[0] == head[0] && s[1..] == head[1..] + "/" + tail;
      SlashIsFirst(s[1..], head[1..], tail);
    }
  }

  lemma {:induction false} CutBefore(s: string, i: nat)
    requires i < |s| && s[i] == '/'
    ensures Slash(s) <= i
  {
    if s[0] != '/' {
      CutBefore(s[1..], i - 1);
    }
  }

  lemma {:induction false} NoneBeforeSlash(s: string)
    ensures '/' !in s[..Slash(s)] && (Slash(s) == |s| <==> '/' !in s)
    ensures Slash(s) < |s| ==> s == s[..Slash(s)] + "/" + s[Slash(s) + 1..]
  {
    forall i | 0 <= i < |s| && s[i] == '/'
      ensures Slash(s) <= i
    {
      CutBefore(s, i);
    }
  }

  lemma {:induction false} EndsInMore(head: string, tail: string, last: string)
    requires EndsIn(tail, last)
    ensures EndsIn(head + "/" + tail, last)
  {
    if tail != last {
      var more :| tail == more + "/" + last;
      assert head + "/" + tail == (head + "/" + more) + "/" + last;
    }
  }

  lemma {:induction false} EndsInLast(s: string)
    ensures EndsIn(s, LastSegment(s))
    decreases |s|
  {
    NoneBeforeSlash(s);
    var cut := Slash(s);
    if cut < |s| {
      EndsInLast(s[cut + 1..]);
      EndsInMore(s[..cut], s[cut + 1..], LastSegment(s));
    }
  }

  /** The last segment is not cut at the first slash, but follows it. */
  lemma {:induction false} TailEndsAlike(s: string, last: string)
    requires EndsIn(s, last) && s != last
    ensures Slash(s) < |s| && EndsIn(s[Slash(s) + 1..], last)
  {
    var head :| s == head + "/" + last;
    assert s[|head|] == '/';
    CutBefore(s, |head|);
    var cut := Slash(s);
    if cut < |head| {
      assert s[cut + 1..] == head[cut + 1..] + "/" + last;
    } else {
      assert s[cut + 1..] == last;
    }
  }

  lemma {:induction false} LastIsLast(s: string, last: string)
    requires EndsIn(s, last)
    ensures last == LastSegment(s)
    decreases |s|
  {
    if s == last {
      NoneBeforeSlash(s);
    } else {
      TailEndsAlike(s, last);
      LastIsLast(s[Slash(s) + 1..], last);
    }
  }

  lemma {:induction false} EndAlikeIsExact(s: string, s': string)
    ensures EndAlike(s, s') <==> LastSegment(s) == LastSegment(s')
  {
    EndsInLast(s);
    EndsInLast(s');
    if last :| EndsIn(s, last) && EndsIn(s', last) {
      LastIsLast(s, last);
      LastIsLast(s', last);
    }
  }

  /** The key, cut at its first slash, names this provider and this model, once
      their aliases are replaced. */
  ghost predicate KeyNames(q: Request, key: string, provider: string, model: string) {
    exists p, m :: key == p + "/" + m && IsAliasOf(q, p, m, provider, model)
  }

  ghost predicate IsAliasOf(q: Request, p: string, m: string, provider: string, model: string) {
    && '/' !in p
    && (if p in q.providerAlias then q.providerAlias[p] == provider else p == provider)
    && (if m in q.modelAlias then q.modelAlias[m] == model else m == model)
  }

  ghost predicate CostsNothing(e: Entry) {
    (e.inputCost.None? || e.inputCost == Some(0.0)) && (e.outputCost.None? || e.outputCost == Some(0.0))
  }

  lemma {:induction false} KeyIsCut(q: Request, key: string, provider: string, model: string)
    requires Slash(key) < |key|
    ensures KeyNames(q, key, provider, model) <==>
      IsAliasOf(q, key[..Slash(key)], key[Slash(key) + 1..], provider, model)
  {
    NoneBeforeSlash(key);
    if p, m :| key == p + "/" + m && IsAliasOf(q, p, m, provider, model) {
      SlashIsFirst(key, p, m);
      assert key[..Slash(key)] == p && key[Slash(key) + 1..] == m;
    }
  }

  lemma {:induction false} EligibleIsExact(q: Request, k: nat, provider: string, model: string)
    requires k < |q.prices|
    ensures var (key, entry) := q.prices[k];
      && (Eligible(q, k).Some? <==> '/' in key && (q.onlyFree ==> CostsNothing(entry)))
      && (Eligible(q, k).Some? ==>
           (KeyNames(q, key, provider, model) <==>
             provider == Eligible(q, k).value.provider && model == Eligible(q, k).value.model))
  {
    var key := q.prices[k].0;
    NoneBeforeSlash(key);
    if Slash(key) < |key| {
      KeyIsCut(q, key, provider, model);
    }
  }

  // ---- Which prices reach a row ----

  /** The rows of the provider with the exact name; only if there are none, those
      whose name ends alike; only if there are none of those, those whose model
      reference ends alike. */
  ghost predicate Reaches(rows: seq<Row>, provider: string, model: string, i: nat)
    requires i < |rows|
  {
    && rows[i].provider == provider
    && if IsNamed(rows, provider, model) then rows[i].name == model
       else if IsNamedAlike(rows, provider, model) then EndAlike(rows[i].name, model)
       else EndAlike(rows[i].modelRef, model)
  }

  ghost predicate IsNamed(rows: seq<Row>, provider: string, model: string) {
    exists j :: 0 <= j < |rows| && rows[j].provider == provider && rows[j].name == model
  }

  ghost predicate IsNamedAlike(rows: seq<Row>, provider: string, model: string) {
    exists j :: 0 <= j < |rows| && rows[j].provider == provider && EndAlike(rows[j].name, model)
  }

  lemma {:induction false} ReachesIsExact(rows: seq<Row>, p: Price, i: nat)
    requires i < |rows|
    ensures Reaches(rows, p.provider, p.model, i) <==> i in Candidates(rows, p)
  {
    CandidatesAreExact(rows, p, i);
    forall j | 0 <= j < |rows|
      ensures EndAlike(rows[j].name, p.model) <==> LastSegment(rows[j].name) == LastSegment(p.model)
      ensures EndAlike(rows[j].modelRef, p.model) <==> LastSegment(rows[j].modelRef) == LastSegment(p.model)
    {
      EndAlikeIsExact(rows[j].name, p.model);
      EndAlikeIsExact(rows[j].modelRef, p.model);
    }
    assert IsNamed(rows, p.provider, p.model) == !NoRow(rows, ByName, p);
    assert IsNamedAlike(rows, p.provider, p.model) == !NoRow(rows, ByNameSuffix, p);
  }

  /** The entry `k` of the list reaches the row `i`: its key has a slash, it is
      free if only such entries are asked for, and its names are those of the
      row. */
  ghost predicate Applies(rows: seq<Row>, q: Request, k: nat, i: nat)
    requires k < |q.prices| && i < |rows|
  {
    var (key, entry) := q.prices[k];
    && (q.onlyFree ==> CostsNothing(entry))
    && exists provider, model :: KeyNames(q, key, provider, model) && Reaches(rows, provider, model, i)
  }

  lemma {:induction false} AppliesIsExact(rows: seq<Row>, q: Request, k: nat, i: nat)
    requires k < |q.prices| && i < |rows|
    ensures Applies(rows, q, k, i) <==> Eligible(q, k).Some? && i in Candidates(rows, Eligible(q, k).value)
  {
    var key := q.prices[k].0;
    var price := Eligible(q, k);
    if price.Some? {
      var p := price.value;
      EligibleIsExact(q, k, p.provider, p.model);
      ReachesIsExact(rows, p, i);
      if provider, model :| KeyNames(q, key, provider, model) && Reaches(rows, provider, model, i) {
        EligibleIsExact(q, k, provider, model);
      }
    } else {
      EligibleIsExact(q, k, "", "");
      if provider, model :| KeyNames(q, key, provider, model) && Reaches(rows, provider, model, i) {
        var p, m :| key == p + "/" + m && IsAliasOf(q, p, m, provider, model);
        assert key[|p|] == '/';
      }
    }
  }

  // ---- The final value of a row, said of the price list ----

  /** The entry `k` reaches the row and gives a value. */
  ghost predicate IsGiver<T>(rows: seq<Row>, q: Request, k: nat, i: nat, gives: Entry -> Option<T>)
    requires k < |q.prices| && i < |rows|
  {
    Applies(rows, q, k, i) && gives(q.prices[k].1).Some?
  }

  /** No entry from `k` on does, among the first `n`. */
  ghost predicate NoGiver<T>(rows: seq<Row>, q: Request, k: nat, n: nat, i: nat, gives: Entry -> Option<T>)
    requires n <= |q.prices| && i < |rows|
  {
    forall j | k <= j < n :: !IsGiver(rows, q, j, i, gives)
  }

  /** `value` is what the last of the first `n` entries gives that reaches the
      row and gives a value at all. */
  ghost predicate IsLastGiven<T>(
      rows: seq<Row>, q: Request, n: nat, i: nat, gives: Entry -> Option<T>, value: Option<T>)
    requires n <= |q.prices| && i < |rows|
  {
    if value.None? then NoGiver(rows, q, 0, n, i, gives)
    else exists k: nat ::
      k < n && NoGiver(rows, q, k + 1, n, i, gives) && IsGiver(rows, q, k, i, gives) && gives(q.prices[k].1) == value
  }

  lemma {:induction false} GivenNow<T>(
      rows: seq<Row>, q: Request, n: nat, i: nat, gives: Entry -> Option<T>)
    requires n < |q.prices| && i < |rows| && IsGiver(rows, q, n, i, gives)
    ensures IsLastGiven(rows, q, n + 1, i, gives, gives(q.prices[n].1))
  {
    assert NoGiver(rows, q, n + 1, n + 1, i, gives);
  }

  lemma {:induction false} StillNone<T>(
      rows: seq<Row>, q: Request, k: nat, n: nat, i: nat, gives: Entry -> Option<T>)
    requires n < |q.prices| && i < |rows| && NoGiver(rows, q, k, n, i, gives) && !IsGiver(rows, q, n, i, gives)
    ensures NoGiver(rows, q, k, n + 1, i, gives)
  {}

  lemma {:induction false} StillGiven<T>(
      rows: seq<Row>, q: Request, n: nat, i: nat, gives: Entry -> Option<T>, value: Option<T>)
    requires n < |q.prices| && i < |rows| && IsLastGiven(rows, q, n, i, gives, value)
    requires !IsGiver(rows, q, n, i, gives)
    ensures IsLastGiven(rows, q, n + 1, i, gives, value)
  {
    if value.None? {
      StillNone(rows, q, 0, n, i, gives);
    } else {
      var k: nat :| k < n && NoGiver(rows, q, k + 1, n, i, gives)
                    && IsGiver(rows, q, k, i, gives) && gives(q.prices[k].1) == value;
      StillNone(rows, q, k + 1, n, i, gives);
    }
  }

  lemma {:induction false} ReachedGiven<T>(
      rows: seq<Row>, q: Request, n: nat, i: nat, gives: Entry -> Option<T>, value: Option<T>)
    requires n < |q.prices| && i < |rows| && IsLastGiven(rows, q, n, i, gives, value) && Applies(rows, q, n, i)
    ensures IsLastGiven(rows, q, n + 1, i, gives, Or(gives(q.prices[n].1), value))
  {
    if IsGiver(rows, q, n, i, gives) {
      GivenNow(rows, q, n, i, gives);
    } else {
      StillGiven(rows, q, n, i, gives, value);
    }
  }

  // What one entry gives for each column.

  ghost function InputCost(e: Entry): Option<real> { e.inputCost }

  ghost function OutputCost(e: Entry): Option<real> { e.outputCost }

  ghost function Window(e: Entry): Option<int> {
    if e.maxInput.GetOr(0) != 0 then e.maxInput else if e.maxTokens.GetOr(0) != 0 then e.maxTokens else None
  }

  ghost function Output(e: Entry): Option<int> {
    if e.maxOutput.GetOr(0) != 0 then e.maxOutput else if e.maxTokens.GetOr(0) != 0 then e.maxTokens else None
  }

  ghost function Gratis(e: Entry): Option<bool> { Some(CostsNothing(e)) }

  /** The last value given for each column, and the last verdict on being free. */
  ghost predicate AreLastGiven(rows: seq<Row>, q: Request, n: nat, i: nat, last: Norm, free: Option<bool>)
    requires n <= |q.prices| && i < |rows|
  {
    && IsLastGiven(rows, q, n, i, InputCost, last.inputCost)
    && IsLastGiven(rows, q, n, i, OutputCost, last.outputCost)
    && IsLastGiven(rows, q, n, i, Window, last.contextWindow)
    && IsLastGiven(rows, q, n, i, Output, last.maxOutput)
    && IsLastGiven(rows, q, n, i, Gratis, free)
  }

  /** The verdict of the last price that hits a row. */
  ghost function Verdict(hits: seq<Norm>): Option<bool> {
    if hits == [] then None else Some(IsFree(hits[|hits| - 1]))
  }

  lemma {:induction false} LatestOfMore(hits: seq<Norm>, e: Entry)
    ensures var last := Latest(hits);
      Latest(hits + [Normalize(e)]) == Norm(
        Or(InputCost(e), last.inputCost), Or(OutputCost(e), last.outputCost),
        Or(Window(e), last.contextWindow), Or(Output(e), last.maxOutput))
    ensures Verdict(hits + [Normalize(e)]) == Gratis(e)
  {
    var hits' := hits + [Normalize(e)];
    assert hits'[..|hits|] == hits && hits'[|hits|] == Normalize(e);
  }

  lemma {:induction false} OneHitMore(rows: seq<Row>, q: Request, n: nat, i: nat, hits: seq<Norm>)
    requires n < |q.prices| && i < |rows| && Applies(rows, q, n, i)
    requires AreLastGiven(rows, q, n, i, Latest(hits), Verdict(hits))
    ensures var hits' := hits + [Normalize(q.prices[n].1)];
      AreLastGiven(rows, q, n + 1, i, Latest(hits'), Verdict(hits'))
  {
    var last := Latest(hits);
    LatestOfMore(hits, q.prices[n].1);
    ReachedGiven(rows, q, n, i, InputCost, last.inputCost);
    ReachedGiven(rows, q, n, i, OutputCost, last.outputCost);
    ReachedGiven(rows, q, n, i, Window, last.contextWindow);
    ReachedGiven(rows, q, n, i, Output, last.maxOutput);
    ReachedGiven(rows, q, n, i, Gratis, Verdict(hits));
  }

  lemma {:induction false} NoHitMore(rows: seq<Row>, q: Request, n: nat, i: nat, last: Norm, free: Option<bool>)
    requires n < |q.prices| && i < |rows| && !Applies(rows, q, n, i) && AreLastGiven(rows, q, n, i, last, free)
    ensures AreLastGiven(rows, q, n + 1, i, last, free)
  {
    StillGiven(rows, q, n, i, InputCost, last.inputCost);
    StillGiven(rows, q, n, i, OutputCost, last.outputCost);
    StillGiven(rows, q, n, i, Window, last.contextWindow);
    StillGiven(rows, q, n, i, Output, last.maxOutput);
    StillGiven(rows, q, n, i, Gratis, free);
  }

  lemma {:induction false} NoHits(rows: seq<Row>, q: Request, i: nat)
    requires i < |rows|
    ensures AreLastGiven(rows, q, 0, i, Latest([]), Verdict([]))
  {}

  lemma {:induction false} HitsAfter(rows: seq<Row>, q: Request, n: nat, i: nat)
    requires n < |q.prices| && i < |rows|
    ensures var ps := Prices(q);
      Hits(rows, ps, n + 1, i) ==
      Hits(rows, ps, n, i) + if Applies(rows, q, n, i) then [Normalize(q.prices[n].1)] else []
  {
    AppliesIsExact(rows, q, n, i);
  }

  ghost predicate HitsAreGiven(rows: seq<Row>, q: Request, n: nat, i: nat)
    requires n <= |q.prices| && i < |rows|
  {
    var hits := Hits(rows, Prices(q), n, i); AreLastGiven(rows, q, n, i, Latest(hits), Verdict(hits))
  }

  lemma {:induction false} NextHits(rows: seq<Row>, q: Request, n: nat, i: nat)
    requires n < |q.prices| && i < |rows| && HitsAreGiven(rows, q, n, i)
    ensures HitsAreGiven(rows, q, n + 1, i)
  {
    HitsAfter(rows, q, n, i);
    var hits := Hits(rows, Prices(q), n, i);
    if Applies(rows, q, n, i) {
      OneHitMore(rows, q, n, i, hits);
    } else {
      assert hits + [] == hits;
      NoHitMore(rows, q, n, i, Latest(hits), Verdict(hits));
    }
  }

  lemma {:induction false} AllHits(rows: seq<Row>, q: Request, n: nat, i: nat)
    requires n <= |q.prices| && i < |rows|
    ensures HitsAreGiven(rows, q, n, i)
  {
    if n == 0 {
      NoHits(rows, q, i);
    } else {
      AllHits(rows, q, n - 1, i);
      NextHits(rows, q, n - 1, i);
    }
  }

  /** What a merge makes of every row, said of the price list: each cost and the
      context window, if missing, become what the last entry gives that reaches
      the row and gives one; a maximal output so given replaces the old one; the
      last entry that reaches the row decides whether the model is free. */
  lemma {:induction false} MergeIsFinal(rows: seq<Row>, q: Request, i: nat)
      returns (last: Norm, free: Option<bool>)
    requires i < |rows|
    ensures AreLastGiven(rows, q, |q.prices|, i, last, free)
    ensures var r, r' := rows[i], Merged(rows, q)[i];
      && r'.inputCost == (if r.inputCost.None? then last.inputCost else r.inputCost)
      && r'.outputCost == (if r.outputCost.None? then last.outputCost else r.outputCost)
      && r'.contextWindow == (if r.contextWindow.None? then last.contextWindow else r.contextWindow)
      && r'.maxOutput == (if last.maxOutput.None? then r.maxOutput else last.maxOutput)
      && r'.freeTier == (if free.None? then r.freeTier else free.value)
      && r'.provider == r.provider && r'.modelRef == r.modelRef && r'.name == r.name
  {
    var hits := Hits(rows, Prices(q), |q.prices|, i);
    last, free := Latest(hits), Verdict(hits);
    AllHits(rows, q, |q.prices|, i);
    MergeIsFold(rows, q, i);
  }

  // ---- The counters ----

  /** The entry `k` counts: its key has a slash, and it is free if only such
      entries are asked for. */
  ghost predicate Counts(q: Request, k: nat)
    requires k < |q.prices|
  {
    '/' in q.prices[k].0 && (q.onlyFree ==> CostsNothing(q.prices[k].1))
  }

  /** The rows the entry `k` reaches. */
  ghost function Reached(rows: seq<Row>, q: Request, k: nat): nat -> bool
    requires k < |q.prices|
  {
    (i: nat) => i < |rows| && Applies(rows, q, k, i)
  }

  ghost function IsUnder(rows: seq<Row>, index: Index, key: Key): nat -> bool {
    (i: nat) => i < |rows| && RowKey(index, rows[i]) == key
  }

  lemma {:induction false} UnderHasSize(rows: seq<Row>, index: Index, key: Key, n: nat)
    requires n <= |rows|
    ensures |Under(rows, index, key, n)| == Count(n, IsUnder(rows, index, key))
  {
    if n == 0 {
      CountNone(IsUnder(rows, index, key));
    } else {
      UnderHasSize(rows, index, key, n - 1);
      CountNext(n - 1, IsUnder(rows, index, key));
    }
  }

  lemma {:induction false} CandidatesHaveSize(rows: seq<Row>, p: Price, reached: nat -> bool)
    requires forall i: nat | i < |rows| :: reached(i) == (i in Candidates(rows, p))
    ensures |Candidates(rows, p)| == Count(|rows|, reached)
  {
    var index :=
      if !NoRow(rows, ByName, p) then ByName else if !NoRow(rows, ByNameSuffix, p) then ByNameSuffix else ByRefSuffix;
    UnderNothing(rows, ByName, p);
    UnderNothing(rows, ByNameSuffix, p);
    UnderHasSize(rows, index, PriceKey(index, p), |rows|);
    forall i: nat | i < |rows|
      ensures reached(i) == IsUnder(rows, index, PriceKey(index, p))(i)
    {
      CandidatesAreExact(rows, p, i);
    }
    CountSame(|rows|, reached, IsUnder(rows, index, PriceKey(index, p)));
  }

  lemma {:induction false} ReachedHasSize(rows: seq<Row>, q: Request, k: nat)
    requires k < |q.prices|
    ensures Count(|rows|, Reached(rows, q, k)) ==
      if Eligible(q, k).Some? then |Candidates(rows, Eligible(q, k).value)| else 0
  {
    var price := Eligible(q, k);
    forall i: nat | i < |rows|
      ensures Reached(rows, q, k)(i) == (price.Some? && i in Candidates(rows, price.value))
    {
      AppliesIsExact(rows, q, k, i);
    }
    if price.Some? {
      CandidatesHaveSize(rows, price.value, Reached(rows, q, k));
    } else {
      assert Below(|rows|, Reached(rows, q, k)) == {};
    }
  }

  /** What each entry adds to the counters: one that counts is matched if it
      reaches a row and skipped otherwise; a matched one adds an update per row
      and, if it is free, one to the free ones. */
  lemma {:induction false} StatsTable(rows: seq<Row>, q: Request, k: nat)
    requires k < |q.prices|
    ensures CountStats(rows, Prices(q), 0) == Stats(0, 0, 0, 0)
    ensures var st, st' := CountStats(rows, Prices(q), k), CountStats(rows, Prices(q), k + 1);
      var reached := Count(|rows|, Reached(rows, q, k));
      && st'.matched == st.matched + (if reached > 0 then 1 else 0)
      && st'.skipped == st.skipped + (if Counts(q, k) && reached == 0 then 1 else 0)
      && st'.updated == st.updated + reached
      && st'.freeTier == st.freeTier + (if reached > 0 && CostsNothing(q.prices[k].1) then 1 else 0)
  {
    EligibleIsExact(q, k, "", "");
    ReachedHasSize(rows, q, k);
  }
}
