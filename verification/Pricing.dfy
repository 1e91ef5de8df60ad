/** Merging an external price list into the catalogue's provider models.  Costs
    are exact reals. */
module Pricing {
  import opened Wrappers

  /** A row of `provider_models` with the references of its provider and model. */
  datatype Row = Row(
    provider: string,
    modelRef: string,
    name: string,
    inputCost: Option<real>,
    outputCost: Option<real>,
    contextWindow: Option<int>,
    maxOutput: Option<int>,
    freeTier: bool)

  /** An entry of the price list. */
  datatype Entry = Entry(
    inputCost: Option<real>,
    outputCost: Option<real>,
    maxInput: Option<int>,
    maxOutput: Option<int>,
    maxTokens: Option<int>)

  /** An entry in the catalogue's terms. */
  datatype Norm = Norm(
    inputCost: Option<real>,
    outputCost: Option<real>,
    contextWindow: Option<int>,
    maxOutput: Option<int>)

  /** The columns one update sets. */
  datatype Extra = Extra(
    inputCost: Option<real>,
    outputCost: Option<real>,
    contextWindow: Option<int>,
    maxOutput: Option<int>,
    freeTier: bool)

  datatype Stats = Stats(matched: nat, updated: nat, freeTier: nat, skipped: nat)

  /** The request: the price list in order, the aliases of providers and models,
      and whether only free entries count. */
  datatype Request = Request(
    prices: seq<(string, Entry)>,
    providerAlias: map<string, string>,
    modelAlias: map<string, string>,
    onlyFree: bool)

  // ---- Entries ----

  /** Python's `or` on numbers. */
  function FirstNonZero(a: Option<int>, b: Option<int>): Option<int> {
    if a.Some? && a.value != 0 then a else if b.Some? && b.value != 0 then b else None
  }

  function Normalize(e: Entry): Norm {
    Norm(e.inputCost, e.outputCost, FirstNonZero(e.maxInput, e.maxTokens), FirstNonZero(e.maxOutput, e.maxTokens))
  }

  predicate IsFree(n: Norm) {
    n.inputCost.GetOr(0.0) == 0.0 && n.outputCost.GetOr(0.0) == 0.0
  }

  function Slash(s: string): (i: nat)
    ensures i <= |s| && (i < |s| ==> s[i] == '/')
  {
    if s == [] || s[0] == '/' then 0 else 1 + Slash(s[1..])
  }

  function LastSegment(s: string): string {
    if Slash(s) == |s| then s else LastSegment(s[Slash(s) + 1..])
  }

  function Resolve(alias: map<string, string>, name: string): string {
    if name in alias then alias[name] else name
  }

  /** A key of the price list and its entry, resolved; keys without a slash and,
      if so asked, entries that are not free do not count. */
  datatype Price = Price(provider: string, model: string, norm: Norm)

  function Eligible(q: Request, i: nat): Option<Price>
    requires i < |q.prices|
  {
    var (key, entry) := q.prices[i];
    var cut := Slash(key);
    if cut == |key| || (q.onlyFree && !IsFree(Normalize(entry))) then None
    else Some(Price(Resolve(q.providerAlias, key[..cut]), Resolve(q.modelAlias, key[cut + 1..]), Normalize(entry)))
  }

  /** The entries of the list, resolved. */
  function Prices(q: Request): (ps: seq<Option<Price>>)
    ensures |ps| == |q.prices|
  {
    seq(|q.prices|, i requires 0 <= i < |q.prices| => Eligible(q, i))
  }

  // ---- Rows a price applies to ----

  /** The three indexes: by provider and exact name, by provider and last segment
      of the name, by provider and last segment of the model's reference. */
  datatype Index = ByName | ByNameSuffix | ByRefSuffix

  type Key = (string, string)

  function RowKey(index: Index, r: Row): Key {
    match index
    case ByName => (r.provider, r.name)
    case ByNameSuffix => (r.provider, LastSegment(r.name))
    case ByRefSuffix => (r.provider, LastSegment(r.modelRef))
  }

  function PriceKey(index: Index, p: Price): Key {
    if index.ByName? then (p.provider, p.model) else (p.provider, LastSegment(p.model))
  }

  /** The rows under one key of an index, among the first `n`. */
  function Under(rows: seq<Row>, index: Index, key: Key, n: nat): (ids: seq<nat>)
    requires n <= |rows|
    ensures forall k | 0 <= k < |ids| :: ids[k] < n
  {
    if n == 0 then []
    else
      var ids := Under(rows, index, key, n - 1);
      if RowKey(index, rows[n - 1]) == key then ids + [n - 1] else ids
  }

  /** The first index that knows the price decides. */
  function Candidates(rows: seq<Row>, p: Price): (ids: seq<nat>)
    ensures forall k | 0 <= k < |ids| :: ids[k] < |rows|
  {
    var byName := Under(rows, ByName, PriceKey(ByName, p), |rows|);
    var byNameSuffix := Under(rows, ByNameSuffix, PriceKey(ByNameSuffix, p), |rows|);
    if byName != [] then byName
    else if byNameSuffix != [] then byNameSuffix
    else Under(rows, ByRefSuffix, PriceKey(ByRefSuffix, p), |rows|)
  }

  // ---- Updates ----

  function ExtraFor(r: Row, n: Norm): Extra {
    Extra(
      if r.inputCost.None? then n.inputCost else None,
      if r.outputCost.None? then n.outputCost else None,
      if r.contextWindow.None? then n.contextWindow else None,
      n.maxOutput,
      IsFree(n))
  }

  function Or<T>(a: Option<T>, b: Option<T>): Option<T> {
    if a.Some? then a else b
  }

  function Write(r: Row, x: Extra): Row {
    r.(inputCost := Or(x.inputCost, r.inputCost),
       outputCost := Or(x.outputCost, r.outputCost),
       contextWindow := Or(x.contextWindow, r.contextWindow),
       maxOutput := Or(x.maxOutput, r.maxOutput),
       freeTier := x.freeTier)
  }

  datatype Update = Update(row: nat, extra: Extra)

  /** The updates of one price, for the rows as they were read. */
  function UpdatesOf(rows: seq<Row>, ids: seq<nat>, n: Norm): (us: seq<Update>)
    requires forall k | 0 <= k < |ids| :: ids[k] < |rows|
    ensures |us| == |ids|
    ensures forall k | 0 <= k < |us| :: us[k].row < |rows|
  {
    if ids == [] then []
    else
      var last := ids[|ids| - 1];
      UpdatesOf(rows, ids[..|ids| - 1], n) + [Update(last, ExtraFor(rows[last], n))]
  }

  /** The updates of the first `n` prices. */
  function AllUpdates(rows: seq<Row>, ps: seq<Option<Price>>, n: nat): (us: seq<Update>)
    requires n <= |ps|
    ensures forall k | 0 <= k < |us| :: us[k].row < |rows|
  {
    if n == 0 then []
    else
      var us := AllUpdates(rows, ps, n - 1);
      match ps[n - 1]
      case None => us
      case Some(p) => us + UpdatesOf(rows, Candidates(rows, p), p.norm)
  }

  /** The rows once the first `n` updates are written. */
  function Applied(rows: seq<Row>, us: seq<Update>, n: nat): (r: seq<Row>)
    requires n <= |us| && forall k | 0 <= k < |us| :: us[k].row < |rows|
    ensures |r| == |rows|
  {
    if n == 0 then rows
    else
      var r, u := Applied(rows, us, n - 1), us[n - 1];
      r[u.row := Write(r[u.row], u.extra)]
  }

  function AllApplied(rows: seq<Row>, us: seq<Update>): (r: seq<Row>)
    requires forall k | 0 <= k < |us| :: us[k].row < |rows|
    ensures |r| == |rows|
  {
    Applied(rows, us, |us|)
  }

  function CountStats(rows: seq<Row>, ps: seq<Option<Price>>, n: nat): Stats
    requires n <= |ps|
  {
    if n == 0 then Stats(0, 0, 0, 0)
    else
      var st := CountStats(rows, ps, n - 1);
      match ps[n - 1]
      case None => st
      case Some(p) => Counted(st, Candidates(rows, p), p.norm)
  }

  function Counted(st: Stats, ids: seq<nat>, n: Norm): Stats {
    if ids == [] then st.(skipped := st.skipped + 1)
    else
      st.(matched := st.matched + 1,
          updated := st.updated + |ids|,
          freeTier := st.freeTier + if IsFree(n) then 1 else 0)
  }

  /** `merge_pricing`. */
  function Merged(rows: seq<Row>, q: Request): (r: seq<Row>)
    ensures |r| == |rows|
  {
    var ps := Prices(q);
    AllApplied(rows, AllUpdates(rows, ps, |ps|))
  }

  /** A dictionary that holds what one index finds. */
  ghost predicate IsDictionary(dict: map<Key, seq<nat>>, rows: seq<Row>, index: Index, n: nat)
    requires n <= |rows|
  {
    forall key :: Under(rows, index, key, n) == Get(dict, key)
  }

  function Get(dict: map<Key, seq<nat>>, key: Key): seq<nat> {
    if key in dict then dict[key] else []
  }

  datatype Dictionaries = Dictionaries(
    byName: map<Key, seq<nat>>,
    byNameSuffix: map<Key, seq<nat>>,
    byRefSuffix: map<Key, seq<nat>>)

  ghost predicate AreDictionaries(dicts: Dictionaries, rows: seq<Row>) {
    && IsDictionary(dicts.byName, rows, ByName, |rows|)
    && IsDictionary(dicts.byNameSuffix, rows, ByNameSuffix, |rows|)
    && IsDictionary(dicts.byRefSuffix, rows, ByRefSuffix, |rows|)
  }

  class Catalogue {
    var rows: seq<Row>

    constructor (rows: seq<Row>)
      ensures this.rows == rows
    {
      this.rows := rows;
    }

    /** The dictionary of one index. */
    method BuildIndex(index: Index) returns (dict: map<Key, seq<nat>>)
      ensures IsDictionary(dict, rows, index, |rows|)
    {
      dict := map[];
      for i := 0 to |rows|
        invariant IsDictionary(dict, rows, index, i)
      {
        var key := RowKey(index, rows[i]);
        dict := dict[key := Get(dict, key) + [i]];
      }
    }

    method BuildIndexes() returns (dicts: Dictionaries)
      ensures AreDictionaries(dicts, rows)
    {
      var byName := BuildIndex(ByName);
      var byNameSuffix := BuildIndex(ByNameSuffix);
      var byRefSuffix := BuildIndex(ByRefSuffix);
      dicts := Dictionaries(byName, byNameSuffix, byRefSuffix);
    }

    /** The rows of a price, found through the dictionaries. */
    method FindCandidates(dicts: Dictionaries, p: Price) returns (ids: seq<nat>)
      requires AreDictionaries(dicts, rows)
      ensures ids == Candidates(rows, p)
    {
      ids := Get(dicts.byName, PriceKey(ByName, p));
      if ids == [] {
        ids := Get(dicts.byNameSuffix, PriceKey(ByNameSuffix, p));
      }
      if ids == [] {
        ids := Get(dicts.byRefSuffix, PriceKey(ByRefSuffix, p));
      }
    }

    /** The inner loop over the candidates of a price. */
    method CollectUpdates(ids: seq<nat>, n: Norm) returns (us: seq<Update>)
      requires forall k | 0 <= k < |ids| :: ids[k] < |rows|
      ensures us == UpdatesOf(rows, ids, n)
    {
      us := [];
      for k := 0 to |ids|
        invariant us == UpdatesOf(rows, ids[..k], n)
      {
        assert ids[..k + 1][..k] == ids[..k] && ids[..k + 1][k] == ids[k];
        us := us + [Update(ids[k], ExtraFor(rows[ids[k]], n))];
      }
      assert ids[..|ids|] == ids;
    }

    /** The entry at `i`, resolved. */
    method ReadPrice(q: Request, i: nat) returns (price: Option<Price>)
      requires i < |q.prices|
      ensures price == Prices(q)[i]
    {
      price := Eligible(q, i);
    }

    /** The body of the loop over the price list, for one entry. */
    method PlanPrice(ghost ps: seq<Option<Price>>, ghost i: nat, price: Option<Price>, dicts: Dictionaries,
        before: seq<Update>, statsBefore: Stats)
        returns (updates: seq<Update>, stats: Stats)
      requires i < |ps| && price == ps[i] && AreDictionaries(dicts, rows)
      requires before == AllUpdates(rows, ps, i) && statsBefore == CountStats(rows, ps, i)
      ensures updates == AllUpdates(rows, ps, i + 1) && stats == CountStats(rows, ps, i + 1)
    {
      updates, stats := before, statsBefore;
      if price.Some? {
        var ids := FindCandidates(dicts, price.value);
        var more := CollectUpdates(ids, price.value.norm);
        updates := updates + more;
        stats := Counted(stats, ids, price.value.norm);
      }
    }

    /** The loop over the price list. */
    method PlanUpdates(q: Request, dicts: Dictionaries) returns (updates: seq<Update>, stats: Stats)
      requires AreDictionaries(dicts, rows)
      ensures updates == AllUpdates(rows, Prices(q), |q.prices|) && stats == CountStats(rows, Prices(q), |q.prices|)
    {
      ghost var ps := Prices(q);
      updates, stats := [], Stats(0, 0, 0, 0);
      for i := 0 to |q.prices|
        invariant updates == AllUpdates(rows, ps, i) && stats == CountStats(rows, ps, i)
      {
        var price := ReadPrice(q, i);
        updates, stats := PlanPrice(ps, i, price, dicts, updates, stats);
      }
    }

    method MergePricing(q: Request, dryRun: bool) returns (stats: Stats)
      modifies this
      ensures rows == if dryRun then old(rows) else Merged(old(rows), q)
      ensures stats == CountStats(old(rows), Prices(q), |q.prices|)
    {
      var dicts := BuildIndexes();
      var updates;
      updates, stats := PlanUpdates(q, dicts);
      if !dryRun {
        ApplyUpdates(updates);
      }
    }

    method ApplyUpdates(updates: seq<Update>)
      requires forall k | 0 <= k < |updates| :: updates[k].row < |rows|
      modifies this
      ensures rows == AllApplied(old(rows), updates)
    {
      for k := 0 to |updates|
        invariant rows == Applied(old(rows), updates, k)
      {
        rows := rows[updates[k].row := Write(rows[updates[k].row], updates[k].extra)];
      }
    }
  }

  // ---- The final value of a row, said directly ----

  /** The prices that apply to a row, in order, among the first `n`. */
  function Hits(rows: seq<Row>, ps: seq<Option<Price>>, n: nat, i: nat): seq<Norm>
    requires n <= |ps| && i < |rows|
  {
    if n == 0 then []
    else
      var hits := Hits(rows, ps, n - 1, i);
      match ps[n - 1]
      case None => hits
      case Some(p) => if i in Candidates(rows, p) then hits + [p.norm] else hits
  }

  /** For each column, the last value the prices give. */
  function Latest(hits: seq<Norm>): Norm {
    if hits == [] then Norm(None, None, None, None)
    else
      var n, rest := hits[|hits| - 1], Latest(hits[..|hits| - 1]);
      Norm(Or(n.inputCost, rest.inputCost), Or(n.outputCost, rest.outputCost),
           Or(n.contextWindow, rest.contextWindow), Or(n.maxOutput, rest.maxOutput))
  }

  /** What a row becomes: a missing cost or context window is filled by the last
      price that gives one, a maximal output is replaced by that of the last
      price that gives one, and the last price decides whether the model is
      free. */
  function Final(r: Row, hits: seq<Norm>): Row {
    var last := Latest(hits);
    r.(inputCost := Or(r.inputCost, last.inputCost),
       outputCost := Or(r.outputCost, last.outputCost),
       contextWindow := Or(r.contextWindow, last.contextWindow),
       maxOutput := Or(last.maxOutput, r.maxOutput),
       freeTier := if hits == [] then r.freeTier else IsFree(hits[|hits| - 1]))
  }

  /** Writing the update planned for a row as it was read, after other prices
      have been written, is one more hit. */
  lemma {:induction false} WriteIsHit(r: Row, hits: seq<Norm>, n: Norm)
    ensures Write(Final(r, hits), ExtraFor(r, n)) == Final(r, hits + [n])
  {}

  lemma {:induction false} AppliedPrefix(rows: seq<Row>, us: seq<Update>, more: seq<Update>, n: nat)
    requires forall k | 0 <= k < |us| :: us[k].row < |rows|
    requires forall k | 0 <= k < |more| :: more[k].row < |rows|
    requires n <= |us|
    ensures Applied(rows, us + more, n) == Applied(rows, us, n)
  {
    if n > 0 {
      AppliedPrefix(rows, us, more, n - 1);
    }
  }

  lemma {:induction false} AppliedConcat(rows: seq<Row>, us: seq<Update>, more: seq<Update>, n: nat)
    requires forall k | 0 <= k < |us| :: us[k].row < |rows|
    requires forall k | 0 <= k < |more| :: more[k].row < |rows|
    requires n <= |more|
    ensures Applied(rows, us + more, |us| + n) == Applied(AllApplied(rows, us), more, n)
  {
    if n == 0 {
      AppliedPrefix(rows, us, more, |us|);
    } else {
      AppliedConcat(rows, us, more, n - 1);
    }
  }

  /** The updates of one price, whatever was written since the rows were read. */
  lemma {:induction false} PriceWrites(rows: seq<Row>, now: seq<Row>, ids: seq<nat>, n: Norm, m: nat, i: nat)
    requires |rows| == |now| && i < |rows| && m <= |ids| && forall k | 0 <= k < |ids| :: ids[k] < |rows|
    ensures Applied(now, UpdatesOf(rows, ids, n), m)[i] ==
      if i in ids[..m] then Write(now[i], ExtraFor(rows[i], n)) else now[i]
  {
    if m > 0 {
      PriceWrites(rows, now, ids, n, m - 1, i);
      UpdateOf(rows, ids, n, m - 1);
      assert ids[..m] == ids[..m - 1] + [ids[m - 1]];
    }
  }

  lemma {:induction false} UpdateOf(rows: seq<Row>, ids: seq<nat>, n: Norm, k: nat)
    requires k < |ids| && forall k | 0 <= k < |ids| :: ids[k] < |rows|
    ensures UpdatesOf(rows, ids, n)[k] == Update(ids[k], ExtraFor(rows[ids[k]], n))
  {
    if k < |ids| - 1 {
      UpdateOf(rows, ids[..|ids| - 1], n, k);
    }
  }

  /** The table after each price in turn, every update still planned for the rows
      as they were read. */
  function Replayed(rows: seq<Row>, ps: seq<Option<Price>>, n: nat): (r: seq<Row>)
    requires n <= |ps|
    ensures |r| == |rows|
  {
    if n == 0 then rows
    else if ps[n - 1].None? then Replayed(rows, ps, n - 1)
    else PriceApplied(rows, Replayed(rows, ps, n - 1), ps[n - 1].value)
  }

  function PriceApplied(rows: seq<Row>, now: seq<Row>, p: Price): (r: seq<Row>)
    requires |now| == |rows|
    ensures |r| == |rows|
  {
    AllApplied(now, UpdatesOf(rows, Candidates(rows, p), p.norm))
  }

  lemma {:induction false} OnePriceMore(rows: seq<Row>, us: seq<Update>, p: Price)
    requires forall k | 0 <= k < |us| :: us[k].row < |rows|
    ensures AllApplied(rows, us + UpdatesOf(rows, Candidates(rows, p), p.norm)) ==
      PriceApplied(rows, AllApplied(rows, us), p)
  {
    var more := UpdatesOf(rows, Candidates(rows, p), p.norm);
    AppliedConcat(rows, us, more, |more|);
  }

  /** The updates of the first `n` prices, written in one go, give the same. */
  ghost predicate IsReplay(rows: seq<Row>, ps: seq<Option<Price>>, n: nat)
    requires n <= |ps|
  {
    AllApplied(rows, AllUpdates(rows, ps, n)) == Replayed(rows, ps, n)
  }

  lemma {:induction false} EmptyBatch(rows: seq<Row>, ps: seq<Option<Price>>)
    ensures IsReplay(rows, ps, 0)
  {
    assert AllUpdates(rows, ps, 0) == [];
    assert AllApplied(rows, []) == rows;
  }

  lemma {:induction false} NextBatch(rows: seq<Row>, ps: seq<Option<Price>>, n: nat)
    requires n < |ps| && IsReplay(rows, ps, n)
    ensures IsReplay(rows, ps, n + 1)
  {
    var us := AllUpdates(rows, ps, n);
    if ps[n].Some? {
      OnePriceMore(rows, us, ps[n].value);
    } else {
      assert AllUpdates(rows, ps, n + 1) == us;
    }
  }

  /** Collecting all updates first and writing them later is the same. */
  lemma {:induction false} BatchIsReplay(rows: seq<Row>, ps: seq<Option<Price>>, n: nat)
    requires n <= |ps|
    ensures IsReplay(rows, ps, n)
  {
    if n == 0 {
      EmptyBatch(rows, ps);
    } else {
      BatchIsReplay(rows, ps, n - 1);
      NextBatch(rows, ps, n - 1);
    }
  }

  lemma {:induction false} PriceIsHit(rows: seq<Row>, now: seq<Row>, p: Price, i: nat, hits: seq<Norm>)
    requires i < |rows| == |now| && now[i] == Final(rows[i], hits)
    ensures PriceApplied(rows, now, p)[i] == Final(rows[i], if i in Candidates(rows, p) then hits + [p.norm] else hits)
  {
    var ids := Candidates(rows, p);
    PriceWrites(rows, now, ids, p.norm, |ids|, i);
    assert ids[..|ids|] == ids;
    WriteIsHit(rows[i], hits, p.norm);
  }

  lemma {:induction false} ReplayIsFinal(rows: seq<Row>, ps: seq<Option<Price>>, n: nat, i: nat)
    requires n <= |ps| && i < |rows|
    ensures Replayed(rows, ps, n)[i] == Final(rows[i], Hits(rows, ps, n, i))
  {
    if n > 0 {
      ReplayIsFinal(rows, ps, n - 1, i);
      if ps[n - 1].Some? {
        PriceIsHit(rows, Replayed(rows, ps, n - 1), ps[n - 1].value, i, Hits(rows, ps, n - 1, i));
      }
    }
  }

  /** What a merge makes of every row: the prices that hit it, folded. */
  lemma {:induction false} MergeIsFold(rows: seq<Row>, q: Request, i: nat)
    requires i < |rows|
    ensures Merged(rows, q)[i] == Final(rows[i], Hits(rows, Prices(q), |q.prices|, i))
  {
    BatchIsReplay(rows, Prices(q), |q.prices|);
    ReplayIsFinal(rows, Prices(q), |q.prices|, i);
  }

  /** No cost or context window that is set is ever changed, however many prices
      hit the row. */
  lemma {:induction false} SetFieldsSurvive(rows: seq<Row>, q: Request, i: nat)
    requires i < |rows|
    ensures var r, r' := rows[i], Merged(rows, q)[i];
      && (r.inputCost.Some? ==> r'.inputCost == r.inputCost)
      && (r.outputCost.Some? ==> r'.outputCost == r.outputCost)
      && (r.contextWindow.Some? ==> r'.contextWindow == r.contextWindow)
      && r'.provider == r.provider && r'.modelRef == r.modelRef && r'.name == r.name
  {
    MergeIsFold(rows, q, i);
  }

  // ---- Merging twice ----

  ghost predicate SameNames(rows: seq<Row>, rows': seq<Row>) {
    |rows| == |rows'| && forall i | 0 <= i < |rows| ::
      rows'[i].provider == rows[i].provider && rows'[i].modelRef == rows[i].modelRef && rows'[i].name == rows[i].name
  }

  lemma {:induction false} SameUnder(rows: seq<Row>, rows': seq<Row>, index: Index, key: Key, n: nat)
    requires SameNames(rows, rows') && n <= |rows|
    ensures Under(rows', index, key, n) == Under(rows, index, key, n)
  {
    if n > 0 {
      SameUnder(rows, rows', index, key, n - 1);
    }
  }

  lemma {:induction false} SameCandidates(rows: seq<Row>, rows': seq<Row>, p: Price)
    requires SameNames(rows, rows')
    ensures Candidates(rows', p) == Candidates(rows, p)
  {
    SameUnder(rows, rows', ByName, PriceKey(ByName, p), |rows|);
    SameUnder(rows, rows', ByNameSuffix, PriceKey(ByNameSuffix, p), |rows|);
    SameUnder(rows, rows', ByRefSuffix, PriceKey(ByRefSuffix, p), |rows|);
  }

  lemma {:induction false} SameHits(rows: seq<Row>, rows': seq<Row>, ps: seq<Option<Price>>, n: nat, i: nat)
    requires SameNames(rows, rows') && n <= |ps| && i < |rows|
    ensures Hits(rows', ps, n, i) == Hits(rows, ps, n, i)
  {
    if n > 0 {
      SameHits(rows, rows', ps, n - 1, i);
      var price := ps[n - 1];
      if price.Some? {
        SameCandidates(rows, rows', price.value);
      }
    }
  }

  /** Merging the same price list again leaves the table as it is, and reports
      the same counts. */
  lemma {:induction false} MergeIsIdempotent(rows: seq<Row>, q: Request)
    ensures Merged(Merged(rows, q), q) == Merged(rows, q)
    ensures CountStats(Merged(rows, q), Prices(q), |q.prices|) == CountStats(rows, Prices(q), |q.prices|)
  {
    var rows', ps, n := Merged(rows, q), Prices(q), |q.prices|;
    forall i: nat | i < |rows|
      ensures rows'[i].provider == rows[i].provider
      ensures rows'[i].modelRef == rows[i].modelRef && rows'[i].name == rows[i].name
    {
      SetFieldsSurvive(rows, q, i);
    }
    forall i: nat | i < |rows|
      ensures Merged(rows', q)[i] == rows'[i]
    {
      MergeIsFold(rows, q, i);
      MergeIsFold(rows', q, i);
      SameHits(rows, rows', ps, n, i);
    }
    SameStats(rows, rows', ps, n);
  }

  lemma {:induction false} SameStats(rows: seq<Row>, rows': seq<Row>, ps: seq<Option<Price>>, n: nat)
    requires SameNames(rows, rows') && n <= |ps|
    ensures CountStats(rows', ps, n) == CountStats(rows, ps, n)
  {
    if n > 0 {
      SameStats(rows, rows', ps, n - 1);
      var price := ps[n - 1];
      if price.Some? {
        SameCandidates(rows, rows', price.value);
      }
    }
  }

  // ---- The rows of a price ----

  lemma {:induction false} UnderIsExact(rows: seq<Row>, index: Index, key: Key, n: nat, i: nat)
    requires i < n <= |rows|
    ensures i in Under(rows, index, key, n) <==> RowKey(index, rows[i]) == key
  {
    var ids := Under(rows, index, key, n - 1);
    assert forall k | 0 <= k < |ids| :: ids[k] < n - 1;
    if i < n - 1 {
      UnderIsExact(rows, index, key, n - 1, i);
    }
  }

  /** No row carries the key of a price in an index. */
  ghost predicate NoRow(rows: seq<Row>, index: Index, p: Price) {
    forall i | 0 <= i < |rows| :: RowKey(index, rows[i]) != PriceKey(index, p)
  }

  lemma {:induction false} UnderNothing(rows: seq<Row>, index: Index, p: Price)
    ensures Under(rows, index, PriceKey(index, p), |rows|) == [] <==> NoRow(rows, index, p)
  {
    var ids := Under(rows, index, PriceKey(index, p), |rows|);
    if ids == [] {
      forall i | 0 <= i < |rows|
        ensures RowKey(index, rows[i]) != PriceKey(index, p)
      {
        UnderIsExact(rows, index, PriceKey(index, p), |rows|, i);
      }
    } else {
      UnderIsExact(rows, index, PriceKey(index, p), |rows|, ids[0]);
    }
  }

  /** A price applies to the rows that carry its exact name at its provider; if
      there are none, to those whose name ends alike; and only if there are none
      of those either, to those whose model reference ends alike. */
  lemma {:induction false} CandidatesAreExact(rows: seq<Row>, p: Price, i: nat)
    requires i < |rows|
    ensures var index :=
        if !NoRow(rows, ByName, p) then ByName else if !NoRow(rows, ByNameSuffix, p) then ByNameSuffix else ByRefSuffix;
      i in Candidates(rows, p) <==> RowKey(index, rows[i]) == PriceKey(index, p)
  {
    UnderNothing(rows, ByName, p);
    UnderNothing(rows, ByNameSuffix, p);
    UnderIsExact(rows, ByName, PriceKey(ByName, p), |rows|, i);
    UnderIsExact(rows, ByNameSuffix, PriceKey(ByNameSuffix, p), |rows|, i);
    UnderIsExact(rows, ByRefSuffix, PriceKey(ByRefSuffix, p), |rows|, i);
  }
}
