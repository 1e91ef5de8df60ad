/** Merging a duplicate provider of the catalogue into its canonical one. */
module ProviderMerge {
  import opened Wrappers
  import opened Counting

  /** A row of `provider_models`: the link of a provider to a model. */
  datatype Link = Link(
    provider: nat,
    model: int,
    name: string,
    contextWindow: Option<int>,
    maxOutput: Option<int>,
    inputCost: Option<string>,
    outputCost: Option<string>)

  /** Rows are identified by their position; a deleted row is `None`.  Of an
      alias only the canonical reference matters. */
  datatype Catalogue = Catalogue(
    providers: seq<Option<string>>,
    links: seq<Option<Link>>,
    aliases: seq<string>)

  datatype Stats = Stats(moved: nat, merged: nat, repointed: nat, deleted: nat)

  // ---- Queries ----

  function FindProvider(providers: seq<Option<string>>, ref: string): (i: Option<nat>)
    ensures i.Some? ==> i.value < |providers| && providers[i.value] == Some(ref)
    ensures i.None? ==> Some(ref) !in providers
  {
    if providers == [] then None
    else if providers[|providers| - 1] == Some(ref) then Some(|providers| - 1)
    else FindProvider(providers[..|providers| - 1], ref)
  }

  predicate IsLink(row: Option<Link>, provider: nat, model: int) {
    row.Some? && row.value.provider == provider && row.value.model == model
  }

  predicate LinksTo(row: Option<Link>, provider: nat) {
    row.Some? && row.value.provider == provider
  }

  function FindLink(links: seq<Option<Link>>, provider: nat, model: int): (i: Option<nat>)
    ensures i.Some? ==> i.value < |links| && IsLink(links[i.value], provider, model)
    ensures i.None? ==> forall k | 0 <= k < |links| :: !IsLink(links[k], provider, model)
  {
    if links == [] then None
    else if IsLink(links[|links| - 1], provider, model) then Some(|links| - 1)
    else FindLink(links[..|links| - 1], provider, model)
  }

  /** The links of a provider among the first `n` rows, in order. */
  function LinksOf(links: seq<Option<Link>>, provider: nat, n: nat): (ids: seq<nat>)
    requires n <= |links|
    ensures forall k | 0 <= k < |ids| :: ids[k] < n && LinksTo(links[ids[k]], provider)
  {
    if n == 0 then []
    else
      var ids := LinksOf(links, provider, n - 1);
      if LinksTo(links[n - 1], provider) then ids + [n - 1] else ids
  }

  // ---- What the merge computes ----

  /** The additive merge of two links: the non-null fields of `from` win. */
  function Combined(into: Link, from: Link): Link {
    into.(contextWindow := if from.contextWindow.Some? then from.contextWindow else into.contextWindow,
          maxOutput := if from.maxOutput.Some? then from.maxOutput else into.maxOutput,
          inputCost := if from.inputCost.Some? then from.inputCost else into.inputCost,
          outputCost := if from.outputCost.Some? then from.outputCost else into.outputCost)
  }

  /** One iteration of the loop over the duplicate's links. */
  function MergedLink(links: seq<Option<Link>>, i: nat, canon: nat): (r: seq<Option<Link>>)
    requires i < |links|
    ensures |r| == |links|
  {
    if links[i].None? then links
    else
      var link := links[i].value;
      match FindLink(links, canon, link.model)
      case Some(j) => links[j := Some(Combined(links[j].value, link))][i := None]
      case None => links[i := Some(link.(provider := canon))]
  }

  function MergedLinks(links: seq<Option<Link>>, ids: seq<nat>, canon: nat): (r: seq<Option<Link>>)
    requires forall k | 0 <= k < |ids| :: ids[k] < |links|
    ensures |r| == |links|
  {
    if ids == [] then links else MergedLink(MergedLinks(links, ids[..|ids| - 1], canon), ids[|ids| - 1], canon)
  }

  /** How many of the links are merged rather than moved. */
  function MergeCount(links: seq<Option<Link>>, ids: seq<nat>, canon: nat): (n: nat)
    requires forall k | 0 <= k < |ids| :: ids[k] < |links|
    ensures n <= |ids|
  {
    if ids == [] then 0
    else
      var rest, row := MergedLinks(links, ids[..|ids| - 1], canon), ids[|ids| - 1];
      MergeCount(links, ids[..|ids| - 1], canon)
      + if rest[row].Some? && FindLink(rest, canon, rest[row].value.model).Some? then 1 else 0
  }

  function Repointed(aliases: seq<string>, dup: string, canonical: string): (r: seq<string>)
    ensures |r| == |aliases|
    ensures forall i | 0 <= i < |aliases| :: r[i] == if aliases[i] == dup then canonical else aliases[i]
  {
    if aliases == [] then []
    else
      var n := |aliases| - 1;
      Repointed(aliases[..n], dup, canonical) + [if aliases[n] == dup then canonical else aliases[n]]
  }

  /** `merge_duplicate_provider`. */
  function Merged(cat: Catalogue, dup: string, canonical: string): Catalogue {
    var d, c := FindProvider(cat.providers, dup), FindProvider(cat.providers, canonical);
    if d.None? || c.None? then cat
    else
      var links := MergedLinks(cat.links, LinksOf(cat.links, d.value, |cat.links|), c.value);
      Catalogue(
        if LinksOf(links, d.value, |links|) == [] then cat.providers[d.value := None] else cat.providers,
        links,
        Repointed(cat.aliases, dup, canonical))
  }

  /** The same count when nothing is written. */
  function DryMergeCount(links: seq<Option<Link>>, ids: seq<nat>, canon: nat): (n: nat)
    requires forall k | 0 <= k < |ids| :: ids[k] < |links|
    ensures n <= |ids|
  {
    if ids == [] then 0
    else
      var row := links[ids[|ids| - 1]];
      DryMergeCount(links, ids[..|ids| - 1], canon)
      + if row.Some? && FindLink(links, canon, row.value.model).Some? then 1 else 0
  }

  function CountAliases(aliases: seq<string>, ref: string): nat {
    if aliases == [] then 0
    else CountAliases(aliases[..|aliases| - 1], ref) + if aliases[|aliases| - 1] == ref then 1 else 0
  }

  function StatsOf(cat: Catalogue, dup: string, canonical: string, dryRun: bool): Stats {
    var d, c := FindProvider(cat.providers, dup), FindProvider(cat.providers, canonical);
    if d.None? || c.None? then Stats(0, 0, 0, 0)
    else
      var ids := LinksOf(cat.links, d.value, |cat.links|);
      var merged := if dryRun then DryMergeCount(cat.links, ids, c.value) else MergeCount(cat.links, ids, c.value);
      var links := MergedLinks(cat.links, ids, c.value);
      Stats(|ids| - merged, merged, CountAliases(cat.aliases, dup),
            if !dryRun && LinksOf(links, d.value, |links|) == [] then 1 else 0)
  }

  class CatalogueDb {
    var providers: seq<Option<string>>
    var links: seq<Option<Link>>
    var aliases: seq<string>

    ghost function Now(): Catalogue
      reads this
    {
      Catalogue(providers, links, aliases)
    }

    constructor (cat: Catalogue)
      ensures Now() == cat
    {
      providers, links, aliases := cat.providers, cat.links, cat.aliases;
    }

    /** The loop over the duplicate's links. */
    method MergeLinks(ids: seq<nat>, canon: nat, dryRun: bool) returns (merged: nat)
      requires forall k | 0 <= k < |ids| :: ids[k] < |links|
      modifies this`links
      ensures links == if dryRun then old(links) else MergedLinks(old(links), ids, canon)
      ensures merged == if dryRun then DryMergeCount(links, ids, canon) else MergeCount(old(links), ids, canon)
    {
      merged := 0;
      for k := 0 to |ids|
        invariant links == if dryRun then old(links) else MergedLinks(old(links), ids[..k], canon)
        invariant merged ==
          if dryRun then DryMergeCount(links, ids[..k], canon) else MergeCount(old(links), ids[..k], canon)
      {
        assert ids[..k + 1][..k] == ids[..k] && ids[..k + 1][k] == ids[k];
        if links[ids[k]].Some? && FindLink(links, canon, links[ids[k]].value.model).Some? {
          merged := merged + 1;
        }
        if !dryRun {
          links := MergedLink(links, ids[k], canon);
        }
      }
      assert ids[..|ids|] == ids;
    }

    method RepointAliases(dup: string, canonical: string, dryRun: bool) returns (repointed: nat)
      modifies this`aliases
      ensures aliases == if dryRun then old(aliases) else Repointed(old(aliases), dup, canonical)
      ensures repointed == CountAliases(old(aliases), dup)
    {
      repointed := 0;
      var all := aliases;
      for i := 0 to |all|
        invariant |aliases| == |all| && repointed == CountAliases(all[..i], dup)
        invariant forall k | 0 <= k < |all| ::
          aliases[k] == if !dryRun && k < i && all[k] == dup then canonical else all[k]
      {
        assert all[..i + 1][..i] == all[..i];
        if all[i] == dup {
          repointed := repointed + 1;
          if !dryRun {
            aliases := aliases[i := canonical];
          }
        }
      }
      assert all[..|all|] == all;
    }

    method MergeDuplicateProvider(dup: string, canonical: string, dryRun: bool) returns (stats: Stats)
      modifies this
      ensures Now() == if dryRun then old(Now()) else Merged(old(Now()), dup, canonical)
      ensures stats == StatsOf(old(Now()), dup, canonical, dryRun)
    {
      var d, c := FindProvider(providers, dup), FindProvider(providers, canonical);
      if d.None? || c.None? {
        return Stats(0, 0, 0, 0);
      }
      var ids := LinksOf(links, d.value, |links|);
      var merged := MergeLinks(ids, c.value, dryRun);
      var repointed := RepointAliases(dup, canonical, dryRun);
      var remaining := LinksOf(links, d.value, |links|);
      var deleted := 0;
      if remaining == [] && !dryRun {
        providers := providers[d.value := None];
        deleted := 1;
      }
      return Stats(|ids| - merged, merged, repointed, deleted);
    }
  }

  // ---- The tables are keyed ----

  /** UNIQUE(provider_id, model_id). */
  ghost predicate OneLinkPerModel(links: seq<Option<Link>>) {
    forall i, j | 0 <= i < j < |links| && links[i].Some? && links[j].Some? ::
      links[i].value.provider != links[j].value.provider || links[i].value.model != links[j].value.model
  }

  /** The references of providers are unique. */
  ghost predicate OneProviderPerRef(providers: seq<Option<string>>) {
    forall i, j | 0 <= i < j < |providers| && providers[i].Some? && providers[j].Some? :: providers[i] != providers[j]
  }

  // ---- What becomes of each link ----

  /** The row `k` after the first `n` rows have been merged, said directly: a
      link of the duplicate is gone if the canonical provider had one for its
      model and has changed hands if not; a link of the canonical provider is
      combined with its twin; nothing else changes. */
  function RowAfter(links: seq<Option<Link>>, dup: nat, canon: nat, n: nat, k: nat): Option<Link>
    requires n <= |links| && k < |links|
  {
    var row := links[k];
    if row.None? then None
    else if row.value.provider == dup && k < n then
      if FindLink(links, canon, row.value.model).Some? then None else Some(row.value.(provider := canon))
    else if row.value.provider == canon then
      var twin := FindLink(links, dup, row.value.model);
      if twin.Some? && twin.value < n then Some(Combined(row.value, links[twin.value].value)) else row
    else row
  }

  lemma {:induction false} SameLink(links: seq<Option<Link>>, i: nat, j: nat, provider: nat, model: int)
    requires OneLinkPerModel(links) && i < |links| && j < |links|
    requires IsLink(links[i], provider, model) && IsLink(links[j], provider, model)
    ensures i == j
  {}

  /** The link the canonical provider holds for the model of the next row: the
      one it started with. */
  lemma {:induction false} CanonRowIsOld(links: seq<Option<Link>>, dup: nat, canon: nat, n: nat, k: nat)
    requires OneLinkPerModel(links) && dup != canon && n < |links| && k < |links| && LinksTo(links[n], dup)
    requires IsLink(RowAfter(links, dup, canon, n, k), canon, links[n].value.model)
    ensures IsLink(links[k], canon, links[n].value.model)
  {}

  /** Every row is what `RowAfter` says. */
  ghost predicate RowsAre(links: seq<Option<Link>>, links': seq<Option<Link>>, dup: nat, canon: nat, n: nat)
    requires n <= |links|
  {
    |links'| == |links| && forall k | 0 <= k < |links| :: links'[k] == RowAfter(links, dup, canon, n, k)
  }

  lemma {:induction false} NextTwin(links: seq<Option<Link>>, links': seq<Option<Link>>, dup: nat, canon: nat, n: nat)
    requires OneLinkPerModel(links) && dup != canon && n < |links| && LinksTo(links[n], dup)
    requires RowsAre(links, links', dup, canon, n)
    ensures FindLink(links', canon, links[n].value.model) == FindLink(links, canon, links[n].value.model)
  {
    var model := links[n].value.model;
    var j, j' := FindLink(links, canon, model), FindLink(links', canon, model);
    if j.Some? {
      assert IsLink(links'[j.value], canon, model);
    }
    if j'.Some? {
      CanonRowIsOld(links, dup, canon, n, j'.value);
      if j.Some? {
        SameLink(links, j'.value, j.value, canon, model);
      }
    }
  }

  lemma {:induction false} NextRows(links: seq<Option<Link>>, before: seq<Option<Link>>, dup: nat, canon: nat, m: nat)
    requires OneLinkPerModel(links) && dup != canon && m < |links| && LinksTo(links[m], dup)
    requires RowsAre(links, before, dup, canon, m)
    ensures RowsAre(links, MergedLink(before, m, canon), dup, canon, m + 1)
  {
    NextTwin(links, before, dup, canon, m);
    forall k | 0 <= k < |links|
      ensures MergedLink(before, m, canon)[k] == RowAfter(links, dup, canon, m + 1, k)
    {
      NextRow(links, before, dup, canon, m, k);
    }
  }

  lemma {:induction false} SameRows(links: seq<Option<Link>>, before: seq<Option<Link>>, dup: nat, canon: nat, m: nat)
    requires m < |links| && !LinksTo(links[m], dup) && RowsAre(links, before, dup, canon, m)
    ensures RowsAre(links, before, dup, canon, m + 1)
  {
    forall k | 0 <= k < |links|
      ensures RowAfter(links, dup, canon, m + 1, k) == RowAfter(links, dup, canon, m, k)
    {}
  }

  lemma {:induction false} NoRowsYet(links: seq<Option<Link>>, dup: nat, canon: nat)
    ensures RowsAre(links, links, dup, canon, 0)
  {
    forall k | 0 <= k < |links|
      ensures links[k] == RowAfter(links, dup, canon, 0, k)
    {}
  }

  lemma {:induction false} OneMoreLink(links: seq<Option<Link>>, ids: seq<nat>, i: nat, canon: nat)
    requires (forall k | 0 <= k < |ids| :: ids[k] < |links|) && i < |links|
    ensures MergedLinks(links, ids + [i], canon) == MergedLink(MergedLinks(links, ids, canon), i, canon)
  {
    assert (ids + [i])[..|ids|] == ids;
  }

  lemma {:induction false} NextMergedRows(links: seq<Option<Link>>, dup: nat, canon: nat, m: nat)
    requires OneLinkPerModel(links) && dup != canon && m < |links|
    requires RowsAre(links, MergedLinks(links, LinksOf(links, dup, m), canon), dup, canon, m)
    ensures RowsAre(links, MergedLinks(links, LinksOf(links, dup, m + 1), canon), dup, canon, m + 1)
  {
    var ids := LinksOf(links, dup, m);
    if LinksTo(links[m], dup) {
      OneMoreLink(links, ids, m, canon);
      NextRows(links, MergedLinks(links, ids, canon), dup, canon, m);
    } else {
      SameRows(links, MergedLinks(links, ids, canon), dup, canon, m);
    }
  }

  lemma {:induction false} MergedRows(links: seq<Option<Link>>, dup: nat, canon: nat, n: nat)
    requires OneLinkPerModel(links) && dup != canon && n <= |links|
    ensures RowsAre(links, MergedLinks(links, LinksOf(links, dup, n), canon), dup, canon, n)
  {
    if n == 0 {
      NoRowsYet(links, dup, canon);
    } else {
      MergedRows(links, dup, canon, n - 1);
      NextMergedRows(links, dup, canon, n - 1);
    }
  }

  lemma {:induction false} NextRow(
      links: seq<Option<Link>>, before: seq<Option<Link>>, dup: nat, canon: nat, m: nat, k: nat)
    requires OneLinkPerModel(links) && dup != canon && m < |links| == |before| && k < |links| && LinksTo(links[m], dup)
    requires before[k] == RowAfter(links, dup, canon, m, k) && before[m] == RowAfter(links, dup, canon, m, m)
    requires FindLink(before, canon, links[m].value.model) == FindLink(links, canon, links[m].value.model)
    ensures MergedLink(before, m, canon)[k] == RowAfter(links, dup, canon, m + 1, k)
  {}

  // ---- The result of a merge ----

  /** The ids of two providers that exist. */
  ghost predicate Named(cat: Catalogue, dup: string, canonical: string, d: nat, c: nat) {
    && OneLinkPerModel(cat.links) && OneProviderPerRef(cat.providers)
    && FindProvider(cat.providers, dup) == Some(d) && FindProvider(cat.providers, canonical) == Some(c)
  }

  lemma {:induction false} DuplicateIsEmpty(
      links: seq<Option<Link>>, links': seq<Option<Link>>, d: nat, c: nat, model: int)
    requires d != c && RowsAre(links, links', d, c, |links|)
    ensures FindLink(links', d, model).None?
  {
    forall k | 0 <= k < |links|
      ensures !IsLink(links'[k], d, model)
    {}
  }

  lemma {:induction false} KeptLink(links: seq<Option<Link>>, links': seq<Option<Link>>, d: nat, c: nat, model: int)
    requires OneLinkPerModel(links) && d != c && RowsAre(links, links', d, c, |links|)
    requires FindLink(links, c, model).Some?
    ensures var theirs, mine := FindLink(links, d, model), FindLink(links, c, model);
      links'[mine.value] == Some(
        if theirs.None? then links[mine.value].value else Combined(links[mine.value].value, links[theirs.value].value))
  {}

  lemma {:induction false} MovedLink(links: seq<Option<Link>>, links': seq<Option<Link>>, d: nat, c: nat, model: int)
    requires OneLinkPerModel(links) && d != c && RowsAre(links, links', d, c, |links|)
    requires FindLink(links, c, model).None? && FindLink(links, d, model).Some?
    ensures var theirs := FindLink(links, d, model);
      links'[theirs.value] == Some(links[theirs.value].value.(provider := c))
  {}

  /** A link of the canonical provider was its own, or the duplicate's. */
  lemma {:induction false} LinkHadOwner(links: seq<Option<Link>>, links': seq<Option<Link>>, d: nat, c: nat, model: int)
    requires OneLinkPerModel(links) && d != c && RowsAre(links, links', d, c, |links|)
    requires FindLink(links', c, model).Some?
    ensures var theirs, mine, now :=
      FindLink(links, d, model), FindLink(links, c, model), FindLink(links', c, model).value;
      if mine.Some? then now == mine.value else theirs.Some? && now == theirs.value
  {
    var theirs, mine, now := FindLink(links, d, model), FindLink(links, c, model), FindLink(links', c, model).value;
    assert links'[now] == RowAfter(links, d, c, |links|, now);
    if links[now].value.provider == d {
      assert IsLink(links[now], d, model);
      SameLink(links, now, theirs.value, d, model);
    } else {
      assert IsLink(links[now], c, model);
      SameLink(links, now, mine.value, c, model);
    }
  }

  /** Each of the four columns is the duplicate's unless that is null; the rest
      is the canonical provider's own. */
  ghost predicate IsUnion(mine: Link, theirs: Link, merged: Link) {
    && merged.provider == mine.provider && merged.model == mine.model && merged.name == mine.name
    && merged.contextWindow == (if theirs.contextWindow.None? then mine.contextWindow else theirs.contextWindow)
    && merged.maxOutput == (if theirs.maxOutput.None? then mine.maxOutput else theirs.maxOutput)
    && merged.inputCost == (if theirs.inputCost.None? then mine.inputCost else theirs.inputCost)
    && merged.outputCost == (if theirs.outputCost.None? then mine.outputCost else theirs.outputCost)
  }

  /** The same link in other hands. */
  ghost predicate IsMoved(theirs: Link, moved: Link, canon: nat) {
    && moved.provider == canon && moved.model == theirs.model && moved.name == theirs.name
    && moved.contextWindow == theirs.contextWindow && moved.maxOutput == theirs.maxOutput
    && moved.inputCost == theirs.inputCost && moved.outputCost == theirs.outputCost
  }

  /** For every model, the duplicate ends without a link, and the canonical
      provider with one exactly if either had one: its own with the columns the
      duplicate's had, or whichever there was. */
  lemma {:induction false} MergeIsUnion(cat: Catalogue, dup: string, canonical: string, d: nat, c: nat, model: int)
    requires Named(cat, dup, canonical, d, c) && dup != canonical
    ensures var links' := Merged(cat, dup, canonical).links;
      var theirs, mine, now := FindLink(cat.links, d, model), FindLink(cat.links, c, model), FindLink(links', c, model);
      && FindLink(links', d, model).None?
      && (now.Some? <==> mine.Some? || theirs.Some?)
      && (now.Some? ==>
           if mine.None? then IsMoved(cat.links[theirs.value].value, links'[now.value].value, c)
           else if theirs.None? then links'[now.value] == cat.links[mine.value]
           else IsUnion(cat.links[mine.value].value, cat.links[theirs.value].value, links'[now.value].value))
  {
    var links := cat.links;
    var links' := Merged(cat, dup, canonical).links;
    MergedRows(links, d, c, |links|);
    var theirs, mine, now := FindLink(links, d, model), FindLink(links, c, model), FindLink(links', c, model);
    DuplicateIsEmpty(links, links', d, c, model);
    if now.Some? {
      LinkHadOwner(links, links', d, c, model);
    }
    if mine.Some? {
      KeptLink(links, links', d, c, model);
      assert IsLink(links'[mine.value], c, model);
    } else if theirs.Some? {
      MovedLink(links, links', d, c, model);
      assert IsLink(links'[theirs.value], c, model);
    }
  }

  /** Links of other providers stay as they are, and no provider gets a second
      link for a model. */
  lemma {:induction false} MergeKeepsKeys(cat: Catalogue, dup: string, canonical: string, d: nat, c: nat, k: nat)
    requires Named(cat, dup, canonical, d, c) && dup != canonical && k < |cat.links|
    ensures var links' := Merged(cat, dup, canonical).links;
      && OneLinkPerModel(links')
      && (cat.links[k].None? || cat.links[k].value.provider !in {c, d} ==> links'[k] == cat.links[k])
  {
    var links, n := cat.links, |cat.links|;
    var links' := Merged(cat, dup, canonical).links;
    MergedRows(links, d, c, n);
    forall i, j | 0 <= i < j < n && links'[i].Some? && links'[j].Some?
      ensures links'[i].value.provider != links'[j].value.provider || links'[i].value.model != links'[j].value.model
    {
      MovedRow(links, d, c, i, j);
      MovedRow(links, d, c, j, i);
    }
  }

  /** A row that has changed hands did so because the canonical provider had no
      link for its model. */
  lemma {:induction false} MovedRow(links: seq<Option<Link>>, dup: nat, canon: nat, i: nat, j: nat)
    requires OneLinkPerModel(links) && dup != canon && i < |links| && j < |links| && i != j
    ensures var row := RowAfter(links, dup, canon, |links|, i);
      row.Some? ==>
        && row.value.model == links[i].value.model
        && row.value.provider == (if links[i].value.provider == dup then canon else links[i].value.provider)
        && (links[i].value.provider == dup ==> !IsLink(links[j], canon, links[i].value.model))
  {}

  lemma {:induction false} NoLinksLeft(links: seq<Option<Link>>, provider: nat, n: nat)
    requires n <= |links| && forall k | 0 <= k < n :: !LinksTo(links[k], provider)
    ensures LinksOf(links, provider, n) == []
  {
    if n > 0 {
      NoLinksLeft(links, provider, n - 1);
    }
  }

  /** The duplicate is deleted, nothing refers to it any more, and merging again
      changes nothing. */
  lemma {:induction false} MergeIsIdempotent(cat: Catalogue, dup: string, canonical: string, d: nat, c: nat)
    requires Named(cat, dup, canonical, d, c) && dup != canonical
    ensures var cat' := Merged(cat, dup, canonical);
      && cat'.providers == cat.providers[d := None]
      && dup !in cat'.aliases
      && Merged(cat', dup, canonical) == cat'
      && StatsOf(cat', dup, canonical, false) == Stats(0, 0, 0, 0)
  {
    var cat', n := Merged(cat, dup, canonical), |cat.links|;
    MergedRows(cat.links, d, c, n);
    NoLinksLeft(cat'.links, d, n);
    forall i | 0 <= i < |cat'.providers|
      ensures cat'.providers[i] != Some(dup)
    {
      assert i != d ==> cat.providers[i] != cat.providers[d];
    }
  }

  lemma {:induction false} CountAppend(links: seq<Option<Link>>, ids: seq<nat>, i: nat, canon: nat)
    requires (forall k | 0 <= k < |ids| :: ids[k] < |links|) && i < |links|
    ensures var row := links[i];
      DryMergeCount(links, ids + [i], canon)
      == DryMergeCount(links, ids, canon) + if row.Some? && FindLink(links, canon, row.value.model).Some? then 1 else 0
    ensures var row' := MergedLinks(links, ids, canon)[i];
      MergeCount(links, ids + [i], canon)
      == MergeCount(links, ids, canon)
         + if row'.Some? && FindLink(MergedLinks(links, ids, canon), canon, row'.value.model).Some? then 1 else 0
  {}

  lemma {:induction false} DryRunCounts(links: seq<Option<Link>>, dup: nat, canon: nat, n: nat)
    requires OneLinkPerModel(links) && dup != canon && n <= |links|
    ensures var ids := LinksOf(links, dup, n); DryMergeCount(links, ids, canon) == MergeCount(links, ids, canon)
  {
    if n > 0 {
      var m := n - 1;
      DryRunCounts(links, dup, canon, m);
      if LinksTo(links[m], dup) {
        CountAppend(links, LinksOf(links, dup, m), m, canon);
        NextCount(links, dup, canon, m);
      }
    }
  }

  lemma {:induction false} NextCount(links: seq<Option<Link>>, dup: nat, canon: nat, m: nat)
    requires OneLinkPerModel(links) && dup != canon && m < |links| && LinksTo(links[m], dup)
    ensures var before := MergedLinks(links, LinksOf(links, dup, m), canon);
      before[m] == links[m]
      && FindLink(before, canon, links[m].value.model) == FindLink(links, canon, links[m].value.model)
  {
    MergedRows(links, dup, canon, m);
    NextTwin(links, MergedLinks(links, LinksOf(links, dup, m), canon), dup, canon, m);
  }

  /** A dry run announces what the real one does. */
  lemma {:induction false} DryRunIsHonest(cat: Catalogue, dup: string, canonical: string, d: nat, c: nat)
    requires Named(cat, dup, canonical, d, c) && dup != canonical
    ensures StatsOf(cat, dup, canonical, true) == StatsOf(cat, dup, canonical, false).(deleted := 0)
  {
    assert d != c;
    DryRunCounts(cat.links, d, c, |cat.links|);
  }

  // ---- The counters ----

  /** The links of the duplicate for the models of which the canonical provider
      has, or has not, a link. */
  ghost function Shared(links: seq<Option<Link>>, dup: nat, canon: nat, shared: bool): nat -> bool {
    (k: nat) => k < |links| && LinksTo(links[k], dup) && shared == HasLink(links, canon, links[k].value.model)
  }

  ghost predicate HasLink(links: seq<Option<Link>>, provider: nat, model: int) {
    exists k :: 0 <= k < |links| && IsLink(links[k], provider, model)
  }

  ghost function AliasesOf(aliases: seq<string>, ref: string): nat -> bool {
    (i: nat) => i < |aliases| && aliases[i] == ref
  }

  ghost predicate IsTallied(links: seq<Option<Link>>, dup: nat, canon: nat, n: nat)
    requires n <= |links|
  {
    var ids := LinksOf(links, dup, n);
    var both, one := Count(n, Shared(links, dup, canon, true)), Count(n, Shared(links, dup, canon, false));
    DryMergeCount(links, ids, canon) == both && |ids| == both + one
  }

  lemma {:induction false} NextTally(links: seq<Option<Link>>, dup: nat, canon: nat, m: nat)
    requires m < |links| && IsTallied(links, dup, canon, m)
    ensures IsTallied(links, dup, canon, m + 1)
  {
    CountNext(m, Shared(links, dup, canon, true));
    CountNext(m, Shared(links, dup, canon, false));
    if LinksTo(links[m], dup) {
      CountAppend(links, LinksOf(links, dup, m), m, canon);
      assert FindLink(links, canon, links[m].value.model).Some? == HasLink(links, canon, links[m].value.model);
    }
  }

  lemma {:induction false} Tally(links: seq<Option<Link>>, dup: nat, canon: nat, n: nat)
    requires n <= |links|
    ensures IsTallied(links, dup, canon, n)
  {
    if n == 0 {
      CountNone(Shared(links, dup, canon, true));
      CountNone(Shared(links, dup, canon, false));
    } else {
      Tally(links, dup, canon, n - 1);
      NextTally(links, dup, canon, n - 1);
    }
  }

  lemma {:induction false} AliasCount(aliases: seq<string>, ref: string)
    ensures CountAliases(aliases, ref) == Count(|aliases|, AliasesOf(aliases, ref))
  {
    if aliases == [] {
      CountNone(AliasesOf(aliases, ref));
    } else {
      var m := |aliases| - 1;
      AliasCount(aliases[..m], ref);
      CountSame(m, AliasesOf(aliases, ref), AliasesOf(aliases[..m], ref));
      CountNext(m, AliasesOf(aliases, ref));
    }
  }

  /** The counters: the links of the duplicate for models the canonical provider
      has, those for models it has not, the aliases that named the duplicate,
      and the one provider deleted. */
  lemma {:induction false} StatsAreExact(cat: Catalogue, dup: string, canonical: string, d: nat, c: nat)
    requires Named(cat, dup, canonical, d, c) && dup != canonical
    ensures var st, n := StatsOf(cat, dup, canonical, false), |cat.links|;
      && st.merged == Count(n, Shared(cat.links, d, c, true))
      && st.moved == Count(n, Shared(cat.links, d, c, false))
      && st.repointed == Count(|cat.aliases|, AliasesOf(cat.aliases, dup))
      && st.deleted == 1
  {
    var n := |cat.links|;
    Tally(cat.links, d, c, n);
    DryRunCounts(cat.links, d, c, n);
    AliasCount(cat.aliases, dup);
    MergedRows(cat.links, d, c, n);
    NoLinksLeft(Merged(cat, dup, canonical).links, d, n);
  }

  // ---- Merging a provider into itself ----

  /** Of the first `n` rows, the links of `dup` are gone; nothing else changed. */
  ghost predicate SelfRows(links: seq<Option<Link>>, links': seq<Option<Link>>, dup: nat, n: nat) {
    |links'| == |links| && forall k | 0 <= k < |links| ::
      links'[k] == if k < n && LinksTo(links[k], dup) then None else links[k]
  }

  lemma {:induction false} SelfMergedRow(links: seq<Option<Link>>, before: seq<Option<Link>>, dup: nat, m: nat)
    requires OneLinkPerModel(links) && m < |links| && LinksTo(links[m], dup) && SelfRows(links, before, dup, m)
    ensures SelfRows(links, MergedLink(before, m, dup), dup, m + 1)
  {
    var model := links[m].value.model;
    var j := FindLink(before, dup, model);
    assert IsLink(before[m], dup, model);
    SameLink(links, m, j.value, dup, model);
    assert Combined(links[m].value, links[m].value) == links[m].value;
  }

  lemma {:induction false} NextSelfRows(links: seq<Option<Link>>, dup: nat, m: nat)
    requires OneLinkPerModel(links) && m < |links|
    requires SelfRows(links, MergedLinks(links, LinksOf(links, dup, m), dup), dup, m)
    ensures SelfRows(links, MergedLinks(links, LinksOf(links, dup, m + 1), dup), dup, m + 1)
  {
    if LinksTo(links[m], dup) {
      var ids := LinksOf(links, dup, m);
      OneMoreLink(links, ids, m, dup);
      SelfMergedRow(links, MergedLinks(links, ids, dup), dup, m);
    }
  }

  lemma {:induction false} SelfMergedRows(links: seq<Option<Link>>, dup: nat, n: nat)
    requires OneLinkPerModel(links) && n <= |links|
    ensures SelfRows(links, MergedLinks(links, LinksOf(links, dup, n), dup), dup, n)
  {
    if n > 0 {
      SelfMergedRows(links, dup, n - 1);
      NextSelfRows(links, dup, n - 1);
    }
  }

  /** The canonical provider keeps all its models exactly when it is not its own
      duplicate, or has none: merged into itself, it loses them all. */
  lemma {:induction false} SelfMergeDestroys(cat: Catalogue, dup: string, canonical: string, d: nat, c: nat)
    requires Named(cat, dup, canonical, d, c)
    ensures var links' := Merged(cat, dup, canonical).links;
      (forall model :: FindLink(cat.links, c, model).Some? ==> FindLink(links', c, model).Some?)
      <==> dup != canonical || forall model :: FindLink(cat.links, c, model).None?
  {
    var links' := Merged(cat, dup, canonical).links;
    if dup != canonical {
      forall model
        ensures FindLink(cat.links, c, model).Some? ==> FindLink(links', c, model).Some?
      {
        MergeIsUnion(cat, dup, canonical, d, c, model);
      }
    } else {
      SelfMergedRows(cat.links, d, |cat.links|);
      assert forall k | 0 <= k < |links'| :: !LinksTo(links'[k], d);
    }
  }
}
