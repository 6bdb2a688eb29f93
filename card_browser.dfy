/**
 * The card browser's state: the facet selections, the view (cards or
 * stats) and the stat filters, each change written to the browser history
 * as a new location. The inline option and filter computations of the
 * component are the same code as the facet filter module and are modelled
 * by it.
 */
module CardBrowser {
  import opened Wrappers
  import Assoc
  import Strs
  import opened Cards
  import opened CardFilters
  import opened FilterUrl
  import CardStats

  /**
   * The stat filter key a heat-map click names: both tables label their
   * victory row "Victory", which the table's category turns back into the
   * enemy or the location victory stat.
   */
  function StatKeyOf(category: string, stat: string): string
  {
    if stat == "Victory" then (if category == "enemy" then "EnemyVictory" else "LocationVictory") else stat
  }

  /** A click on any row of either table names that row's own stat. */
  lemma StatKeyOfRow(s: Stat)
    ensures s in CardStats.EnemyStats ==> StatOfName(StatKeyOf("enemy", CardStats.RowName(s))) == Some(s)
    ensures s in CardStats.LocationStats ==> StatOfName(StatKeyOf("location", CardStats.RowName(s))) == Some(s)
  {
    StatNameInverse(s);
  }

  /** `filterKey`: the selections and stat filters written out, used to start the card grid afresh. */
  function FilterKey(f: Filters, sf: StatFilters): string
  {
    Strs.Join(FilterKeyParts(f, sf), "|")
  }

  /** The six parts of the key: each facet's values joined by ",", then the stat filters as `stat=value`. */
  function FilterKeyParts(f: Filters, sf: StatFilters): (r: seq<string>)
    ensures |r| == 6
  {
    [JoinValues(f.campaigns), JoinValues(f.scenarios), JoinValues(f.encounters), JoinValues(f.traits), JoinValues(f.types),
     Strs.Join(StatPairs(sf), ",")]
  }

  /** `Object.entries(statFilters).map(([k, v]) => k + "=" + v)`. */
  function StatPairs(sf: StatFilters): (r: seq<string>)
    ensures |r| == |sf| && forall i :: 0 <= i < |sf| ==> r[i] == sf[i].0 + "=" + sf[i].1
  {
    seq(|sf|, i requires 0 <= i < |sf| => sf[i].0 + "=" + sf[i].1)
  }

  /** No "|" in any value: the key splits back into its six parts. */
  lemma FilterKeySplits(f: Filters, sf: StatFilters)
    requires forall i :: 0 <= i < 6 ==> '|' !in FilterKeyParts(f, sf)[i]
    ensures Strs.Split(FilterKey(f, sf), "|") == FilterKeyParts(f, sf)
  {
    Strs.SplitJoin(FilterKeyParts(f, sf), '|');
  }

  /** Option values that can be told apart in the key: non-empty, without "," or "|". */
  predicate KeyValues(sel: seq<FacetOption>)
  {
    forall i :: 0 <= i < |sel| ==> sel[i].value != "" && ',' !in sel[i].value && '|' !in sel[i].value
  }

  /** Stat filters that can be told apart in the key: names without "=", and no "," or "|" anywhere. */
  predicate KeyStats(sf: StatFilters)
  {
    forall i :: 0 <= i < |sf| ==>
      '=' !in sf[i].0 && ',' !in sf[i].0 && '|' !in sf[i].0 && ',' !in sf[i].1 && '|' !in sf[i].1
  }

  /** Filter states whose key can be read back part by part. */
  predicate KeySafe(f: Filters, sf: StatFilters)
  {
    KeyValues(f.campaigns) && KeyValues(f.scenarios) && KeyValues(f.encounters) &&
    KeyValues(f.traits) && KeyValues(f.types) && KeyStats(sf)
  }

  /**
   * The key changes whenever the filters do: two states with the same key
   * select the same values in every facet and have the same stat filters,
   * so the card grid starts afresh on every change.
   */
  lemma FilterKeyInjective(f1: Filters, sf1: StatFilters, f2: Filters, sf2: StatFilters)
    requires KeySafe(f1, sf1) && KeySafe(f2, sf2)
    requires FilterKey(f1, sf1) == FilterKey(f2, sf2)
    ensures Values(f1.campaigns) == Values(f2.campaigns) && Values(f1.scenarios) == Values(f2.scenarios)
    ensures Values(f1.encounters) == Values(f2.encounters) && Values(f1.traits) == Values(f2.traits)
    ensures Values(f1.types) == Values(f2.types)
    ensures sf1 == sf2
  {
    KeyPartsBarFree(f1, sf1);
    KeyPartsBarFree(f2, sf2);
    FilterKeySplits(f1, sf1);
    FilterKeySplits(f2, sf2);
    var p1, p2 := FilterKeyParts(f1, sf1), FilterKeyParts(f2, sf2);
    assert p1 == p2;
    ValuesJoinInjective(f1.campaigns, f2.campaigns);
    ValuesJoinInjective(f1.scenarios, f2.scenarios);
    ValuesJoinInjective(f1.encounters, f2.encounters);
    ValuesJoinInjective(f1.traits, f2.traits);
    ValuesJoinInjective(f1.types, f2.types);
    StatPairsInjective(sf1, sf2);
  }

  /** None of the key's parts holds a "|". */
  lemma KeyPartsBarFree(f: Filters, sf: StatFilters)
    requires KeySafe(f, sf)
    ensures forall i :: 0 <= i < 6 ==> '|' !in FilterKeyParts(f, sf)[i]
  {
    ValuesBarFree(f.campaigns);
    ValuesBarFree(f.scenarios);
    ValuesBarFree(f.encounters);
    ValuesBarFree(f.traits);
    ValuesBarFree(f.types);
    var pairs := StatPairs(sf);
    forall i | 0 <= i < |pairs|
      ensures '|' !in pairs[i]
    {
      assert pairs[i] == sf[i].0 + "=" + sf[i].1;
    }
    Strs.JoinAvoids(pairs, ",", '|');
  }

  /** A facet's joined values hold no "|". */
  lemma ValuesBarFree(sel: seq<FacetOption>)
    requires KeyValues(sel)
    ensures '|' !in JoinValues(sel)
  {
    Strs.JoinAvoids(Values(sel), ",", '|');
  }

  /** Selections whose values join to the same text have the same values. */
  lemma ValuesJoinInjective(a: seq<FacetOption>, b: seq<FacetOption>)
    requires KeyValues(a) && KeyValues(b)
    requires JoinValues(a) == JoinValues(b)
    ensures Values(a) == Values(b)
  {
    JoinInjective(Values(a), Values(b), ',');
  }

  /** Lists of non-empty parts free of `c` that join with `c` to the same text are equal. */
  lemma JoinInjective(a: seq<string>, b: seq<string>, c: char)
    requires forall i :: 0 <= i < |a| ==> a[i] != "" && c !in a[i]
    requires forall i :: 0 <= i < |b| ==> b[i] != "" && c !in b[i]
    requires Strs.Join(a, [c]) == Strs.Join(b, [c])
    ensures a == b
  {
    Strs.JoinEmpty(a, [c]);
    Strs.JoinEmpty(b, [c]);
    if a != [] && b != [] {
      Strs.SplitJoin(a, c);
      Strs.SplitJoin(b, c);
    }
  }

  /** `stat=value` pairs with "="-free names are equal only for equal names and values. */
  lemma PairInjective(k1: string, v1: string, k2: string, v2: string)
    requires '=' !in k1 && '=' !in k2
    requires k1 + "=" + v1 == k2 + "=" + v2
    ensures k1 == k2 && v1 == v2
  {
    var s := k1 + "=" + v1;
    NameEnds(k1, v1);
    NameEnds(k2, v2);
    assert k1 == s[..|k1|] == k2;
    assert v1 == s[|k1| + 1..] == v2;
  }

  /** The position of the first "=" in `s`, or `|s|` when there is none. */
  function FirstEquals(s: string): (r: nat)
    ensures r <= |s|
  {
    if s == [] || s[0] == '=' then 0 else 1 + FirstEquals(s[1..])
  }

  /** In a `name=value` pair with an "="-free name, the first "=" ends the name. */
  lemma {:induction false} NameEnds(k: string, v: string)
    requires '=' !in k
    ensures FirstEquals(k + "=" + v) == |k|
    decreases |k|
  {
    if k != [] {
      assert (k + "=" + v)[1..] == k[1..] + "=" + v;
      NameEnds(k[1..], v);
    }
  }

  /** Stat filters written to the same pairs are the same filters. */
  lemma StatPairsInjective(sf1: StatFilters, sf2: StatFilters)
    requires KeyStats(sf1) && KeyStats(sf2)
    requires Strs.Join(StatPairs(sf1), ",") == Strs.Join(StatPairs(sf2), ",")
    ensures sf1 == sf2
  {
    var p1, p2 := StatPairs(sf1), StatPairs(sf2);
    forall i | 0 <= i < |p1|
      ensures p1[i] != "" && ',' !in p1[i]
    {
      assert p1[i] == sf1[i].0 + "=" + sf1[i].1;
      assert p1[i][|sf1[i].0|] == '=';
    }
    forall i | 0 <= i < |p2|
      ensures p2[i] != "" && ',' !in p2[i]
    {
      assert p2[i] == sf2[i].0 + "=" + sf2[i].1;
      assert p2[i][|sf2[i].0|] == '=';
    }
    assert [','] == ",";
    JoinInjective(p1, p2, ',');
    forall i | 0 <= i < |sf1|
      ensures sf1[i] == sf2[i]
    {
      PairInjective(sf1[i].0, sf1[i].1, sf2[i].0, sf2[i].1);
    }
  }

  class Browser {
    /** The facet selections. */
    var filters: Filters
    /** Cards or stats. */
    var viewMode: ViewMode
    /** The stat filters, by stat name. */
    var statFilters: StatFilters
    /** The locations pushed onto the browser history, oldest first. */
    var pushed: seq<Location>

    const cards: seq<Card>
    const meta: map<string, CardMeta>
    const options: FilterOptions
    /** `window.location.pathname`. */
    const pathname: string

    /** Each stat is filtered on at most once. */
    predicate Valid()
      reads this
    {
      Assoc.DistinctKeys(statFilters)
    }

    /** The initial state is read from the page's query parameters. */
    constructor(cards: seq<Card>, meta: map<string, CardMeta>, options: FilterOptions, search: Params, pathname: string)
      ensures Valid()
      ensures this.cards == cards && this.meta == meta && this.options == options && this.pathname == pathname
      ensures filters == ParseURL(search, options)
      ensures viewMode == ParseViewMode(search)
      ensures statFilters == StatFiltersFrom(search, AllStats)
      ensures pushed == []
    {
      this.cards := cards;
      this.meta := meta;
      this.options := options;
      this.pathname := pathname;
      filters := ParseURL(search, options);
      viewMode := ParseViewMode(search);
      var sf := ParseStatFilters(search);
      StatFiltersFromDistinct(search, AllStats);
      statFilters := sf;
      pushed := [];
    }

    /** `pushURL`: push the location of the current state. */
    method PushURL()
      modifies this
      ensures filters == old(filters) && viewMode == old(viewMode) && statFilters == old(statFilters)
      ensures pushed == old(pushed) + [UrlOf(filters, viewMode, statFilters, pathname)]
    {
      var loc := ToURL(filters, viewMode, statFilters, pathname);
      pushed := pushed + [loc];
    }

    /** `setFilters`: replace the selections and push the new location. */
    method SetFilters(next: Filters)
      modifies this
      ensures filters == next && viewMode == old(viewMode) && statFilters == old(statFilters)
      ensures pushed == old(pushed) + [UrlOf(next, viewMode, statFilters, pathname)]
    {
      filters := next;
      PushURL();
    }

    /** `setViewMode`. */
    method SetViewMode(next: ViewMode)
      modifies this
      ensures viewMode == next && filters == old(filters) && statFilters == old(statFilters)
      ensures pushed == old(pushed) + [UrlOf(filters, next, statFilters, pathname)]
    {
      viewMode := next;
      PushURL();
    }

    /**
     * `handleStatClick`: a click on a heat-map cell filters on that cell's
     * row and column and switches to the cards; clicking the filter already
     * set changes nothing and pushes nothing.
     */
    method HandleStatClick(category: string, stat: string, value: string)
      requires Valid()
      modifies this
      ensures Valid()
      ensures var key := StatKeyOf(category, stat);
        if Assoc.Get(old(statFilters), key) == Some(value) then
          filters == old(filters) && viewMode == old(viewMode) && statFilters == old(statFilters) && pushed == old(pushed)
        else
          && filters == old(filters)
          && statFilters == Assoc.Set(old(statFilters), key, value)
          && viewMode == CardsView
          && pushed == old(pushed) + [UrlOf(filters, CardsView, statFilters, pathname)]
    {
      var key := StatKeyOf(category, stat);
      if Assoc.Get(statFilters, key) == Some(value) {
        return;
      }
      Assoc.SetKeys(statFilters, key, value);
      statFilters := Assoc.Set(statFilters, key, value);
      viewMode := CardsView;
      PushURL();
    }

    /** `clearStatFilter`: drop one stat filter and push the new location. */
    method ClearStatFilter(stat: string)
      requires Valid()
      modifies this
      ensures Valid()
      ensures statFilters == Assoc.Delete(old(statFilters), stat)
      ensures filters == old(filters) && viewMode == old(viewMode)
      ensures pushed == old(pushed) + [UrlOf(filters, viewMode, statFilters, pathname)]
    {
      Assoc.DeleteKeepsDistinct(statFilters, stat);
      statFilters := Assoc.Delete(statFilters, stat);
      PushURL();
    }

    /** The trait selector: the traits are replaced, nothing cascades. */
    method SetTraits(next: seq<FacetOption>)
      modifies this
      ensures filters == old(filters).(traits := next)
      ensures viewMode == old(viewMode) && statFilters == old(statFilters)
      ensures pushed == old(pushed) + [UrlOf(filters, viewMode, statFilters, pathname)]
    {
      SetFilters(filters.(traits := next));
    }

    /** The type selector: the types are replaced, nothing cascades. */
    method SetTypes(next: seq<FacetOption>)
      modifies this
      ensures filters == old(filters).(types := next)
      ensures viewMode == old(viewMode) && statFilters == old(statFilters)
      ensures pushed == old(pushed) + [UrlOf(filters, viewMode, statFilters, pathname)]
    {
      SetFilters(filters.(types := next));
    }

    /** `handleCampaignChange`: the campaign cascade, then push. */
    method HandleCampaignChange(next: seq<FacetOption>)
      modifies this
      ensures filters == CascadeCampaignChange(next, old(filters), options, cards, meta)
      ensures viewMode == old(viewMode) && statFilters == old(statFilters)
      ensures pushed == old(pushed) + [UrlOf(filters, viewMode, statFilters, pathname)]
    {
      SetFilters(CascadeCampaignChange(next, filters, options, cards, meta));
    }

    /** `handleScenarioChange`: the scenario cascade over the scenarios the campaigns offer, then push. */
    method HandleScenarioChange(next: seq<FacetOption>)
      modifies this
      ensures filters == CascadeScenarioChange(next, old(filters), options, ComputeScenarioOptions(old(filters).campaigns, options.scenarios), cards, meta)
      ensures viewMode == old(viewMode) && statFilters == old(statFilters)
      ensures pushed == old(pushed) + [UrlOf(filters, viewMode, statFilters, pathname)]
    {
      var scenarioOptions := ComputeScenarioOptions(filters.campaigns, options.scenarios);
      SetFilters(CascadeScenarioChange(next, filters, options, scenarioOptions, cards, meta));
    }

    /** `handleEncounterChange`: the encounter cascade, then push. */
    method HandleEncounterChange(next: seq<FacetOption>)
      modifies this
      ensures filters == CascadeEncounterChange(next, old(filters), cards, meta)
      ensures viewMode == old(viewMode) && statFilters == old(statFilters)
      ensures pushed == old(pushed) + [UrlOf(filters, viewMode, statFilters, pathname)]
    {
      SetFilters(CascadeEncounterChange(next, filters, cards, meta));
    }

    /** Going back or forward: the state is read again from the new location, nothing is pushed. */
    method PopState(search: Params)
      modifies this
      ensures Valid()
      ensures filters == ParseURL(search, options)
      ensures viewMode == ParseViewMode(search)
      ensures statFilters == StatFiltersFrom(search, AllStats)
      ensures pushed == old(pushed)
    {
      filters := ParseURL(search, options);
      viewMode := ParseViewMode(search);
      var sf := ParseStatFilters(search);
      StatFiltersFromDistinct(search, AllStats);
      statFilters := sf;
    }

    /** `filteredCards`: the facets, then the stat filters. */
    method FilteredCards() returns (result: seq<Card>)
      ensures result == ApplyStats(FacetFiltered(cards, meta, filters), statFilters)
    {
      result := FilterCards(cards, meta, filters, statFilters);
    }
  }

  /**
   * A stat click leaves every other stat filter as it was and sets the
   * clicked one; the location it pushes carries the clicked value back.
   */
  lemma StatClickFilters(sf: StatFilters, f: Filters, pathname: string, category: string, stat: string, value: string, x: string)
    requires Assoc.DistinctKeys(sf)
    ensures var key := StatKeyOf(category, stat);
      var next := Assoc.Set(sf, key, value);
      && Assoc.Get(next, key) == Some(value)
      && (x != key ==> Assoc.Get(next, x) == Assoc.Get(sf, x))
      && (StatOfName(key).Some? ==>
            Assoc.Get(StatFiltersFrom(SearchOf(UrlOf(f, CardsView, next, pathname)), AllStats), key) == Some(value))
  {
    var key := StatKeyOf(category, stat);
    var next := Assoc.Set(sf, key, value);
    Assoc.GetSet(sf, key, value, key);
    Assoc.GetSet(sf, key, value, x);
    Assoc.SetKeys(sf, key, value);
    StatFiltersRoundTrip(f, CardsView, next, pathname, key);
  }

  /** Clearing a stat filter removes that stat only. */
  lemma ClearStatFilterGet(sf: StatFilters, stat: string, x: string)
    ensures Assoc.Get(Assoc.Delete(sf, stat), stat) == None
    ensures x != stat ==> Assoc.Get(Assoc.Delete(sf, stat), x) == Assoc.Get(sf, x)
  {
    Assoc.GetDelete(sf, stat, stat);
    Assoc.GetDelete(sf, stat, x);
  }

  /**
   * The victory cell just clicked shows as active: the table reads the
   * active filters through `remapVictory`, which turns the clicked victory
   * stat back into the row name "Victory".
   */
  lemma ClickedVictoryIsActive(sf: StatFilters, category: string, value: string)
    ensures var key := StatKeyOf(category, "Victory");
      var shown := CardStats.RemapVictory(Some(Assoc.Set(sf, key, value)), key);
      shown.Some? && Assoc.Get(shown.value, "Victory") == Some(value)
  {
    var key := StatKeyOf(category, "Victory");
    var next := Assoc.Set(sf, key, value);
    Assoc.GetSet(sf, key, value, key);
    Assoc.GetSome(next, key);
    CardStats.RemapVictoryGet(Some(next), key, key);
  }
}
