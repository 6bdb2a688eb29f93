/**
 * The query-string codec of the card browser: reading the five facet
 * selections, the view mode and the stat filters from the query
 * parameters, and writing them back.
 *
 * `URLSearchParams` is an ordered list of (name, value) entries; the
 * percent-encoding of its text form is not modelled, so the browser
 * location is either the bare path or a query made of entries.
 */
module FilterUrl {
  import opened Wrappers
  import Seqs
  import Strs
  import Assoc
  import opened CardFilters

  type Params = Assoc.Entries<string, string>

  /** What `toURL` returns: the bare path, or `?` followed by the parameters. */
  datatype Location = Path(pathname: string) | Query(params: Params)

  /** The parameters a location carries (`window.location.search`). */
  function SearchOf(loc: Location): Params
  {
    if loc.Path? then [] else loc.params
  }

  const CampaignKey := "campaign"
  const ScenarioKey := "scenario"
  const EncounterKey := "encounter"
  const TraitKey := "trait"
  const TypeKey := "type"
  const ViewKey := "view"

  /** No stat parameter collides with a facet or view parameter. */
  predicate IsFacetOrViewKey(k: string)
  {
    k in {CampaignKey, ScenarioKey, EncounterKey, TraitKey, TypeKey, ViewKey}
  }

  lemma StatParamsAreNotFacetKeys(s: Stat)
    ensures !IsFacetOrViewKey(ParamName(s))
  {
  }

  // ---------------------------------------------------------------- reading

  /** The comma-separated values of a parameter, as a set. */
  function SplitSet(v: string): (r: set<string>)
    ensures forall x :: x in r <==> x in Strs.Split(v, ",")
  {
    set x | x in Strs.Split(v, ",")
  }

  /** `resolve(key, options)`: the options whose value is listed, in option order; none for an absent or empty parameter. */
  function Resolve(params: Params, key: string, options: seq<FacetOption>): (r: seq<FacetOption>)
    ensures Seqs.IsSubseq(r, options)
    ensures Assoc.Get(params, key) in {None, Some("")} ==> r == []
    ensures Assoc.Get(params, key).Some? && Assoc.Get(params, key).value != "" ==>
      forall o :: o in r <==> o in options && o.value in Strs.Split(Assoc.Get(params, key).value, ",")
  {
    match Assoc.Get(params, key)
    case None => []
    case Some(v) => if v == "" then [] else KeepByValue(options, SplitSet(v))
  }

  function AsOption(s: ScenarioOption): FacetOption
  {
    FacetOption(s.labelText, s.value)
  }

  function AsOptions(ss: seq<ScenarioOption>): (r: seq<FacetOption>)
    ensures |r| == |ss| && forall i :: 0 <= i < |ss| ==> r[i] == AsOption(ss[i])
    decreases |ss|
  {
    if ss == [] then [] else [AsOption(ss[0])] + AsOptions(ss[1..])
  }

  /** Filtering scenarios by value and then dropping their extra fields is filtering the plain options. */
  lemma {:induction false} AsOptionsKeep(ss: seq<ScenarioOption>, vals: set<string>)
    ensures AsOptions(ScenariosWithValue(ss, vals)) == KeepByValue(AsOptions(ss), vals)
    decreases |ss|
  {
    if ss != [] {
      AsOptionsKeep(ss[1..], vals);
      assert AsOptions(ss)[1..] == AsOptions(ss[1..]);
      var rest := ScenariosWithValue(ss[1..], vals);
      if ss[0].value in vals {
        assert AsOptions([ss[0]] + rest) == [AsOption(ss[0])] + AsOptions(rest);
      }
    }
  }

  /** `parseURL`: each facet resolved against its options. */
  function ParseURL(params: Params, options: FilterOptions): Filters
  {
    Filters(
      Resolve(params, CampaignKey, options.campaigns),
      Resolve(params, ScenarioKey, AsOptions(options.scenarios)),
      Resolve(params, EncounterKey, options.encounters),
      Resolve(params, TraitKey, options.traits),
      Resolve(params, TypeKey, options.types))
  }

  /** `parseViewMode`: "stats" only for `view=stats`. */
  function ParseViewMode(params: Params): (r: ViewMode)
    ensures r == StatsView <==> Assoc.Get(params, ViewKey) == Some("stats")
  {
    if Assoc.Get(params, ViewKey) == Some("stats") then StatsView else CardsView
  }

  /** The stat filters read from the parameters of the given stats, in that order. */
  function StatFiltersFrom(params: Params, stats: seq<Stat>): StatFilters
    decreases |stats|
  {
    if stats == [] then []
    else
      var init := StatFiltersFrom(params, stats[..|stats| - 1]);
      var s := stats[|stats| - 1];
      match Assoc.Get(params, ParamName(s))
      case None => init
      case Some(v) => Assoc.Set(init, StatName(s), v)
  }

  /** `parseStatFilters`: a loop over the stat parameters, copying each one present. */
  method ParseStatFilters(params: Params) returns (result: StatFilters)
    ensures result == StatFiltersFrom(params, AllStats)
  {
    result := [];
    var i := 0;
    while i < |AllStats|
      invariant 0 <= i <= |AllStats|
      invariant result == StatFiltersFrom(params, AllStats[..i])
    {
      assert AllStats[..i + 1][..i] == AllStats[..i];
      var s := AllStats[i];
      var val := Assoc.Get(params, ParamName(s));
      if val.Some? {
        result := Assoc.Set(result, StatName(s), val.value);
      }
      i := i + 1;
    }
    assert AllStats[..i] == AllStats;
  }

  /** The stat filters read from the parameters name each stat at most once. */
  lemma {:induction false} StatFiltersFromDistinct(params: Params, stats: seq<Stat>)
    ensures Assoc.DistinctKeys(StatFiltersFrom(params, stats))
    decreases |stats|
  {
    if stats != [] {
      var init := stats[..|stats| - 1];
      var s := stats[|stats| - 1];
      StatFiltersFromDistinct(params, init);
      var v := Assoc.Get(params, ParamName(s));
      if v.Some? {
        Assoc.SetKeys(StatFiltersFrom(params, init), StatName(s), v.value);
      }
    }
  }

  /** A listed stat's filter is its parameter's value. */
  lemma {:induction false} StatFiltersFromGet(params: Params, stats: seq<Stat>, s: Stat)
    ensures Assoc.Get(StatFiltersFrom(params, stats), StatName(s)) ==
      if s in stats then Assoc.Get(params, ParamName(s)) else None
    decreases |stats|
  {
    if stats != [] {
      var init := stats[..|stats| - 1];
      var t := stats[|stats| - 1];
      assert stats == init + [t];
      StatFiltersFromGet(params, init, s);
      StatNameInjective(s, t);
      var v := Assoc.Get(params, ParamName(t));
      if v.Some? {
        Assoc.GetSet(StatFiltersFrom(params, init), StatName(t), v.value, StatName(s));
      }
    }
  }

  /** A name that is no stat's name never gets a filter. */
  lemma {:induction false} StatFiltersFromOther(params: Params, stats: seq<Stat>, name: string)
    requires StatOfName(name).None?
    ensures Assoc.Get(StatFiltersFrom(params, stats), name) == None
    decreases |stats|
  {
    if stats != [] {
      var init := stats[..|stats| - 1];
      var t := stats[|stats| - 1];
      StatFiltersFromOther(params, init, name);
      var v := Assoc.Get(params, ParamName(t));
      if v.Some? {
        Assoc.GetSet(StatFiltersFrom(params, init), StatName(t), v.value, name);
      }
    }
  }

  /** `parseStatFilters` reads, for each stat, exactly its own parameter; no other name appears. */
  lemma ParseStatFiltersGet(params: Params, name: string)
    ensures Assoc.DistinctKeys(StatFiltersFrom(params, AllStats))
    ensures Assoc.Get(StatFiltersFrom(params, AllStats), name) ==
      if StatOfName(name).Some? then Assoc.Get(params, ParamName(StatOfName(name).value)) else None
  {
    StatFiltersFromDistinct(params, AllStats);
    var s := StatOfName(name);
    if s.Some? {
      InAllStats(s.value);
      StatFiltersFromGet(params, AllStats, s.value);
    } else {
      StatFiltersFromOther(params, AllStats, name);
    }
  }

  // ---------------------------------------------------------------- writing

  function Values(sel: seq<FacetOption>): (r: seq<string>)
    ensures |r| == |sel| && forall i :: 0 <= i < |sel| ==> r[i] == sel[i].value
    decreases |sel|
  {
    if sel == [] then [] else [sel[0].value] + Values(sel[1..])
  }

  /** `selected.map(o => o.value).join(",")`. */
  function JoinValues(sel: seq<FacetOption>): string
  {
    Strs.Join(Values(sel), ",")
  }

  /** `params.set(key, value)` when `cond` holds. */
  function SetIf(p: Params, cond: bool, key: string, value: string): Params
  {
    if cond then Assoc.Set(p, key, value) else p
  }

  /** The facet and view parameters `toURL` sets, in its order. */
  function FacetParams(f: Filters, vm: ViewMode): Params
  {
    var p1 := SetIf([], f.campaigns != [], CampaignKey, JoinValues(f.campaigns));
    var p2 := SetIf(p1, f.scenarios != [], ScenarioKey, JoinValues(f.scenarios));
    var p3 := SetIf(p2, f.encounters != [], EncounterKey, JoinValues(f.encounters));
    var p4 := SetIf(p3, f.traits != [], TraitKey, JoinValues(f.traits));
    var p5 := SetIf(p4, f.types != [], TypeKey, JoinValues(f.types));
    SetIf(p5, vm == StatsView, ViewKey, "stats")
  }

  /** The stat parameters set on top of `p`, one per stat-filter entry naming a stat, in entry order. */
  function AddStatParams(p: Params, sf: StatFilters): Params
    decreases |sf|
  {
    if sf == [] then p
    else
      var init := AddStatParams(p, sf[..|sf| - 1]);
      var e := sf[|sf| - 1];
      match StatOfName(e.0)
      case None => init
      case Some(s) => Assoc.Set(init, ParamName(s), e.1)
  }

  /** The location `toURL` computes. */
  function UrlOf(f: Filters, vm: ViewMode, sf: StatFilters, pathname: string): Location
  {
    var params := AddStatParams(FacetParams(f, vm), sf);
    if params == [] then Path(pathname) else Query(params)
  }

  /** `toURL`: the facet and view parameters, then a loop over the stat filters. */
  method ToURL(f: Filters, vm: ViewMode, sf: StatFilters, pathname: string) returns (loc: Location)
    ensures loc == UrlOf(f, vm, sf, pathname)
  {
    var params := FacetParams(f, vm);
    var i := 0;
    while i < |sf|
      invariant 0 <= i <= |sf|
      invariant params == AddStatParams(FacetParams(f, vm), sf[..i])
    {
      assert sf[..i + 1][..i] == sf[..i];
      var (stat, value) := sf[i];
      var s := StatOfName(stat);
      if s.Some? {
        params := Assoc.Set(params, ParamName(s.value), value);
      }
      i := i + 1;
    }
    assert sf[..i] == sf;
    if params == [] {
      loc := Path(pathname);
    } else {
      loc := Query(params);
    }
  }

  lemma SetNonEmpty(p: Params, k: string, v: string)
    ensures Assoc.Set(p, k, v) != []
  {
    Assoc.GetSet(p, k, v, k);
  }

  /** Whatever the stat filters, the parameters are never emptied, and stay empty only without known stats. */
  lemma {:induction false} AddStatParamsEmpty(p: Params, sf: StatFilters)
    ensures AddStatParams(p, sf) == [] <==> p == [] && forall k :: 0 <= k < |sf| ==> StatOfName(sf[k].0).None?
    decreases |sf|
  {
    if sf != [] {
      var init := sf[..|sf| - 1];
      AddStatParamsEmpty(p, init);
      var e := sf[|sf| - 1];
      assert forall k :: 0 <= k < |init| ==> init[k] == sf[k];
      if StatOfName(e.0).Some? {
        SetNonEmpty(AddStatParams(p, init), ParamName(StatOfName(e.0).value), e.1);
      }
    }
  }

  lemma FacetParamsEmpty(f: Filters, vm: ViewMode)
    ensures FacetParams(f, vm) == [] <==> f == NoFilters && vm == CardsView
  {
    var p1 := SetIf([], f.campaigns != [], CampaignKey, JoinValues(f.campaigns));
    var p2 := SetIf(p1, f.scenarios != [], ScenarioKey, JoinValues(f.scenarios));
    var p3 := SetIf(p2, f.encounters != [], EncounterKey, JoinValues(f.encounters));
    var p4 := SetIf(p3, f.traits != [], TraitKey, JoinValues(f.traits));
    var p5 := SetIf(p4, f.types != [], TypeKey, JoinValues(f.types));
    if f.campaigns != [] { SetNonEmpty([], CampaignKey, JoinValues(f.campaigns)); }
    if f.scenarios != [] { SetNonEmpty(p1, ScenarioKey, JoinValues(f.scenarios)); }
    if f.encounters != [] { SetNonEmpty(p2, EncounterKey, JoinValues(f.encounters)); }
    if f.traits != [] { SetNonEmpty(p3, TraitKey, JoinValues(f.traits)); }
    if f.types != [] { SetNonEmpty(p4, TypeKey, JoinValues(f.types)); }
    if vm == StatsView { SetNonEmpty(p5, ViewKey, "stats"); }
  }

  /** `toURL` returns the bare path exactly when no facet, no stats view and no known stat filter is set. */
  lemma ToURLPathIff(f: Filters, vm: ViewMode, sf: StatFilters, pathname: string)
    ensures UrlOf(f, vm, sf, pathname).Path? <==>
      f == NoFilters && vm == CardsView && forall k :: 0 <= k < |sf| ==> StatOfName(sf[k].0).None?
  {
    AddStatParamsEmpty(FacetParams(f, vm), sf);
    FacetParamsEmpty(f, vm);
  }

  /** Whatever the location, its parameters are the ones `toURL` built. */
  lemma SearchOfUrl(f: Filters, vm: ViewMode, sf: StatFilters, pathname: string)
    ensures SearchOf(UrlOf(f, vm, sf, pathname)) == AddStatParams(FacetParams(f, vm), sf)
  {
  }

  /** Stat parameters never hide a facet or view parameter. */
  lemma {:induction false} AddStatParamsOther(p: Params, sf: StatFilters, key: string)
    requires IsFacetOrViewKey(key)
    ensures Assoc.Get(AddStatParams(p, sf), key) == Assoc.Get(p, key)
    decreases |sf|
  {
    if sf != [] {
      var init := sf[..|sf| - 1];
      AddStatParamsOther(p, init, key);
      var e := sf[|sf| - 1];
      if StatOfName(e.0).Some? {
        var s := StatOfName(e.0).value;
        StatParamsAreNotFacetKeys(s);
        Assoc.GetSet(AddStatParams(p, init), ParamName(s), e.1, key);
      }
    }
  }

  lemma GetSetIf(p: Params, cond: bool, key: string, value: string, x: string)
    ensures Assoc.Get(SetIf(p, cond, key, value), x) == if cond && x == key then Some(value) else Assoc.Get(p, x)
  {
    if cond {
      Assoc.GetSet(p, key, value, x);
    }
  }

  /** What each facet and view parameter holds in the parameters `toURL` builds. */
  lemma FacetParamsGet(f: Filters, vm: ViewMode, x: string)
    ensures Assoc.Get(FacetParams(f, vm), x) ==
      if x == CampaignKey then (if f.campaigns != [] then Some(JoinValues(f.campaigns)) else None)
      else if x == ScenarioKey then (if f.scenarios != [] then Some(JoinValues(f.scenarios)) else None)
      else if x == EncounterKey then (if f.encounters != [] then Some(JoinValues(f.encounters)) else None)
      else if x == TraitKey then (if f.traits != [] then Some(JoinValues(f.traits)) else None)
      else if x == TypeKey then (if f.types != [] then Some(JoinValues(f.types)) else None)
      else if x == ViewKey then (if vm == StatsView then Some("stats") else None)
      else None
  {
    var p1 := SetIf([], f.campaigns != [], CampaignKey, JoinValues(f.campaigns));
    var p2 := SetIf(p1, f.scenarios != [], ScenarioKey, JoinValues(f.scenarios));
    var p3 := SetIf(p2, f.encounters != [], EncounterKey, JoinValues(f.encounters));
    var p4 := SetIf(p3, f.traits != [], TraitKey, JoinValues(f.traits));
    var p5 := SetIf(p4, f.types != [], TypeKey, JoinValues(f.types));
    GetSetIf([], f.campaigns != [], CampaignKey, JoinValues(f.campaigns), x);
    GetSetIf(p1, f.scenarios != [], ScenarioKey, JoinValues(f.scenarios), x);
    GetSetIf(p2, f.encounters != [], EncounterKey, JoinValues(f.encounters), x);
    GetSetIf(p3, f.traits != [], TraitKey, JoinValues(f.traits), x);
    GetSetIf(p4, f.types != [], TypeKey, JoinValues(f.types), x);
    GetSetIf(p5, vm == StatsView, ViewKey, "stats", x);
  }

  /** The view mode survives the trip through the location. */
  lemma ViewModeRoundTrip(f: Filters, vm: ViewMode, sf: StatFilters, pathname: string)
    ensures ParseViewMode(SearchOf(UrlOf(f, vm, sf, pathname))) == vm
  {
    AddStatParamsOther(FacetParams(f, vm), sf, ViewKey);
    FacetParamsGet(f, vm, ViewKey);
  }

  // ---------------------------------------------------------------- facet round trip

  /** Option values are distinct within a list. */
  predicate DistinctValues(opts: seq<FacetOption>)
  {
    forall i, j :: 0 <= i < j < |opts| ==> opts[i].value != opts[j].value
  }

  /** A selection that can be written to and read back from the query string. */
  predicate Writable(sel: seq<FacetOption>, opts: seq<FacetOption>)
  {
    Seqs.IsSubseq(sel, opts) && DistinctValues(opts) &&
    forall i :: 0 <= i < |sel| ==> sel[i].value != "" && ',' !in sel[i].value
  }

  /** Filters that agree on the values of every option keep the same options. */
  lemma {:induction false} KeepByValueExt(opts: seq<FacetOption>, s1: set<string>, s2: set<string>)
    requires forall o :: o in opts ==> (o.value in s1 <==> o.value in s2)
    ensures KeepByValue(opts, s1) == KeepByValue(opts, s2)
    decreases |opts|
  {
    if opts != [] {
      assert opts[0] in opts;
      KeepByValueExt(opts[1..], s1, s2);
    }
  }

  lemma DistinctTail(opts: seq<FacetOption>)
    requires DistinctValues(opts) && opts != []
    ensures DistinctValues(opts[1..])
    ensures forall x :: x in opts[1..] ==> x.value != opts[0].value
  {
    var rest := opts[1..];
    forall i, j | 0 <= i < j < |rest| ensures rest[i].value != rest[j].value {
      assert rest[i] == opts[i + 1] && rest[j] == opts[j + 1];
    }
    forall x | x in rest ensures x.value != opts[0].value {
      var j :| 0 <= j < |rest| && rest[j] == x;
      assert opts[j + 1] == x;
    }
  }

  /** Dropping the head of a selection only forgets the head's value. */
  lemma ValueSetTail(sel: seq<FacetOption>, rest: seq<FacetOption>)
    requires sel != [] && forall x :: x in rest ==> x.value != sel[0].value
    ensures forall x :: x in rest ==> (x.value in ValueSet(sel) <==> x.value in ValueSet(sel[1..]))
  {
    forall x | x in rest && x.value in ValueSet(sel)
      ensures x.value in ValueSet(sel[1..])
    {
      var i :| 0 <= i < |sel| && sel[i].value == x.value;
      assert sel[1..][i - 1] == sel[i];
    }
    forall x | x in rest && x.value in ValueSet(sel[1..])
      ensures x.value in ValueSet(sel)
    {
      var i :| 0 <= i < |sel[1..]| && sel[1..][i].value == x.value;
      assert sel[i + 1] == sel[1..][i];
    }
  }

  /** Keeping the options whose value is selected gives back a selection taken in option order. */
  lemma {:induction false} KeepSelected(opts: seq<FacetOption>, sel: seq<FacetOption>)
    requires Seqs.IsSubseq(sel, opts) && DistinctValues(opts)
    ensures KeepByValue(opts, ValueSet(sel)) == sel
    decreases |opts|
  {
    if opts == [] {
    } else if sel == [] {
      assert KeepByValue(opts, ValueSet(sel)) == [];
    } else {
      var o := opts[0];
      var rest := opts[1..];
      DistinctTail(opts);
      if sel[0] == o && Seqs.IsSubseq(sel[1..], rest) {
        KeepSelected(rest, sel[1..]);
        ValueSetTail(sel, rest);
        KeepByValueExt(rest, ValueSet(sel), ValueSet(sel[1..]));
        assert sel == [sel[0]] + sel[1..];
      } else {
        assert Seqs.IsSubseq(sel, rest);
        Seqs.SubseqMembers(sel, rest);
        KeepSelected(rest, sel);
        forall i | 0 <= i < |sel| ensures sel[i].value != o.value {
          assert sel[i] in sel;
        }
      }
    }
  }

  lemma {:induction false} JoinNonEmpty(parts: seq<string>, sep: string)
    requires |parts| > 0 && parts[0] != ""
    ensures Strs.Join(parts, sep) != ""
  {
    if |parts| > 1 {
      assert Strs.Join(parts, sep) == parts[0] + sep + Strs.Join(parts[1..], sep);
      assert |Strs.Join(parts, sep)| >= |parts[0]|;
    }
  }

  /** A written selection reads back as itself. */
  lemma ResolveWritten(sel: seq<FacetOption>, opts: seq<FacetOption>, params: Params, key: string)
    requires Writable(sel, opts)
    requires Assoc.Get(params, key) == if sel != [] then Some(JoinValues(sel)) else None
    ensures Resolve(params, key, opts) == sel
  {
    if sel != [] {
      var vals := Values(sel);
      JoinNonEmpty(vals, ",");
      Strs.SplitJoin(vals, ',');
      assert [','] == ",";
      assert SplitSet(JoinValues(sel)) == ValueSet(sel) by {
        forall x ensures x in SplitSet(JoinValues(sel)) <==> x in ValueSet(sel) {
          if x in ValueSet(sel) {
            var i :| 0 <= i < |sel| && sel[i].value == x;
            assert vals[i] == x;
          }
          if x in vals {
            var i :| 0 <= i < |vals| && vals[i] == x;
            assert sel[i].value == x;
          }
        }
      }
      KeepSelected(opts, sel);
    }
  }

  /** Filters whose every facet is a writable selection of its options. */
  predicate WritableFilters(f: Filters, options: FilterOptions)
  {
    Writable(f.campaigns, options.campaigns) &&
    Writable(f.scenarios, AsOptions(options.scenarios)) &&
    Writable(f.encounters, options.encounters) &&
    Writable(f.traits, options.traits) &&
    Writable(f.types, options.types)
  }

  /** `parseURL(toURL(f))` restores `f` for selections taken from the options in their order. */
  lemma FiltersRoundTrip(f: Filters, vm: ViewMode, sf: StatFilters, pathname: string, options: FilterOptions)
    requires WritableFilters(f, options)
    ensures ParseURL(SearchOf(UrlOf(f, vm, sf, pathname)), options) == f
  {
    var params := SearchOf(UrlOf(f, vm, sf, pathname));
    assert params == AddStatParams(FacetParams(f, vm), sf);
    AddStatParamsOther(FacetParams(f, vm), sf, CampaignKey);
    AddStatParamsOther(FacetParams(f, vm), sf, ScenarioKey);
    AddStatParamsOther(FacetParams(f, vm), sf, EncounterKey);
    AddStatParamsOther(FacetParams(f, vm), sf, TraitKey);
    AddStatParamsOther(FacetParams(f, vm), sf, TypeKey);
    FacetParamsGet(f, vm, CampaignKey);
    FacetParamsGet(f, vm, ScenarioKey);
    FacetParamsGet(f, vm, EncounterKey);
    FacetParamsGet(f, vm, TraitKey);
    FacetParamsGet(f, vm, TypeKey);
    ResolveWritten(f.campaigns, options.campaigns, params, CampaignKey);
    ResolveWritten(f.scenarios, AsOptions(options.scenarios), params, ScenarioKey);
    ResolveWritten(f.encounters, options.encounters, params, EncounterKey);
    ResolveWritten(f.traits, options.traits, params, TraitKey);
    ResolveWritten(f.types, options.types, params, TypeKey);
  }

  // ---------------------------------------------------------------- stat round trip

  lemma DistinctKeysInit(sf: StatFilters)
    requires Assoc.DistinctKeys(sf) && sf != []
    ensures Assoc.DistinctKeys(sf[..|sf| - 1])
    ensures forall x :: Assoc.Get(sf, x) == if x == sf[|sf| - 1].0 then Some(sf[|sf| - 1].1) else Assoc.Get(sf[..|sf| - 1], x)
  {
    var init := sf[..|sf| - 1];
    var e := sf[|sf| - 1];
    assert sf == init + [e];
    assert e.0 !in Assoc.Keys(init) by {
      forall i | 0 <= i < |init| ensures Assoc.Keys(init)[i] != e.0 {
        assert init[i] == sf[i];
      }
    }
    forall x ensures Assoc.Get(sf, x) == if x == e.0 then Some(e.1) else Assoc.Get(init, x) {
      Assoc.GetAppend(init, e.0, e.1, x);
    }
  }

  /** The stat parameter of a stat holds that stat's filter value, when it has one. */
  lemma {:induction false} AddStatParamsGet(p: Params, sf: StatFilters, s: Stat)
    requires Assoc.DistinctKeys(sf)
    ensures Assoc.Get(AddStatParams(p, sf), ParamName(s)) ==
      if Assoc.Get(sf, StatName(s)).Some? then Assoc.Get(sf, StatName(s)) else Assoc.Get(p, ParamName(s))
    decreases |sf|
  {
    if sf != [] {
      var init := sf[..|sf| - 1];
      var e := sf[|sf| - 1];
      DistinctKeysInit(sf);
      AddStatParamsGet(p, init, s);
      if StatOfName(e.0).Some? {
        var t := StatOfName(e.0).value;
        Assoc.GetSet(AddStatParams(p, init), ParamName(t), e.1, ParamName(s));
        StatNameInjective(t, s);
        ParamNameInjective(t, s);
      }
    }
  }

  /** Every stat filter naming a stat survives the trip through the location; nothing else appears. */
  lemma StatFiltersRoundTrip(f: Filters, vm: ViewMode, sf: StatFilters, pathname: string, name: string)
    requires Assoc.DistinctKeys(sf)
    ensures Assoc.Get(StatFiltersFrom(SearchOf(UrlOf(f, vm, sf, pathname)), AllStats), name) ==
      if StatOfName(name).Some? then Assoc.Get(sf, name) else None
  {
    var params := SearchOf(UrlOf(f, vm, sf, pathname));
    ParseStatFiltersGet(params, name);
    if StatOfName(name).Some? {
      var s := StatOfName(name).value;
      AddStatParamsGet(FacetParams(f, vm), sf, s);
      FacetParamsGet(f, vm, ParamName(s));
      StatParamsAreNotFacetKeys(s);
    }
  }
}
