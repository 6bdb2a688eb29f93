/**
 * The faceted card filter of the card browser: five multi-select facets
 * (campaign, scenario, encounter set, trait, type), the option lists each
 * facet offers given the selections upstream of it, the cascade that prunes
 * downstream selections when an upstream facet changes, and the stat
 * filters set by clicking a heat-map cell.
 *
 * A JavaScript `Set` of option values is a Dafny `set`; a plain object keyed
 * by stat name is an ordered association list (`Assoc.Entries`).
 */
module CardFilters {
  import opened Wrappers
  import Seqs
  import Assoc
  import JsNumbers
  import Strs
  import opened Cards

  datatype ViewMode = CardsView | StatsView

  /** A select option: what is shown and the code it stands for. */
  datatype FacetOption = FacetOption(labelText: string, value: string)

  /** A scenario option also knows its campaign and its encounter sets. */
  datatype ScenarioOption = ScenarioOption(labelText: string, value: string, campaignCode: string, encounterCodes: seq<string>)

  datatype FilterOptions = FilterOptions(
    campaigns: seq<FacetOption>,
    scenarios: seq<ScenarioOption>,
    encounters: seq<FacetOption>,
    traits: seq<FacetOption>,
    types: seq<FacetOption>)

  /** What the page knows about one card beyond the card itself. */
  datatype CardMeta = CardMeta(campaignCodes: seq<string>, scenarioCodes: seq<string>, encounterCode: string, traits: seq<string>)

  /** The five facet selections. */
  datatype Filters = Filters(
    campaigns: seq<FacetOption>,
    scenarios: seq<FacetOption>,
    encounters: seq<FacetOption>,
    traits: seq<FacetOption>,
    types: seq<FacetOption>)

  /** Stat filters: stat name to the chosen cell ("?" or a number), in insertion order. */
  type StatFilters = Assoc.Entries<string, string>

  const NoFilters := Filters([], [], [], [], [])

  // ---------------------------------------------------------------- stats

  datatype Stat = Health | Fight | Evade | Damage | Horror | EnemyVictory | Shroud | Clues | CluesPp | LocationVictory

  /** The stats in the key order of the stat tables. */
  const AllStats: seq<Stat> := [Health, Fight, Evade, Damage, Horror, EnemyVictory, Shroud, Clues, CluesPp, LocationVictory]

  function StatName(s: Stat): string
  {
    match s
    case Health => "Health"
    case Fight => "Fight"
    case Evade => "Evade"
    case Damage => "Damage"
    case Horror => "Horror"
    case EnemyVictory => "EnemyVictory"
    case Shroud => "Shroud"
    case Clues => "Clues"
    case CluesPp => "Clues_pp"
    case LocationVictory => "LocationVictory"
  }

  /** The query parameter a stat is written under. */
  function ParamName(s: Stat): string
  {
    match s
    case Health => "health"
    case Fight => "fight"
    case Evade => "evade"
    case Damage => "damage"
    case Horror => "horror"
    case EnemyVictory => "victory"
    case Shroud => "shroud"
    case Clues => "clues"
    case CluesPp => "clues_pp"
    case LocationVictory => "loc_victory"
  }

  /** Looking a name up in the stat tables; names of no stat are ignored by every caller. */
  function StatOfName(name: string): (r: Option<Stat>)
    ensures r.Some? ==> StatName(r.value) == name
    ensures r.None? ==> forall s :: StatName(s) != name
  {
    if name == "Health" then Some(Health)
    else if name == "Fight" then Some(Fight)
    else if name == "Evade" then Some(Evade)
    else if name == "Damage" then Some(Damage)
    else if name == "Horror" then Some(Horror)
    else if name == "EnemyVictory" then Some(EnemyVictory)
    else if name == "Shroud" then Some(Shroud)
    else if name == "Clues" then Some(Clues)
    else if name == "Clues_pp" then Some(CluesPp)
    else if name == "LocationVictory" then Some(LocationVictory)
    else None
  }

  /** The inverted parameter table. */
  function StatOfParam(param: string): (r: Option<Stat>)
    ensures r.Some? ==> ParamName(r.value) == param
    ensures r.None? ==> forall s :: ParamName(s) != param
  {
    if param == "health" then Some(Health)
    else if param == "fight" then Some(Fight)
    else if param == "evade" then Some(Evade)
    else if param == "damage" then Some(Damage)
    else if param == "horror" then Some(Horror)
    else if param == "victory" then Some(EnemyVictory)
    else if param == "shroud" then Some(Shroud)
    else if param == "clues" then Some(Clues)
    else if param == "clues_pp" then Some(CluesPp)
    else if param == "loc_victory" then Some(LocationVictory)
    else None
  }

  /** Looking up a stat's name gives the stat back. */
  lemma StatNameInverse(s: Stat)
    ensures StatOfName(StatName(s)) == Some(s)
  {
    match s
    case Health =>
    case Fight =>
    case Evade =>
    case Damage =>
    case Horror =>
    case EnemyVictory =>
    case Shroud =>
    case Clues =>
    case CluesPp =>
    case LocationVictory =>
  }

  /** Names identify stats. */
  lemma StatNameInjective(s: Stat, t: Stat)
    ensures StatName(s) == StatName(t) <==> s == t
  {
    StatNameInverse(s);
    StatNameInverse(t);
  }

  /** Looking up a stat's parameter gives the stat back. */
  lemma ParamNameInverse(s: Stat)
    ensures StatOfParam(ParamName(s)) == Some(s)
  {
    match s
    case Health =>
    case Fight =>
    case Evade =>
    case Damage =>
    case Horror =>
    case EnemyVictory =>
    case Shroud =>
    case Clues =>
    case CluesPp =>
    case LocationVictory =>
  }

  /** Parameters identify stats. */
  lemma ParamNameInjective(s: Stat, t: Stat)
    ensures ParamName(s) == ParamName(t) <==> s == t
  {
    ParamNameInverse(s);
    ParamNameInverse(t);
  }

  /** Every stat is listed. */
  lemma InAllStats(s: Stat)
    ensures s in AllStats
  {
    match s
    case Health => assert AllStats[0] == s;
    case Fight => assert AllStats[1] == s;
    case Evade => assert AllStats[2] == s;
    case Damage => assert AllStats[3] == s;
    case Horror => assert AllStats[4] == s;
    case EnemyVictory => assert AllStats[5] == s;
    case Shroud => assert AllStats[6] == s;
    case Clues => assert AllStats[7] == s;
    case CluesPp => assert AllStats[8] == s;
    case LocationVictory => assert AllStats[9] == s;
  }

  /** The card type a stat applies to. */
  function StatTypeCode(s: Stat): string
  {
    if s in {Health, Fight, Evade, Damage, Horror, EnemyVictory} then "enemy" else "location"
  }

  /** The card field a stat reads. */
  function Getter(s: Stat, c: Card): Option<int>
  {
    match s
    case Health => c.health
    case Fight => c.enemyFight
    case Evade => c.enemyEvade
    case Damage => c.enemyDamage
    case Horror => c.enemyHorror
    case EnemyVictory => c.victory
    case Shroud => c.shroud
    case Clues => c.clues
    case CluesPp => c.clues
    case LocationVictory => c.victory
  }

  /** `isVariable`: absent or negative (the dump writes "X" as a negative number). */
  predicate IsVariable(v: Option<int>)
  {
    v.None? || v.value < 0
  }

  /** `isNegative`: present and negative. */
  predicate IsNegative(v: Option<int>)
  {
    v.Some? && v.value < 0
  }

  /** Health that depends on the number of investigators. */
  predicate IsVarHealth(c: Card)
  {
    IsVariable(c.health) || c.healthPerInvestigator == Some(true)
  }

  /** A location whose clue value is fixed (the "Clues" row). */
  predicate FixedClues(c: Card)
  {
    c.cluesFixed == Some(true) || c.clues == Some(0)
  }

  /** A location whose clue value is per investigator (the "Clues_pp" row). */
  predicate PerInvestigatorClues(c: Card)
  {
    !(c.cluesFixed == Some(true)) && c.clues.GetOr(0) > 0
  }

  /** `getter(card) === numVal`, where `NaN` equals nothing. */
  predicate SameNumber(v: Option<int>, n: Option<int>)
  {
    v.Some? && n.Some? && v.value == n.value
  }

  /** Whether one stat filter keeps card `c`. */
  predicate StatKeeps(s: Stat, value: string, c: Card)
  {
    c.typeCode == StatTypeCode(s) &&
    if value == "?" then
      match s
      case Health => IsVarHealth(c)
      case Damage => IsNegative(c.enemyDamage)
      case Horror => IsNegative(c.enemyHorror)
      case _ => IsVariable(Getter(s, c))
    else
      var n := JsNumbers.ParseInt(value);
      match s
      case CluesPp => PerInvestigatorClues(c) && SameNumber(Getter(s, c), n)
      case Clues => FixedClues(c) && SameNumber(Getter(s, c), n)
      case Health => !IsVarHealth(c) && SameNumber(Getter(s, c), n)
      case Damage => n == Some(c.enemyDamage.GetOr(0)) && !IsNegative(c.enemyDamage)
      case Horror => n == Some(c.enemyHorror.GetOr(0)) && !IsNegative(c.enemyHorror)
      case EnemyVictory => n == Some(c.victory.GetOr(0))
      case LocationVictory => n == Some(c.victory.GetOr(0))
      case _ => !IsVariable(Getter(s, c)) && SameNumber(Getter(s, c), n)
  }

  /** `statChipLabel`: the text of the chip showing an active stat filter; it always ends in " = " and the value. */
  function StatChipLabel(stat: string, value: string): (r: string)
    ensures Strs.EndsWith(r, " = " + value)
  {
    var name :=
      if stat == "Clues_pp" then "clues/inv"
      else if stat == "EnemyVictory" then "enemy victory"
      else if stat == "LocationVictory" then "location victory"
      else Strs.ToLowerAscii(stat);
    LabelEndsWithValue(name, value);
    name + " = " + value
  }

  lemma LabelEndsWithValue(name: string, value: string)
    ensures Strs.EndsWith(name + " = " + value, " = " + value)
  {
    assert name + " = " + value == name + (" = " + value);
    Strs.EndsWithConcat(name, " = " + value);
  }

  /** The name a chip shows for each stat of the tables. */
  function ChipName(s: Stat): string
  {
    match s
    case Health => "health"
    case Fight => "fight"
    case Evade => "evade"
    case Damage => "damage"
    case Horror => "horror"
    case EnemyVictory => "enemy victory"
    case Shroud => "shroud"
    case Clues => "clues"
    case CluesPp => "clues/inv"
    case LocationVictory => "location victory"
  }

  /** A name whose characters are those of `s` with its capitals lowered is `s` lower-cased. */
  lemma LowerIs(s: string, t: string)
    requires |s| == |t|
    requires forall i :: 0 <= i < |s| ==> if 'A' <= s[i] <= 'Z' then t[i] as int == s[i] as int + 32 else t[i] == s[i]
    ensures Strs.ToLowerAscii(s) == t
  {
    var r := Strs.ToLowerAscii(s);
    forall i | 0 <= i < |s|
      ensures r[i] == t[i]
    {
      if 'A' <= s[i] <= 'Z' {
        assert r[i] as int == t[i] as int;
      }
    }
  }

  /** The stats whose chip shows a name of its own rather than the lower-cased stat name. */
  predicate SpecialChip(s: Stat)
  {
    s == CluesPp || s == EnemyVictory || s == LocationVictory
  }

  lemma ChipLabelLowered(stat: string, value: string)
    requires stat != "Clues_pp" && stat != "EnemyVictory" && stat != "LocationVictory"
    ensures StatChipLabel(stat, value) == Strs.ToLowerAscii(stat) + " = " + value
  {
  }

  lemma LoweredStatName(s: Stat)
    requires !SpecialChip(s)
    ensures Strs.ToLowerAscii(StatName(s)) == ChipName(s)
  {
    match s
    case Health => LowerIs("Health", "health");
    case Fight => LowerIs("Fight", "fight");
    case Evade => LowerIs("Evade", "evade");
    case Damage => LowerIs("Damage", "damage");
    case Horror => LowerIs("Horror", "horror");
    case Shroud => LowerIs("Shroud", "shroud");
    case Clues => LowerIs("Clues", "clues");
  }

  lemma ChipLabelOfStat(s: Stat, value: string)
    ensures StatChipLabel(StatName(s), value) == ChipName(s) + " = " + value
  {
    if !SpecialChip(s) {
      ChipLabelLowered(StatName(s), value);
      LoweredStatName(s);
    }
  }

  /** The stat a chip name stands for. */
  function ChipStat(name: string): Option<Stat>
  {
    if name == "health" then Some(Health)
    else if name == "fight" then Some(Fight)
    else if name == "evade" then Some(Evade)
    else if name == "damage" then Some(Damage)
    else if name == "horror" then Some(Horror)
    else if name == "enemy victory" then Some(EnemyVictory)
    else if name == "shroud" then Some(Shroud)
    else if name == "clues" then Some(Clues)
    else if name == "clues/inv" then Some(CluesPp)
    else if name == "location victory" then Some(LocationVictory)
    else None
  }

  lemma ChipNameInverse(s: Stat)
    ensures ChipStat(ChipName(s)) == Some(s)
  {
    match s
    case Health =>
    case Fight =>
    case Evade =>
    case Damage =>
    case Horror =>
    case EnemyVictory =>
    case Shroud =>
    case Clues =>
    case CluesPp =>
    case LocationVictory =>
  }

  /** For the same value, the chips of two different stats never read the same. */
  lemma ChipLabelInjective(a: Stat, b: Stat, value: string)
    requires StatChipLabel(StatName(a), value) == StatChipLabel(StatName(b), value)
    ensures a == b
  {
    ChipLabelOfStat(a, value);
    ChipLabelOfStat(b, value);
    LabelCancel(ChipName(a), ChipName(b), value);
    ChipNameInverse(a);
    ChipNameInverse(b);
  }

  lemma LabelCancel(p: string, q: string, value: string)
    requires p + " = " + value == q + " = " + value
    ensures p == q
  {
    assert |p| == |q|;
    assert (p + " = " + value)[..|p|] == p;
    assert (q + " = " + value)[..|q|] == q;
  }


  // ---------------------------------------------------------------- option values

  /** `new Set(selection.map(o => o.value))`. */
  function ValueSet(sel: seq<FacetOption>): (r: set<string>)
    ensures forall i :: 0 <= i < |sel| ==> sel[i].value in r
    ensures forall v :: v in r ==> exists i :: 0 <= i < |sel| && sel[i].value == v
    ensures r == {} <==> sel == []
  {
    var r := set o | o in sel :: o.value;
    assert sel != [] ==> sel[0].value in r;
    r
  }

  /** `options.filter(o => vals.has(o.value))`. */
  function KeepByValue(opts: seq<FacetOption>, vals: set<string>): (r: seq<FacetOption>)
    ensures Seqs.IsSubseq(r, opts)
    ensures forall o :: o in r <==> o in opts && o.value in vals
    decreases |opts|
  {
    if opts == [] then []
    else
      var rest := KeepByValue(opts[1..], vals);
      if opts[0].value in vals then [opts[0]] + rest else rest
  }

  /** Scenario options whose value is among `vals`. */
  function ScenariosWithValue(opts: seq<ScenarioOption>, vals: set<string>): (r: seq<ScenarioOption>)
    ensures Seqs.IsSubseq(r, opts)
    ensures forall o :: o in r <==> o in opts && o.value in vals
    decreases |opts|
  {
    if opts == [] then []
    else
      var rest := ScenariosWithValue(opts[1..], vals);
      if opts[0].value in vals then [opts[0]] + rest else rest
  }

  /** Scenario options whose campaign is among `codes`. */
  function ScenariosOfCampaigns(opts: seq<ScenarioOption>, codes: set<string>): (r: seq<ScenarioOption>)
    ensures Seqs.IsSubseq(r, opts)
    ensures forall o :: o in r <==> o in opts && o.campaignCode in codes
    decreases |opts|
  {
    if opts == [] then []
    else
      var rest := ScenariosOfCampaigns(opts[1..], codes);
      if opts[0].campaignCode in codes then [opts[0]] + rest else rest
  }

  /** `opts.find(o => o.value === v)`: the first option with that value. */
  function FindScenario(opts: seq<ScenarioOption>, v: string): (r: Option<ScenarioOption>)
    ensures r.Some? ==> r.value in opts && r.value.value == v
    ensures r.None? ==> forall o :: o in opts ==> o.value != v
    decreases |opts|
  {
    if opts == [] then None
    else if opts[0].value == v then Some(opts[0])
    else FindScenario(opts[1..], v)
  }

  /** Some element of `vals` is in `sel` (`vals.some(v => sel.has(v))`). */
  predicate MeetsAny(vals: seq<string>, sel: set<string>)
  {
    exists v :: v in vals && v in sel
  }

  // ---------------------------------------------------------------- facet scope

  /**
   * The campaign / scenario / encounter test shared by the filter, the trait
   * and type options and trait pruning: each non-empty selection must be met.
   */
  predicate InScope(m: CardMeta, cv: set<string>, sv: set<string>, ev: set<string>)
  {
    (cv == {} || MeetsAny(m.campaignCodes, cv)) &&
    (sv == {} || MeetsAny(m.scenarioCodes, sv)) &&
    (ev == {} || m.encounterCode in ev)
  }

  /** A card with meta data inside the scope. */
  predicate CardInScope(c: Card, meta: map<string, CardMeta>, cv: set<string>, sv: set<string>, ev: set<string>)
  {
    c.code in meta && InScope(meta[c.code], cv, sv, ev)
  }

  /** Whether a card passes the five facets (OR within a facet, AND across them). */
  predicate PassesFacets(c: Card, meta: map<string, CardMeta>, f: Filters)
  {
    Truthy(c.encounterCode) &&
    CardInScope(c, meta, ValueSet(f.campaigns), ValueSet(f.scenarios), ValueSet(f.encounters)) &&
    (f.traits == [] || MeetsAny(meta[c.code].traits, ValueSet(f.traits))) &&
    (f.types == [] || c.typeCode in ValueSet(f.types))
  }

  /** The first step of `filterCards`: the cards passing the facets, in order. */
  function FacetFiltered(cards: seq<Card>, meta: map<string, CardMeta>, f: Filters): (r: seq<Card>)
    ensures Seqs.IsSubseq(r, cards)
    ensures forall c :: c in r <==> c in cards && PassesFacets(c, meta, f)
    decreases |cards|
  {
    if cards == [] then []
    else
      var rest := FacetFiltered(cards[1..], meta, f);
      if PassesFacets(cards[0], meta, f) then [cards[0]] + rest else rest
  }

  /** The cards one stat filter keeps, in order. */
  function KeepStat(cards: seq<Card>, s: Stat, value: string): (r: seq<Card>)
    ensures Seqs.IsSubseq(r, cards)
    ensures forall c :: c in r <==> c in cards && StatKeeps(s, value, c)
    decreases |cards|
  {
    if cards == [] then []
    else
      var rest := KeepStat(cards[1..], s, value);
      if StatKeeps(s, value, cards[0]) then [cards[0]] + rest else rest
  }

  /** Applying one stat-filter entry: an entry naming no stat is skipped. */
  function ApplyEntry(cards: seq<Card>, e: (string, string)): seq<Card>
  {
    match StatOfName(e.0)
    case None => cards
    case Some(s) => KeepStat(cards, s, e.1)
  }

  /** Applying the stat-filter entries in order. */
  function ApplyStats(cards: seq<Card>, sf: StatFilters): seq<Card>
    decreases |sf|
  {
    if sf == [] then cards else ApplyStats(ApplyEntry(cards, sf[0]), sf[1..])
  }

  /** A card passes every entry of the stat filters that names a stat. */
  predicate PassesStats(c: Card, sf: StatFilters)
  {
    forall k :: 0 <= k < |sf| && StatOfName(sf[k].0).Some? ==> StatKeeps(StatOfName(sf[k].0).value, sf[k].1, c)
  }

  /** The stat filters keep, in order, exactly the cards passing every known stat entry. */
  lemma {:induction false} ApplyStatsSpec(cards: seq<Card>, sf: StatFilters)
    ensures Seqs.IsSubseq(ApplyStats(cards, sf), cards)
    ensures forall c :: c in ApplyStats(cards, sf) <==> c in cards && PassesStats(c, sf)
    decreases |sf|
  {
    if sf == [] {
      assert ApplyStats(cards, sf) == cards;
      Seqs.SubseqRefl(cards);
    } else {
      var once := ApplyEntry(cards, sf[0]);
      ApplyStatsSpec(once, sf[1..]);
      if StatOfName(sf[0].0).None? {
        Seqs.SubseqRefl(cards);
      }
      Seqs.SubseqTrans(ApplyStats(cards, sf), once, cards);
      forall c
        ensures c in ApplyStats(cards, sf) <==> c in cards && PassesStats(c, sf)
      {
        if c in cards && PassesStats(c, sf) {
          assert forall k :: 0 <= k < |sf| - 1 ==> sf[1..][k] == sf[k + 1];
          assert PassesStats(c, sf[1..]);
        }
        if c in ApplyStats(cards, sf) {
          assert c in once && PassesStats(c, sf[1..]);
          forall k | 0 <= k < |sf| && StatOfName(sf[k].0).Some?
            ensures StatKeeps(StatOfName(sf[k].0).value, sf[k].1, c)
          {
            if k > 0 {
              assert sf[1..][k - 1] == sf[k];
            }
          }
        }
      }
    }
  }

  /**
   * `filterCards`: the facets first, then the stat filters one entry at a
   * time, each narrowing the previous result.
   */
  method FilterCards(cards: seq<Card>, meta: map<string, CardMeta>, f: Filters, sf: StatFilters) returns (result: seq<Card>)
    ensures result == ApplyStats(FacetFiltered(cards, meta, f), sf)
  {
    result := FacetFiltered(cards, meta, f);
    var i := 0;
    while i < |sf|
      invariant 0 <= i <= |sf|
      invariant ApplyStats(result, sf[i..]) == ApplyStats(FacetFiltered(cards, meta, f), sf)
    {
      assert sf[i..][1..] == sf[i + 1..];
      var (stat, value) := sf[i];
      var s := StatOfName(stat);
      if s.Some? {
        result := KeepStat(result, s.value, value);
      }
      i := i + 1;
    }
  }

  /**
   * What `filterCards` returns: a subsequence of the cards, keeping exactly
   * those that pass the facets and every stat filter naming a stat.
   */
  lemma FilterCardsSpec(cards: seq<Card>, meta: map<string, CardMeta>, f: Filters, sf: StatFilters)
    ensures Seqs.IsSubseq(ApplyStats(FacetFiltered(cards, meta, f), sf), cards)
    ensures forall c :: c in ApplyStats(FacetFiltered(cards, meta, f), sf) <==>
      c in cards && PassesFacets(c, meta, f) && PassesStats(c, sf)
  {
    var ff := FacetFiltered(cards, meta, f);
    ApplyStatsSpec(ff, sf);
    Seqs.SubseqTrans(ApplyStats(ff, sf), ff, cards);
  }

  /** Every kept card has a truthy encounter code and meta data. */
  lemma FilteredCardsHaveMeta(cards: seq<Card>, meta: map<string, CardMeta>, f: Filters, sf: StatFilters, c: Card)
    requires c in ApplyStats(FacetFiltered(cards, meta, f), sf)
    ensures Truthy(c.encounterCode) && c.code in meta
  {
    FilterCardsSpec(cards, meta, f, sf);
  }

  /** With nothing selected, exactly the cards with an encounter code and meta data remain. */
  lemma NoFiltersKeepsCatalogue(cards: seq<Card>, meta: map<string, CardMeta>)
    ensures forall c :: c in ApplyStats(FacetFiltered(cards, meta, NoFilters), []) <==>
      c in cards && Truthy(c.encounterCode) && c.code in meta
  {
  }

  /** A stat filter keeps only cards of the stat's card type. */
  lemma StatFilterType(s: Stat, value: string, c: Card)
    requires StatKeeps(s, value, c)
    ensures c.typeCode == (if s in {Shroud, Clues, CluesPp, LocationVictory} then "location" else "enemy")
  {
  }

  /**
   * Except for the victory and clue stats, a card kept by "?" is kept by no
   * number: the variable cell and the numbered cells of one stat are
   * disjoint.
   */
  lemma QuestionExcludesNumbers(s: Stat, value: string, c: Card)
    requires s in {Health, Fight, Evade, Damage, Horror, Shroud}
    requires value != "?"
    requires StatKeeps(s, "?", c)
    ensures !StatKeeps(s, value, c)
  {
  }

  /**
   * An enemy without a victory value is kept both by "?" and by 0 for
   * EnemyVictory, because "?" tests `isVariable` while a number compares
   * `victory ?? 0`.
   */
  lemma VictoryQuestionOverlapsZero(c: Card)
    requires c.typeCode == "enemy" && c.victory.None?
    ensures StatKeeps(EnemyVictory, "?", c) && StatKeeps(EnemyVictory, "0", c)
  {
    JsNumbers.ParseDecimal(0);
    assert JsNumbers.DecimalString(0) == "0";
  }

  // ---------------------------------------------------------------- option lists

  /** `computeScenarioOptions`: the scenarios of the selected campaigns, or all of them. */
  function ComputeScenarioOptions(selectedCampaigns: seq<FacetOption>, allScenarios: seq<ScenarioOption>): (r: seq<ScenarioOption>)
    ensures Seqs.IsSubseq(r, allScenarios)
    ensures selectedCampaigns == [] ==> r == allScenarios
    ensures selectedCampaigns != [] ==>
      forall o :: o in r <==> o in allScenarios && o.campaignCode in ValueSet(selectedCampaigns)
  {
    if selectedCampaigns == [] then
      Seqs.SubseqRefl(allScenarios);
      allScenarios
    else ScenariosOfCampaigns(allScenarios, ValueSet(selectedCampaigns))
  }

  /**
   * The scenarios whose encounter sets are on offer: the selected ones, else
   * those of the selected campaigns, else no restriction (`None`).
   */
  function ActiveScenarios(
    selectedScenarios: seq<FacetOption>, selectedCampaigns: seq<FacetOption>,
    allScenarios: seq<ScenarioOption>, scenarioOptions: seq<ScenarioOption>): (r: Option<seq<ScenarioOption>>)
    ensures r.None? <==> selectedScenarios == [] && selectedCampaigns == []
    ensures selectedScenarios != [] ==> r == Some(ScenariosWithValue(allScenarios, ValueSet(selectedScenarios)))
    ensures selectedScenarios == [] && selectedCampaigns != [] ==> r == Some(scenarioOptions)
  {
    if selectedScenarios != [] then Some(ScenariosWithValue(allScenarios, ValueSet(selectedScenarios)))
    else if selectedCampaigns != [] then Some(scenarioOptions)
    else None
  }

  /** The union of the encounter codes of some scenarios. */
  function EncounterCodesOf(active: seq<ScenarioOption>): (r: set<string>)
    ensures forall i, j :: 0 <= i < |active| && 0 <= j < |active[i].encounterCodes| ==> active[i].encounterCodes[j] in r
    ensures forall ec :: ec in r ==> exists i :: 0 <= i < |active| && ec in active[i].encounterCodes
    decreases |active|
  {
    if active == [] then {}
    else
      var init := active[..|active| - 1];
      var rest := EncounterCodesOf(init);
      assert forall i :: 0 <= i < |init| ==> init[i] == active[i];
      var last := active[|active| - 1].encounterCodes;
      rest + set ec | ec in last
  }

  /** The codes of a list, as a set. */
  function CodeSet(codes: seq<string>): set<string>
  {
    set ec | ec in codes
  }

  lemma CodeSetSnoc(codes: seq<string>, j: int)
    requires 0 <= j < |codes|
    ensures CodeSet(codes[..j + 1]) == CodeSet(codes[..j]) + {codes[j]}
  {
    assert codes[..j + 1] == codes[..j] + [codes[j]];
  }

  lemma EncounterCodesOfSnoc(active: seq<ScenarioOption>, i: int)
    requires 0 <= i < |active|
    ensures EncounterCodesOf(active[..i + 1]) == EncounterCodesOf(active[..i]) + CodeSet(active[i].encounterCodes)
  {
    assert active[..i + 1][..i] == active[..i];
  }

  /** `computeValidEncounterCodes`: a loop adding every encounter code of the active scenarios. */
  method ComputeValidEncounterCodes(
    selectedScenarios: seq<FacetOption>, selectedCampaigns: seq<FacetOption>,
    allScenarios: seq<ScenarioOption>, scenarioOptions: seq<ScenarioOption>) returns (r: Option<set<string>>)
    ensures r.None? <==> selectedScenarios == [] && selectedCampaigns == []
    ensures r.Some? ==> r.value == EncounterCodesOf(ActiveScenarios(selectedScenarios, selectedCampaigns, allScenarios, scenarioOptions).value)
  {
    var active := ActiveScenarios(selectedScenarios, selectedCampaigns, allScenarios, scenarioOptions);
    if active.None? {
      return None;
    }
    var codes: set<string> := {};
    var i := 0;
    while i < |active.value|
      invariant 0 <= i <= |active.value|
      invariant codes == EncounterCodesOf(active.value[..i])
    {
      var s := active.value[i];
      EncounterCodesOfSnoc(active.value, i);
      var j := 0;
      ghost var before := codes;
      while j < |s.encounterCodes|
        invariant 0 <= j <= |s.encounterCodes|
        invariant codes == before + CodeSet(s.encounterCodes[..j])
      {
        CodeSetSnoc(s.encounterCodes, j);
        codes := codes + {s.encounterCodes[j]};
        j := j + 1;
      }
      assert s.encounterCodes[..j] == s.encounterCodes;
      i := i + 1;
    }
    assert active.value[..i] == active.value;
    return Some(codes);
  }

  /** `computeEncounterOptions`: the encounter options, restricted to the valid codes when there are any. */
  function ComputeEncounterOptions(valid: Option<set<string>>, allEncounters: seq<FacetOption>): (r: seq<FacetOption>)
    ensures Seqs.IsSubseq(r, allEncounters)
    ensures valid.None? ==> r == allEncounters
    ensures valid.Some? ==> forall o :: o in r <==> o in allEncounters && o.value in valid.value
  {
    if valid.None? then
      Seqs.SubseqRefl(allEncounters);
      allEncounters
    else KeepByValue(allEncounters, valid.value)
  }

  /** A card contributes its traits when it has meta data and lies in scope. */
  predicate ContributesTrait(c: Card, meta: map<string, CardMeta>, cv: set<string>, sv: set<string>, ev: set<string>, t: string)
  {
    CardInScope(c, meta, cv, sv, ev) && t in meta[c.code].traits
  }

  /** The traits of a trait list, as a set. */
  function TraitSet(ts: seq<string>): set<string>
  {
    set t | t in ts
  }

  /** The traits of the cards in scope. */
  function AvailableTraits(cards: seq<Card>, meta: map<string, CardMeta>, cv: set<string>, sv: set<string>, ev: set<string>): (r: set<string>)
    ensures forall t :: t in r <==> exists i :: 0 <= i < |cards| && ContributesTrait(cards[i], meta, cv, sv, ev, t)
    decreases |cards|
  {
    if cards == [] then {}
    else
      var init := cards[..|cards| - 1];
      var rest := AvailableTraits(init, meta, cv, sv, ev);
      var c := cards[|cards| - 1];
      assert forall i :: 0 <= i < |init| ==> init[i] == cards[i];
      if CardInScope(c, meta, cv, sv, ev) then rest + TraitSet(meta[c.code].traits) else rest
  }

  lemma AvailableTraitsSnoc(cards: seq<Card>, i: int, meta: map<string, CardMeta>, cv: set<string>, sv: set<string>, ev: set<string>)
    requires 0 <= i < |cards|
    ensures AvailableTraits(cards[..i + 1], meta, cv, sv, ev) ==
      AvailableTraits(cards[..i], meta, cv, sv, ev) + if CardInScope(cards[i], meta, cv, sv, ev) then TraitSet(meta[cards[i].code].traits) else {}
  {
    assert cards[..i + 1][..i] == cards[..i];
  }

  lemma TraitsPrefixSnoc(ts: seq<string>, j: int)
    requires 0 <= j < |ts|
    ensures TraitSet(ts[..j + 1]) == TraitSet(ts[..j]) + {ts[j]}
  {
    assert ts[..j + 1] == ts[..j] + [ts[j]];
  }

  /** The loop shared by `computeValidTraits` and `pruneTraits`: the traits of the cards in scope. */
  method CollectTraits(cards: seq<Card>, meta: map<string, CardMeta>, cv: set<string>, sv: set<string>, ev: set<string>) returns (traits: set<string>)
    ensures traits == AvailableTraits(cards, meta, cv, sv, ev)
  {
    traits := {};
    var i := 0;
    while i < |cards|
      invariant 0 <= i <= |cards|
      invariant traits == AvailableTraits(cards[..i], meta, cv, sv, ev)
    {
      var card := cards[i];
      AvailableTraitsSnoc(cards, i, meta, cv, sv, ev);
      if card.code in meta && InScope(meta[card.code], cv, sv, ev) {
        traits := AddTraits(traits, meta[card.code].traits);
      }
      i := i + 1;
    }
    assert cards[..i] == cards;
  }

  /** The inner loop of the trait collection: every trait of one card is added. */
  method AddTraits(traits: set<string>, ts: seq<string>) returns (r: set<string>)
    ensures r == traits + TraitSet(ts)
  {
    r := traits;
    var j := 0;
    while j < |ts|
      invariant 0 <= j <= |ts|
      invariant r == traits + TraitSet(ts[..j])
    {
      TraitsPrefixSnoc(ts, j);
      r := r + {ts[j]};
      j := j + 1;
    }
    assert ts[..j] == ts;
  }

  /** `computeValidTraits`: no restriction when nothing upstream is selected. */
  method ComputeValidTraits(
    selectedCampaigns: seq<FacetOption>, selectedScenarios: seq<FacetOption>, selectedEncounters: seq<FacetOption>,
    cards: seq<Card>, meta: map<string, CardMeta>) returns (r: Option<set<string>>)
    ensures r.None? <==> selectedCampaigns == [] && selectedScenarios == [] && selectedEncounters == []
    ensures r.Some? ==> r.value == AvailableTraits(cards, meta, ValueSet(selectedCampaigns), ValueSet(selectedScenarios), ValueSet(selectedEncounters))
  {
    var cv, sv, ev := ValueSet(selectedCampaigns), ValueSet(selectedScenarios), ValueSet(selectedEncounters);
    if cv == {} && sv == {} && ev == {} {
      return None;
    }
    var traits := CollectTraits(cards, meta, cv, sv, ev);
    return Some(traits);
  }

  /** `computeTraitOptions`: the trait options, restricted to the valid traits when there are any. */
  function ComputeTraitOptions(valid: Option<set<string>>, allTraits: seq<FacetOption>): (r: seq<FacetOption>)
    ensures Seqs.IsSubseq(r, allTraits)
    ensures valid.None? ==> r == allTraits
    ensures valid.Some? ==> forall o :: o in r <==> o in allTraits && o.value in valid.value
  {
    ComputeEncounterOptions(valid, allTraits)
  }

  /** The types of the cards in scope. */
  function AvailableTypes(cards: seq<Card>, meta: map<string, CardMeta>, cv: set<string>, sv: set<string>, ev: set<string>): (r: set<string>)
    ensures forall i :: 0 <= i < |cards| && CardInScope(cards[i], meta, cv, sv, ev) ==> cards[i].typeCode in r
    ensures forall t :: t in r ==> exists i :: 0 <= i < |cards| && CardInScope(cards[i], meta, cv, sv, ev) && cards[i].typeCode == t
    decreases |cards|
  {
    if cards == [] then {}
    else
      var init := cards[..|cards| - 1];
      var rest := AvailableTypes(init, meta, cv, sv, ev);
      var c := cards[|cards| - 1];
      assert forall i :: 0 <= i < |init| ==> init[i] == cards[i];
      if CardInScope(c, meta, cv, sv, ev) then rest + {c.typeCode} else rest
  }

  /** `computeTypeOptions`: the type options of the cards in scope, or all when nothing upstream is selected. */
  method ComputeTypeOptions(
    selectedCampaigns: seq<FacetOption>, selectedScenarios: seq<FacetOption>, selectedEncounters: seq<FacetOption>,
    cards: seq<Card>, meta: map<string, CardMeta>, allTypes: seq<FacetOption>) returns (r: seq<FacetOption>)
    ensures selectedCampaigns == [] && selectedScenarios == [] && selectedEncounters == [] ==> r == allTypes
    ensures !(selectedCampaigns == [] && selectedScenarios == [] && selectedEncounters == []) ==>
      r == KeepByValue(allTypes, AvailableTypes(cards, meta, ValueSet(selectedCampaigns), ValueSet(selectedScenarios), ValueSet(selectedEncounters)))
  {
    var cv, sv, ev := ValueSet(selectedCampaigns), ValueSet(selectedScenarios), ValueSet(selectedEncounters);
    if cv == {} && sv == {} && ev == {} {
      return allTypes;
    }
    var available: set<string> := {};
    var i := 0;
    while i < |cards|
      invariant 0 <= i <= |cards|
      invariant available == AvailableTypes(cards[..i], meta, cv, sv, ev)
    {
      var card := cards[i];
      assert cards[..i + 1][..i] == cards[..i];
      if card.code in meta && InScope(meta[card.code], cv, sv, ev) {
        available := available + {card.typeCode};
      }
      i := i + 1;
    }
    assert cards[..i] == cards;
    r := KeepByValue(allTypes, available);
  }

  /** What `pruneTraits` returns: the selected traits still available in scope. */
  function PrunedTraits(traits: seq<FacetOption>, cv: set<string>, sv: set<string>, ev: set<string>, cards: seq<Card>, meta: map<string, CardMeta>): (r: seq<FacetOption>)
    ensures Seqs.IsSubseq(r, traits)
    ensures cv == {} && sv == {} && ev == {} ==> r == traits
    ensures !(cv == {} && sv == {} && ev == {}) ==>
      forall o :: o in r <==> o in traits && o.value in AvailableTraits(cards, meta, cv, sv, ev)
  {
    if cv == {} && sv == {} && ev == {} then
      Seqs.SubseqRefl(traits);
      traits
    else KeepByValue(traits, AvailableTraits(cards, meta, cv, sv, ev))
  }

  /** `pruneTraits`: the loop collecting the available traits, then a filter of the selection. */
  method PruneTraits(traits: seq<FacetOption>, cv: set<string>, sv: set<string>, ev: set<string>, cards: seq<Card>, meta: map<string, CardMeta>) returns (r: seq<FacetOption>)
    ensures r == PrunedTraits(traits, cv, sv, ev, cards, meta)
  {
    if cv == {} && sv == {} && ev == {} {
      return traits;
    }
    var available := CollectTraits(cards, meta, cv, sv, ev);
    r := KeepByValue(traits, available);
  }

  /**
   * The trait options offered and the pruning of a trait selection agree:
   * a selected trait survives pruning exactly when it is still offered.
   */
  lemma PruneMatchesOptions(
    selectedCampaigns: seq<FacetOption>, selectedScenarios: seq<FacetOption>, selectedEncounters: seq<FacetOption>,
    traits: seq<FacetOption>, allTraits: seq<FacetOption>, cards: seq<Card>, meta: map<string, CardMeta>, o: FacetOption)
    requires o in traits && o in allTraits
    ensures var cv, sv, ev := ValueSet(selectedCampaigns), ValueSet(selectedScenarios), ValueSet(selectedEncounters);
      var valid := if cv == {} && sv == {} && ev == {} then None else Some(AvailableTraits(cards, meta, cv, sv, ev));
      o in PrunedTraits(traits, cv, sv, ev, cards, meta) <==> o in ComputeTraitOptions(valid, allTraits)
  {
  }

  // ---------------------------------------------------------------- cascades

  /** A scenario selection kept when campaigns change: its option's campaign is selected. */
  predicate ScenarioInCampaigns(s: FacetOption, allScenarios: seq<ScenarioOption>, codes: set<string>)
  {
    var opt := FindScenario(allScenarios, s.value);
    opt.Some? && opt.value.campaignCode in codes
  }

  function KeepScenariosInCampaigns(sel: seq<FacetOption>, allScenarios: seq<ScenarioOption>, codes: set<string>): (r: seq<FacetOption>)
    ensures Seqs.IsSubseq(r, sel)
    ensures forall s :: s in r <==> s in sel && ScenarioInCampaigns(s, allScenarios, codes)
    decreases |sel|
  {
    if sel == [] then []
    else
      var rest := KeepScenariosInCampaigns(sel[1..], allScenarios, codes);
      if ScenarioInCampaigns(sel[0], allScenarios, codes) then [sel[0]] + rest else rest
  }

  /** The encounter selection narrowed to the encounter sets of the active scenarios, if any. */
  function NarrowEncounters(encounters: seq<FacetOption>, active: Option<seq<ScenarioOption>>): (r: seq<FacetOption>)
    ensures Seqs.IsSubseq(r, encounters)
    ensures active.None? ==> r == encounters
    ensures active.Some? ==> forall e :: e in r <==> e in encounters && e.value in EncounterCodesOf(active.value)
  {
    ComputeEncounterOptions(if active.None? then None else Some(EncounterCodesOf(active.value)), encounters)
  }

  /**
   * `cascadeCampaignChange`: scenarios outside the new campaigns are
   * dropped, encounters outside the remaining scenarios are dropped, traits
   * no longer available are dropped; types are never pruned.
   */
  function CascadeCampaignChange(next: seq<FacetOption>, current: Filters, options: FilterOptions, cards: seq<Card>, meta: map<string, CardMeta>): (r: Filters)
    ensures r.campaigns == next && r.types == current.types
    ensures Seqs.IsSubseq(r.scenarios, current.scenarios)
    ensures Seqs.IsSubseq(r.encounters, current.encounters)
    ensures Seqs.IsSubseq(r.traits, current.traits)
    ensures next == [] ==> r.scenarios == current.scenarios
    ensures next != [] ==> forall s :: s in r.scenarios <==> s in current.scenarios && ScenarioInCampaigns(s, options.scenarios, ValueSet(next))
    ensures var active := ActiveScenarios(r.scenarios, next, options.scenarios, ComputeScenarioOptions(next, options.scenarios));
      forall e :: e in r.encounters <==> e in current.encounters && (active.None? || e.value in EncounterCodesOf(active.value))
    ensures next == [] && r.scenarios == [] && r.encounters == [] ==> r.traits == current.traits
    ensures !(next == [] && r.scenarios == [] && r.encounters == []) ==>
      forall t :: t in r.traits <==> t in current.traits && t.value in AvailableTraits(cards, meta, ValueSet(next), ValueSet(r.scenarios), ValueSet(r.encounters))
  {
    var scenarios := if next != [] then KeepScenariosInCampaigns(current.scenarios, options.scenarios, ValueSet(next)) else current.scenarios;
    Seqs.SubseqRefl(current.scenarios);
    var active := ActiveScenarios(scenarios, next, options.scenarios, ComputeScenarioOptions(next, options.scenarios));
    var encounters := NarrowEncounters(current.encounters, active);
    var traits := PrunedTraits(current.traits, ValueSet(next), ValueSet(scenarios), ValueSet(encounters), cards, meta);
    current.(campaigns := next, scenarios := scenarios, encounters := encounters, traits := traits)
  }

  /**
   * `cascadeScenarioChange`: encounters outside the active scenarios and
   * traits no longer available are dropped; campaigns and types are kept.
   */
  function CascadeScenarioChange(
    next: seq<FacetOption>, current: Filters, options: FilterOptions, scenarioOptions: seq<ScenarioOption>,
    cards: seq<Card>, meta: map<string, CardMeta>): (r: Filters)
    ensures r.scenarios == next && r.campaigns == current.campaigns && r.types == current.types
    ensures Seqs.IsSubseq(r.encounters, current.encounters)
    ensures Seqs.IsSubseq(r.traits, current.traits)
    ensures next == [] && current.campaigns == [] ==> r.encounters == current.encounters
    ensures var active := ActiveScenarios(next, current.campaigns, options.scenarios, scenarioOptions);
      forall e :: e in r.encounters <==> e in current.encounters && (active.None? || e.value in EncounterCodesOf(active.value))
    ensures current.campaigns == [] && next == [] && r.encounters == [] ==> r.traits == current.traits
    ensures !(current.campaigns == [] && next == [] && r.encounters == []) ==>
      forall t :: t in r.traits <==> t in current.traits && t.value in AvailableTraits(cards, meta, ValueSet(current.campaigns), ValueSet(next), ValueSet(r.encounters))
  {
    var active := ActiveScenarios(next, current.campaigns, options.scenarios, scenarioOptions);
    var encounters := NarrowEncounters(current.encounters, active);
    var traits := PrunedTraits(current.traits, ValueSet(current.campaigns), ValueSet(next), ValueSet(encounters), cards, meta);
    current.(scenarios := next, encounters := encounters, traits := traits)
  }

  /** `cascadeEncounterChange`: only the encounters and the (pruned) traits change. */
  function CascadeEncounterChange(next: seq<FacetOption>, current: Filters, cards: seq<Card>, meta: map<string, CardMeta>): (r: Filters)
    ensures r.encounters == next
    ensures r.campaigns == current.campaigns && r.scenarios == current.scenarios && r.types == current.types
    ensures Seqs.IsSubseq(r.traits, current.traits)
    ensures current.campaigns == [] && current.scenarios == [] && next == [] ==> r.traits == current.traits
    ensures !(current.campaigns == [] && current.scenarios == [] && next == []) ==>
      forall t :: t in r.traits <==> t in current.traits && t.value in AvailableTraits(cards, meta, ValueSet(current.campaigns), ValueSet(current.scenarios), ValueSet(next))
  {
    current.(encounters := next,
             traits := PrunedTraits(current.traits, ValueSet(current.campaigns), ValueSet(current.scenarios), ValueSet(next), cards, meta))
  }

  /** Scenario codes are unique among the scenario options. */
  predicate DistinctScenarioValues(opts: seq<ScenarioOption>)
  {
    forall i, j :: 0 <= i < j < |opts| ==> opts[i].value != opts[j].value
  }

  /** With unique codes, looking a scenario's code up finds that scenario. */
  lemma {:induction false} FindDistinctScenario(opts: seq<ScenarioOption>, o: ScenarioOption)
    requires DistinctScenarioValues(opts) && o in opts
    ensures FindScenario(opts, o.value) == Some(o)
    decreases |opts|
  {
    if opts[0] != o {
      var t := opts[1..];
      assert o in t;
      assert DistinctScenarioValues(t) by {
        forall i, j | 0 <= i < j < |t| ensures t[i].value != t[j].value {
          assert t[i] == opts[i + 1] && t[j] == opts[j + 1];
        }
      }
      var k :| 0 <= k < |t| && t[k] == o;
      assert opts[k + 1] == o;
      FindDistinctScenario(t, o);
    }
  }

  /**
   * After a campaign change with some campaign selected, every encounter
   * still selected belongs to a scenario of a selected campaign.
   */
  lemma CascadeCampaignEncounters(next: seq<FacetOption>, current: Filters, options: FilterOptions, cards: seq<Card>, meta: map<string, CardMeta>, e: FacetOption)
    requires DistinctScenarioValues(options.scenarios)
    requires next != []
    requires e in CascadeCampaignChange(next, current, options, cards, meta).encounters
    ensures exists s :: s in options.scenarios && s.campaignCode in ValueSet(next) && e.value in s.encounterCodes
  {
    var scenarios := KeepScenariosInCampaigns(current.scenarios, options.scenarios, ValueSet(next));
    var active := ActiveScenarios(scenarios, next, options.scenarios, ComputeScenarioOptions(next, options.scenarios));
    assert e.value in EncounterCodesOf(active.value);
    var i :| 0 <= i < |active.value| && e.value in active.value[i].encounterCodes;
    var s := active.value[i];
    assert s in active.value;
    if scenarios != [] {
      assert s in options.scenarios && s.value in ValueSet(scenarios);
      var k :| 0 <= k < |scenarios| && scenarios[k].value == s.value;
      assert ScenarioInCampaigns(scenarios[k], options.scenarios, ValueSet(next));
      FindDistinctScenario(options.scenarios, s);
    }
  }
}
