/**
 * The aggregation engine of the statistics view: weighted counts of card
 * types, encounter sets and traits sorted by count, the per-value
 * distribution of a numeric stat, and the enemy and location heat-map
 * tables with their "?" column for variable values.
 */
module CardStats {
  import opened Wrappers
  import Strs
  import Assoc
  import opened Tally
  import Traits
  import JsNumbers
  import opened Cards
  import opened CardFilters

  /** The "Unique" / "Total" toggle. */
  datatype CountMode = Unique | Total

  /** A card counts once in unique mode and `quantity` times in total mode. */
  function Weight(c: Card, mode: CountMode): int
  {
    if mode == Total then c.quantity else 1
  }

  /** One slice of a pie or bar chart. */
  datatype Entry = Entry(name: string, value: int)

  /** A `Map<string, number>` of running counts. */
  type Counts = Assoc.Entries<string, int>

  /** The map's entries as chart slices, in map order. */
  function ToEntries(m: Counts): (r: seq<Entry>)
    ensures |r| == |m| && forall i :: 0 <= i < |m| ==> r[i] == Entry(m[i].0, m[i].1)
  {
    seq(|m|, i requires 0 <= i < |m| => Entry(m[i].0, m[i].1))
  }

  /** A slice is listed exactly when its name is a key of the map holding its value. */
  lemma ToEntriesMembers(m: Counts, e: Entry)
    requires Assoc.DistinctKeys(m)
    ensures e in ToEntries(m) <==> Assoc.Get(m, e.name) == Some(e.value)
  {
    var r := ToEntries(m);
    if e in r {
      var i :| 0 <= i < |r| && r[i] == e;
      Assoc.GetEntry(m, i);
    }
    if Assoc.Get(m, e.name) == Some(e.value) {
      Assoc.GetFirst(m, e.name);
      var i :| 0 <= i < |m| && m[i] == (e.name, e.value) && forall j :: 0 <= j < i ==> m[j].0 != e.name;
      assert r[i] == e;
    }
  }

  // ---------------------------------------------------------------- sorting by count

  /** Counts never increase along the list. */
  predicate SortedDesc(s: seq<Entry>)
  {
    forall i, j :: 0 <= i < j < |s| ==> s[i].value >= s[j].value
  }

  /** Insert `e` ahead of the first slice whose count it reaches. */
  function InsertDesc(e: Entry, s: seq<Entry>): (r: seq<Entry>)
    ensures multiset(r) == multiset(s) + multiset{e}
    ensures |r| == |s| + 1 && (r[0] == e || (s != [] && r[0] == s[0]))
    decreases |s|
  {
    if s == [] || s[0].value <= e.value then [e] + s
    else
      assert s == [s[0]] + s[1..];
      [s[0]] + InsertDesc(e, s[1..])
  }

  /** A slice at least as large as the head of a sorted list can go in front of it. */
  lemma SortedDescCons(h: Entry, rest: seq<Entry>)
    requires SortedDesc(rest) && (rest != [] ==> h.value >= rest[0].value)
    ensures SortedDesc([h] + rest)
  {
    var r := [h] + rest;
    forall i, j | 0 <= i < j < |r| ensures r[i].value >= r[j].value {
      if i == 0 && j > 1 {
        assert rest[0].value >= rest[j - 1].value;
      }
    }
  }

  lemma {:induction false} InsertDescSorted(e: Entry, s: seq<Entry>)
    requires SortedDesc(s)
    ensures SortedDesc(InsertDesc(e, s))
    decreases |s|
  {
    if s == [] || s[0].value <= e.value {
      SortedDescCons(e, s);
    } else {
      var rest := InsertDesc(e, s[1..]);
      InsertDescSorted(e, s[1..]);
      assert SortedDesc(s[1..]);
      if |s| > 1 {
        assert s[0].value >= s[1].value;
      }
      SortedDescCons(s[0], rest);
    }
  }

  /**
   * `entries.sort((a, b) => b.value - a.value)`: by count, largest first;
   * the sort is stable, so equal counts keep their order.
   */
  function SortDesc(s: seq<Entry>): (r: seq<Entry>)
    ensures multiset(r) == multiset(s)
    ensures SortedDesc(r)
    decreases |s|
  {
    if s == [] then []
    else
      assert s == [s[0]] + s[1..];
      InsertDescSorted(s[0], SortDesc(s[1..]));
      InsertDesc(s[0], SortDesc(s[1..]))
  }

  /** The slices with a given count, in order. */
  function WithValue(s: seq<Entry>, v: int): seq<Entry>
    decreases |s|
  {
    if s == [] then []
    else
      var rest := WithValue(s[1..], v);
      if s[0].value == v then [s[0]] + rest else rest
  }

  lemma {:induction false} InsertDescWithValue(e: Entry, s: seq<Entry>, v: int)
    ensures WithValue(InsertDesc(e, s), v) == if e.value == v then [e] + WithValue(s, v) else WithValue(s, v)
    decreases |s|
  {
    if s == [] || s[0].value <= e.value {
      assert ([e] + s)[1..] == s;
    } else {
      InsertDescWithValue(e, s[1..], v);
      assert ([s[0]] + InsertDesc(e, s[1..]))[1..] == InsertDesc(e, s[1..]);
    }
  }

  /** The sort is stable: slices with equal counts keep their relative order. */
  lemma {:induction false} SortDescStable(s: seq<Entry>, v: int)
    ensures WithValue(SortDesc(s), v) == WithValue(s, v)
    decreases |s|
  {
    if s != [] {
      SortDescStable(s[1..], v);
      InsertDescWithValue(s[0], SortDesc(s[1..]), v);
    }
  }

  // ---------------------------------------------------------------- countBy

  /** The two keys the charts count by: `c.typeName` and `c.encounterName`. */
  datatype CountKey = TypeNameKey | EncounterNameKey

  function KeyOf(key: CountKey, c: Card): Option<string>
  {
    match key
    case TypeNameKey => Some(c.typeName)
    case EncounterNameKey => c.encounterName
  }

  /** The occurrences `countBy` adds up: each card with a non-empty key, with its weight. */
  function KeyedWeights(cards: seq<Card>, key: CountKey, mode: CountMode): seq<(string, int)>
    decreases |cards|
  {
    if cards == [] then []
    else
      var c := cards[|cards| - 1];
      var init := KeyedWeights(cards[..|cards| - 1], key, mode);
      if Truthy(KeyOf(key, c)) then init + [(KeyOf(key, c).value, Weight(c, mode))] else init
  }

  lemma KeyedWeightsSnoc(cards: seq<Card>, key: CountKey, mode: CountMode, i: int)
    requires 0 <= i < |cards|
    ensures KeyedWeights(cards[..i + 1], key, mode) == KeyedWeights(cards[..i], key, mode) +
      if Truthy(KeyOf(key, cards[i])) then [(KeyOf(key, cards[i]).value, Weight(cards[i], mode))] else []
  {
    assert cards[..i + 1][..i] == cards[..i];
  }

  /** The result `countBy` computes. */
  function CountByOf(cards: seq<Card>, key: CountKey, mode: CountMode): seq<Entry>
  {
    SortDesc(ToEntries(Accumulate(KeyedWeights(cards, key, mode))))
  }

  /** `countBy`: one pass over the cards bumping a map, then the sort by count. */
  method CountBy(cards: seq<Card>, key: CountKey, mode: CountMode) returns (r: seq<Entry>)
    ensures r == CountByOf(cards, key, mode)
  {
    var m: Counts := [];
    for i := 0 to |cards|
      invariant m == Accumulate(KeyedWeights(cards[..i], key, mode))
    {
      KeyedWeightsSnoc(cards, key, mode, i);
      var c := cards[i];
      var val := KeyOf(key, c);
      if Truthy(val) {
        var weight := if mode == Total then c.quantity else 1;
        AccumulateSnoc(KeyedWeights(cards[..i], key, mode), val.value, weight);
        m := Bump(m, val.value, weight);
        assert KeyedWeights(cards[..i + 1], key, mode) == KeyedWeights(cards[..i], key, mode) + [(val.value, weight)];
      } else {
        assert KeyedWeights(cards[..i + 1], key, mode) == KeyedWeights(cards[..i], key, mode) + [];
        assert KeyedWeights(cards[..i], key, mode) + [] == KeyedWeights(cards[..i], key, mode);
      }
    }
    assert cards[..|cards|] == cards;
    r := SortDesc(ToEntries(m));
  }

  /** The summed weight of the cards whose key is `name` (independent of the map). */
  function KeyTotal(cards: seq<Card>, key: CountKey, mode: CountMode, name: string): int
    decreases |cards|
  {
    if cards == [] then 0
    else
      var c := cards[|cards| - 1];
      KeyTotal(cards[..|cards| - 1], key, mode, name) + (if KeyOf(key, c) == Some(name) then Weight(c, mode) else 0)
  }

  lemma {:induction false} KeyedWeightsNames(cards: seq<Card>, key: CountKey, mode: CountMode, name: string)
    requires name != ""
    ensures name in Names(KeyedWeights(cards, key, mode)) <==> exists c :: c in cards && KeyOf(key, c) == Some(name)
    decreases |cards|
  {
    if cards != [] {
      var init := cards[..|cards| - 1];
      var c := cards[|cards| - 1];
      KeyedWeightsNames(init, key, mode, name);
      KeyedNamesSnoc(init, c, key, mode, name);
      assert cards == init + [c];
      HasKeySnoc(init, c, key, name);
    }
  }

  lemma KeyedNamesSnoc(init: seq<Card>, c: Card, key: CountKey, mode: CountMode, name: string)
    requires name != ""
    ensures name in Names(KeyedWeights(init + [c], key, mode)) <==>
              name in Names(KeyedWeights(init, key, mode)) || KeyOf(key, c) == Some(name)
  {
    assert (init + [c])[..|init|] == init;
    var occ := KeyedWeights(init, key, mode);
    if Truthy(KeyOf(key, c)) {
      NamesAppend(occ, [(KeyOf(key, c).value, Weight(c, mode))]);
    }
  }

  lemma HasKeySnoc(init: seq<Card>, c: Card, key: CountKey, name: string)
    ensures (exists d :: d in init + [c] && KeyOf(key, d) == Some(name)) <==>
              (exists d :: d in init && KeyOf(key, d) == Some(name)) || KeyOf(key, c) == Some(name)
  {
    if exists d :: d in init + [c] && KeyOf(key, d) == Some(name) {
      var d :| d in init + [c] && KeyOf(key, d) == Some(name);
      assert d in init || d == c;
    }
    if exists d :: d in init && KeyOf(key, d) == Some(name) {
      var d :| d in init && KeyOf(key, d) == Some(name);
      assert d in init + [c];
    }
    if KeyOf(key, c) == Some(name) {
      assert c in init + [c];
    }
  }

  lemma {:induction false} KeyedWeightsTotals(cards: seq<Card>, key: CountKey, mode: CountMode, name: string)
    requires name != ""
    ensures SumFor(KeyedWeights(cards, key, mode), name) == KeyTotal(cards, key, mode, name)
    decreases |cards|
  {
    if cards != [] {
      var init := cards[..|cards| - 1];
      var c := cards[|cards| - 1];
      KeyedWeightsTotals(init, key, mode, name);
      var occ := KeyedWeights(init, key, mode);
      var add := if KeyOf(key, c) == Some(name) then Weight(c, mode) else 0;
      assert KeyTotal(cards, key, mode, name) == KeyTotal(init, key, mode, name) + add;
      if Truthy(KeyOf(key, c)) {
        var occ' := occ + [(KeyOf(key, c).value, Weight(c, mode))];
        assert KeyedWeights(cards, key, mode) == occ';
        assert occ'[..|occ'| - 1] == occ;
        assert SumFor(occ', name) == SumFor(occ, name) + add;
      } else {
        assert KeyedWeights(cards, key, mode) == occ;
        assert add == 0;
      }
    }
  }

  /**
   * `countBy` lists, largest first, one slice per distinct non-empty key,
   * holding the summed weight of the cards with that key.
   */
  lemma CountBySlices(cards: seq<Card>, key: CountKey, mode: CountMode, e: Entry)
    ensures SortedDesc(CountByOf(cards, key, mode))
    ensures e in CountByOf(cards, key, mode) <==>
      e.name != "" && (exists c :: c in cards && KeyOf(key, c) == Some(e.name)) &&
      e.value == KeyTotal(cards, key, mode, e.name)
  {
    var occ := KeyedWeights(cards, key, mode);
    var m := Accumulate(occ);
    AccumulateDistinct(occ);
    AccumulateGet(occ, e.name);
    ToEntriesMembers(m, e);
    assert e in CountByOf(cards, key, mode) <==> e in multiset(ToEntries(m));
    if e.name != "" {
      KeyedWeightsNames(cards, key, mode, e.name);
      KeyedWeightsTotals(cards, key, mode, e.name);
    } else {
      assert e.name !in Names(occ) by {
        forall i | 0 <= i < |occ| ensures occ[i].0 != "" {
          KeyedWeightsNonEmpty(cards, key, mode, i);
        }
      }
    }
  }

  lemma {:induction false} KeyedWeightsNonEmpty(cards: seq<Card>, key: CountKey, mode: CountMode, i: int)
    requires 0 <= i < |KeyedWeights(cards, key, mode)|
    ensures KeyedWeights(cards, key, mode)[i].0 != ""
    decreases |cards|
  {
    var init := cards[..|cards| - 1];
    var c := cards[|cards| - 1];
    if i < |KeyedWeights(init, key, mode)| {
      KeyedWeightsNonEmpty(init, key, mode, i);
    }
  }

  // ---------------------------------------------------------------- countTraits

  /** The trait occurrences of one card, each with the card's weight; none when it has no traits. */
  function CardTraitWeights(c: Card, mode: CountMode): seq<(string, int)>
  {
    if Truthy(c.traits) then Tagged(Traits.ChartTraits(c.traits.value), Weight(c, mode)) else []
  }

  /** The occurrences `countTraits` adds up, card by card. */
  function TraitWeights(cards: seq<Card>, mode: CountMode): seq<(string, int)>
    decreases |cards|
  {
    if cards == [] then []
    else TraitWeights(cards[..|cards| - 1], mode) + CardTraitWeights(cards[|cards| - 1], mode)
  }

  /** The result `countTraits` computes. */
  function CountTraitsOf(cards: seq<Card>, mode: CountMode): seq<Entry>
  {
    SortDesc(ToEntries(Accumulate(TraitWeights(cards, mode))))
  }

  lemma TraitWeightsSnoc(cards: seq<Card>, mode: CountMode, i: int)
    requires 0 <= i < |cards|
    ensures TraitWeights(cards[..i + 1], mode) == TraitWeights(cards[..i], mode) + CardTraitWeights(cards[i], mode)
  {
    assert cards[..i + 1][..i] == cards[..i];
  }

  /** Piece `j` bumps its trait, when it leaves a non-empty one, on top of the counts of the pieces before it. */
  lemma BumpTraitsStep(before: seq<(string, int)>, pieces: seq<string>, j: int, weight: int)
    requires 0 <= j < |pieces|
    ensures var t := Strs.Trim(Strs.Js, Traits.StripOneDot(pieces[j]));
            var m := Accumulate(before + Tagged(Traits.ChartPieces(pieces[..j]), weight));
            Accumulate(before + Tagged(Traits.ChartPieces(pieces[..j + 1]), weight)) == if t != [] then Bump(m, t, weight) else m
  {
    var t := Strs.Trim(Strs.Js, Traits.StripOneDot(pieces[j]));
    var done := Traits.ChartPieces(pieces[..j]);
    Traits.ChartPiecesPrefix(pieces, j);
    if t != [] {
      assert Traits.ChartPieces(pieces[..j + 1]) == done + [t];
      TaggedSnoc(done, t, weight);
      assert before + Tagged(done + [t], weight) == (before + Tagged(done, weight)) + [(t, weight)];
      AccumulateSnoc(before + Tagged(done, weight), t, weight);
    } else {
      assert Traits.ChartPieces(pieces[..j + 1]) == done;
    }
  }

  /**
   * The inner loop of `countTraits` over one card's pieces: strip one
   * trailing dot, trim, and bump every non-empty trait by the card's weight.
   */
  method BumpTraits(m0: Counts, pieces: seq<string>, weight: int, ghost before: seq<(string, int)>) returns (m: Counts)
    requires m0 == Accumulate(before)
    ensures m == Accumulate(before + Tagged(Traits.ChartPieces(pieces), weight))
  {
    m := m0;
    assert before + Tagged(Traits.ChartPieces(pieces[..0]), weight) == before by {
      assert pieces[..0] == [];
    }
    for j := 0 to |pieces|
      invariant m == Accumulate(before + Tagged(Traits.ChartPieces(pieces[..j]), weight))
    {
      BumpTraitsStep(before, pieces, j, weight);
      var t := Strs.Trim(Strs.Js, Traits.StripOneDot(pieces[j]));
      if t != [] {
        m := Bump(m, t, weight);
      }
    }
    assert pieces[..|pieces|] == pieces;
  }

  /**
   * `countTraits`: each card with traits splits them on ". " and bumps its
   * traits by its weight; then the sort by count.
   */
  method CountTraits(cards: seq<Card>, mode: CountMode) returns (r: seq<Entry>)
    ensures r == CountTraitsOf(cards, mode)
  {
    var m: Counts := [];
    for i := 0 to |cards|
      invariant m == Accumulate(TraitWeights(cards[..i], mode))
    {
      ghost var before := TraitWeights(cards[..i], mode);
      TraitWeightsSnoc(cards, mode, i);
      var c := cards[i];
      if Truthy(c.traits) {
        var weight := if mode == Total then c.quantity else 1;
        m := BumpTraits(m, Strs.Split(c.traits.value, ". "), weight, before);
      } else {
        assert before + [] == before;
      }
    }
    assert cards[..|cards|] == cards;
    r := SortDesc(ToEntries(m));
  }

  /** The summed weight of the trait `name` over the cards (independent of the map). */
  function TraitTotal(cards: seq<Card>, mode: CountMode, name: string): int
    decreases |cards|
  {
    if cards == [] then 0
    else
      var c := cards[|cards| - 1];
      TraitTotal(cards[..|cards| - 1], mode, name) +
        (if Truthy(c.traits) then Weight(c, mode) * multiset(Traits.ChartTraits(c.traits.value))[name] else 0)
  }

  /** Some card lists trait `name`. */
  predicate HasTrait(cards: seq<Card>, name: string)
  {
    exists c :: c in cards && Truthy(c.traits) && name in Traits.ChartTraits(c.traits.value)
  }

  lemma {:induction false} TraitWeightsNames(cards: seq<Card>, mode: CountMode, name: string)
    ensures name in Names(TraitWeights(cards, mode)) <==> HasTrait(cards, name)
    decreases |cards|
  {
    if cards != [] {
      var init := cards[..|cards| - 1];
      var c := cards[|cards| - 1];
      TraitWeightsNames(init, mode, name);
      assert cards == init + [c];
      TraitNamesSnoc(init, c, mode, name);
      HasTraitSnoc(init, c, name);
    } else {
      assert Names(TraitWeights(cards, mode)) == [];
    }
  }

  lemma TraitNamesSnoc(init: seq<Card>, c: Card, mode: CountMode, name: string)
    ensures name in Names(TraitWeights(init + [c], mode)) <==>
              name in Names(TraitWeights(init, mode)) || (Truthy(c.traits) && name in Traits.ChartTraits(c.traits.value))
  {
    assert (init + [c])[..|init|] == init;
    NamesAppend(TraitWeights(init, mode), CardTraitWeights(c, mode));
    if Truthy(c.traits) {
      NamesTagged(Traits.ChartTraits(c.traits.value), Weight(c, mode));
    }
  }

  lemma HasTraitSnoc(init: seq<Card>, c: Card, name: string)
    ensures HasTrait(init + [c], name) <==> HasTrait(init, name) || (Truthy(c.traits) && name in Traits.ChartTraits(c.traits.value))
  {
    if HasTrait(init + [c], name) {
      var d :| d in init + [c] && Truthy(d.traits) && name in Traits.ChartTraits(d.traits.value);
      assert d in init || d == c;
    }
    if HasTrait(init, name) {
      var d :| d in init && Truthy(d.traits) && name in Traits.ChartTraits(d.traits.value);
      assert d in init + [c];
    }
    if Truthy(c.traits) && name in Traits.ChartTraits(c.traits.value) {
      assert c in init + [c];
    }
  }

  lemma {:induction false} TraitWeightsTotals(cards: seq<Card>, mode: CountMode, name: string)
    ensures SumFor(TraitWeights(cards, mode), name) == TraitTotal(cards, mode, name)
    decreases |cards|
  {
    if cards != [] {
      var init := cards[..|cards| - 1];
      var c := cards[|cards| - 1];
      TraitWeightsTotals(init, mode, name);
      SumForAppend(TraitWeights(init, mode), CardTraitWeights(c, mode), name);
      if Truthy(c.traits) {
        SumForTagged(Traits.ChartTraits(c.traits.value), Weight(c, mode), name);
      }
    }
  }

  /**
   * `countTraits` lists, largest first, one slice per distinct trait some
   * card lists, holding the summed weight of its occurrences; every name is
   * non-empty and trimmed.
   */
  lemma CountTraitsSlices(cards: seq<Card>, mode: CountMode, e: Entry)
    ensures SortedDesc(CountTraitsOf(cards, mode))
    ensures e in CountTraitsOf(cards, mode) <==> HasTrait(cards, e.name) && e.value == TraitTotal(cards, mode, e.name)
    ensures e in CountTraitsOf(cards, mode) ==> Traits.Trimmed(e.name)
  {
    var occ := TraitWeights(cards, mode);
    var m := Accumulate(occ);
    AccumulateDistinct(occ);
    AccumulateGet(occ, e.name);
    ToEntriesMembers(m, e);
    assert e in CountTraitsOf(cards, mode) <==> e in multiset(ToEntries(m));
    TraitWeightsNames(cards, mode, e.name);
    TraitWeightsTotals(cards, mode, e.name);
  }

  // ---------------------------------------------------------------- statDistribution

  /**
   * The getter each heat-map row hands to `statDistribution`: variable
   * health, fight, evade and shroud give nothing; negative damage and
   * horror give nothing while an absent one counts as 0; an absent victory
   * counts as 0; the clue rows read `clues` as is.
   */
  function BucketValue(s: Stat, c: Card): Option<int>
  {
    match s
    case Health => if IsVarHealth(c) then None else c.health
    case Fight => if IsVariable(c.enemyFight) then None else c.enemyFight
    case Evade => if IsVariable(c.enemyEvade) then None else c.enemyEvade
    case Damage => if IsNegative(c.enemyDamage) then None else Some(c.enemyDamage.GetOr(0))
    case Horror => if IsNegative(c.enemyHorror) then None else Some(c.enemyHorror.GetOr(0))
    case EnemyVictory => Some(c.victory.GetOr(0))
    case Shroud => if IsVariable(c.shroud) then None else c.shroud
    case Clues => c.clues
    case CluesPp => c.clues
    case LocationVictory => Some(c.victory.GetOr(0))
  }

  /** The cards a row counts in its "?" column (the `varCount` updates). */
  predicate IsVarBucket(s: Stat, c: Card)
  {
    match s
    case Health => IsVarHealth(c)
    case Fight => IsVariable(c.enemyFight)
    case Evade => IsVariable(c.enemyEvade)
    case Damage => IsNegative(c.enemyDamage)
    case Horror => IsNegative(c.enemyHorror)
    case Shroud => IsVariable(c.shroud)
    case _ => false
  }

  /** A card counted as "?" is never also given a numeric bucket. */
  lemma VarBucketHasNoValue(s: Stat, c: Card)
    requires IsVarBucket(s, c)
    ensures BucketValue(s, c).None?
  {
  }

  /**
   * A column of a heat-map table: "?" or a number. The tables key their
   * cells by the column's text (`ColumnText`), which tells columns apart.
   */
  datatype Column = Unknown | Value(n: int)

  /** `"?"`, or `String(n)`. */
  function ColumnText(k: Column): string
  {
    match k
    case Unknown => "?"
    case Value(n) => JsNumbers.DecimalString(n)
  }

  /** Distinct columns have distinct texts, so keying cells by column or by text is the same. */
  lemma ColumnTextInjective(a: Column, b: Column)
    ensures ColumnText(a) == ColumnText(b) <==> a == b
  {
    if a.Value? && b.Value? {
      JsNumbers.DecimalInjective(a.n, b.n);
    } else if a.Value? && b.Unknown? {
      assert ColumnText(a)[0] != '?';
    } else if a.Unknown? && b.Value? {
      assert ColumnText(b)[0] != '?';
    }
  }

  /** The column a card lands in within the row of stat `s`, if any. */
  function Bucket(s: Stat, c: Card): Option<Column>
  {
    if IsVarBucket(s, c) then Some(Unknown)
    else if BucketValue(s, c).Some? then Some(Value(BucketValue(s, c).value))
    else None
  }

  /** The occurrences `statDistribution` adds up: each card the getter gives a value for. */
  function ValueWeights(cards: seq<Card>, s: Stat, mode: CountMode): seq<(int, int)>
    decreases |cards|
  {
    if cards == [] then []
    else
      var init := ValueWeights(cards[..|cards| - 1], s, mode);
      var c := cards[|cards| - 1];
      if BucketValue(s, c).Some? then init + [(BucketValue(s, c).value, Weight(c, mode))] else init
  }

  lemma ValueWeightsSnoc(cards: seq<Card>, s: Stat, mode: CountMode, i: int)
    requires 0 <= i < |cards|
    ensures ValueWeights(cards[..i + 1], s, mode) ==
      if BucketValue(s, cards[i]).Some? then ValueWeights(cards[..i], s, mode) + [(BucketValue(s, cards[i]).value, Weight(cards[i], mode))]
      else ValueWeights(cards[..i], s, mode)
  {
    assert cards[..i + 1][..i] == cards[..i];
  }

  /**
   * `statDistribution`: a map from each value the getter gives to the summed
   * weight of the cards giving it; cards it gives nothing for are skipped.
   */
  method StatDistribution(cards: seq<Card>, s: Stat, mode: CountMode) returns (dist: Assoc.Entries<int, int>)
    ensures dist == Accumulate(ValueWeights(cards, s, mode))
  {
    dist := [];
    for i := 0 to |cards|
      invariant dist == Accumulate(ValueWeights(cards[..i], s, mode))
    {
      ValueWeightsSnoc(cards, s, mode, i);
      var val := BucketValue(s, cards[i]);
      if val.Some? {
        var weight := if mode == Total then cards[i].quantity else 1;
        AccumulateSnoc(ValueWeights(cards[..i], s, mode), val.value, weight);
        dist := Bump(dist, val.value, weight);
      }
    }
    assert cards[..|cards|] == cards;
  }

  /** The summed weight of the cards landing in column `k` of the row of `s`. */
  function CellWeight(cards: seq<Card>, s: Stat, mode: CountMode, k: Column): int
    decreases |cards|
  {
    if cards == [] then 0
    else
      var c := cards[|cards| - 1];
      CellWeight(cards[..|cards| - 1], s, mode, k) + (if Bucket(s, c) == Some(k) then Weight(c, mode) else 0)
  }

  /** The summed weight of the cards counted as "?" (the `varCount` loop). */
  function VarTotal(cards: seq<Card>, s: Stat, mode: CountMode): int
    decreases |cards|
  {
    if cards == [] then 0
    else
      var c := cards[|cards| - 1];
      VarTotal(cards[..|cards| - 1], s, mode) + (if IsVarBucket(s, c) then Weight(c, mode) else 0)
  }

  lemma VarTotalSnoc(cards: seq<Card>, s: Stat, mode: CountMode, i: int)
    requires 0 <= i < |cards|
    ensures VarTotal(cards[..i + 1], s, mode) == VarTotal(cards[..i], s, mode) + if IsVarBucket(s, cards[i]) then Weight(cards[i], mode) else 0
  {
    assert cards[..i + 1][..i] == cards[..i];
  }

  /** A value is in the distribution exactly when some card gives it. */
  lemma {:induction false} ValueWeightsNames(cards: seq<Card>, s: Stat, mode: CountMode, v: int)
    ensures v in Names(ValueWeights(cards, s, mode)) <==> exists i :: 0 <= i < |cards| && BucketValue(s, cards[i]) == Some(v)
    decreases |cards|
  {
    if cards != [] {
      var init := cards[..|cards| - 1];
      var last := cards[|cards| - 1];
      ValueWeightsNames(init, s, mode, v);
      assert cards == init + [last];
      ValueNamesSnoc(init, last, s, mode, v);
      HasValueSnoc(init, last, s, v);
    } else {
      assert Names(ValueWeights(cards, s, mode)) == [];
    }
  }

  lemma ValueNamesSnoc(init: seq<Card>, c: Card, s: Stat, mode: CountMode, v: int)
    ensures v in Names(ValueWeights(init + [c], s, mode)) <==> v in Names(ValueWeights(init, s, mode)) || BucketValue(s, c) == Some(v)
  {
    assert (init + [c])[..|init|] == init;
    if BucketValue(s, c).Some? {
      NamesAppend(ValueWeights(init, s, mode), [(BucketValue(s, c).value, Weight(c, mode))]);
    }
  }

  lemma HasValueSnoc(init: seq<Card>, c: Card, s: Stat, v: int)
    ensures (exists i :: 0 <= i < |init + [c]| && BucketValue(s, (init + [c])[i]) == Some(v)) <==>
              (exists i :: 0 <= i < |init| && BucketValue(s, init[i]) == Some(v)) || BucketValue(s, c) == Some(v)
  {
    var cards := init + [c];
    if exists i :: 0 <= i < |cards| && BucketValue(s, cards[i]) == Some(v) {
      var i :| 0 <= i < |cards| && BucketValue(s, cards[i]) == Some(v);
      if i < |init| {
        assert init[i] == cards[i];
      }
    }
    if exists i :: 0 <= i < |init| && BucketValue(s, init[i]) == Some(v) {
      var i :| 0 <= i < |init| && BucketValue(s, init[i]) == Some(v);
      assert cards[i] == init[i];
    }
    if BucketValue(s, c) == Some(v) {
      assert cards[|init|] == c;
    }
  }

  /** A card lands in column `Value(v)` exactly when the getter gives it `v`. */
  lemma BucketIsValue(s: Stat, c: Card, v: int)
    ensures Bucket(s, c) == Some(Value(v)) <==> BucketValue(s, c) == Some(v)
  {
    if IsVarBucket(s, c) {
      VarBucketHasNoValue(s, c);
    }
  }

  /** The weight summed for value `v` is the weight of column `String(v)`. */
  lemma {:induction false} ValueWeightsTotals(cards: seq<Card>, s: Stat, mode: CountMode, v: int)
    ensures SumFor(ValueWeights(cards, s, mode), v) == CellWeight(cards, s, mode, Value(v))
    decreases |cards|
  {
    if cards != [] {
      var init := cards[..|cards| - 1];
      var c := cards[|cards| - 1];
      ValueWeightsTotals(init, s, mode, v);
      var occ := ValueWeights(init, s, mode);
      var b := BucketValue(s, c);
      BucketIsValue(s, c, v);
      assert CellWeight(cards, s, mode, Value(v)) ==
             CellWeight(init, s, mode, Value(v)) + (if b == Some(v) then Weight(c, mode) else 0);
      if b.Some? {
        var x := (b.value, Weight(c, mode));
        assert ValueWeights(cards, s, mode) == occ + [x];
        SumForAppend(occ, [x], v);
        assert SumFor([x], v) == (if b == Some(v) then Weight(c, mode) else 0) by {
          assert [x][..0] == [];
        }
      } else {
        assert ValueWeights(cards, s, mode) == occ;
      }
    }
  }

  /** The "?" column holds exactly the weight counted in `varCount`. */
  lemma {:induction false} VarTotalIsCell(cards: seq<Card>, s: Stat, mode: CountMode)
    ensures VarTotal(cards, s, mode) == CellWeight(cards, s, mode, Unknown)
    decreases |cards|
  {
    if cards != [] {
      var c := cards[|cards| - 1];
      VarTotalIsCell(cards[..|cards| - 1], s, mode);
    }
  }

  /**
   * The distribution holds, for each value some card gives, the weight of
   * the column written with that value, and no other key.
   */
  lemma DistributionGet(cards: seq<Card>, s: Stat, mode: CountMode, v: int)
    ensures v in Assoc.Keys(Accumulate(ValueWeights(cards, s, mode))) <==> exists i :: 0 <= i < |cards| && BucketValue(s, cards[i]) == Some(v)
    ensures Assoc.Get(Accumulate(ValueWeights(cards, s, mode)), v).GetOr(0) == CellWeight(cards, s, mode, Value(v))
  {
    var occ := ValueWeights(cards, s, mode);
    AccumulateGet(occ, v);
    Assoc.GetSome(Accumulate(occ), v);
    ValueWeightsNames(cards, s, mode, v);
    ValueWeightsTotals(cards, s, mode, v);
  }

  // ---------------------------------------------------------------- heat-map tables

  /** One row of a heat-map table: the label, its colour and a count per column. */
  datatype Row = Row(name: string, color: string, cells: map<Column, int>)

  /** The rows of the enemy table, in order. */
  const EnemyStats: seq<Stat> := [Health, Fight, Evade, Damage, Horror, EnemyVictory]

  /** The rows of the location table, in order. */
  const LocationStats: seq<Stat> := [Shroud, Clues, CluesPp, LocationVictory]

  /** A row's label; both victory rows are labelled "Victory". */
  function RowName(s: Stat): string
  {
    match s
    case Health => "Health"
    case Fight => "Fight"
    case Evade => "Evade"
    case Damage => "Damage"
    case Horror => "Horror"
    case EnemyVictory => "Victory"
    case Shroud => "Shroud"
    case Clues => "Clues"
    case CluesPp => "Clues_pp"
    case LocationVictory => "Victory"
  }

  /** A row's colour, as the `r, g, b` text the cells are painted with. */
  function RowColor(s: Stat): string
  {
    match s
    case Health => "76, 86, 106"
    case Fight => "208, 135, 112"
    case Evade => "163, 190, 140"
    case Damage => "191, 97, 106"
    case Horror => "94, 129, 172"
    case EnemyVictory => "235, 203, 139"
    case Shroud => "76, 86, 106"
    case Clues => "163, 190, 140"
    case CluesPp => "208, 135, 112"
    case LocationVictory => "235, 203, 139"
  }

  predicate IsEnemy(c: Card)
  {
    c.typeCode == "enemy"
  }

  predicate IsLocation(c: Card)
  {
    c.typeCode == "location"
  }

  /** The cards a row is built from: the enemies, the locations, or the fixed / per-investigator clue locations. */
  function RowCards(s: Stat, cards: seq<Card>): seq<Card>
  {
    match s
    case Shroud | LocationVictory => Seqs.Filter(cards, IsLocation)
    case Clues => Seqs.Filter(Seqs.Filter(cards, IsLocation), FixedClues)
    case CluesPp => Seqs.Filter(Seqs.Filter(cards, IsLocation), PerInvestigatorClues)
    case Health | Fight | Evade | Damage | Horror | EnemyVictory => Seqs.Filter(cards, IsEnemy)
  }

  /** Whether a card belongs to the row of `s`. */
  predicate InRow(s: Stat, c: Card)
  {
    c.typeCode == StatTypeCode(s) && (s == Clues ==> FixedClues(c)) && (s == CluesPp ==> PerInvestigatorClues(c))
  }

  lemma RowCardsMembers(s: Stat, cards: seq<Card>, c: Card)
    ensures c in RowCards(s, cards) <==> c in cards && InRow(s, c)
  {
    assert "enemy" != "location" by {
      assert "enemy"[0] != "location"[0];
    }
    match s
    case Clues =>
      assert c in Seqs.Filter(cards, IsLocation) <==> c in cards && IsLocation(c);
    case CluesPp =>
      assert c in Seqs.Filter(cards, IsLocation) <==> c in cards && IsLocation(c);
    case Shroud =>
    case LocationVictory =>
    case _ =>
      assert StatTypeCode(s) == "enemy";
  }

  /** The distribution a row shows. */
  function Dist(s: Stat, cards: seq<Card>, mode: CountMode): Assoc.Entries<int, int>
  {
    Accumulate(ValueWeights(RowCards(s, cards), s, mode))
  }

  /** A row's "?" count. */
  function VarCount(s: Stat, cards: seq<Card>, mode: CountMode): int
  {
    VarTotal(RowCards(s, cards), s, mode)
  }

  /** Every value some distribution has as a key (the `allVals` set). */
  function ValuesOf(dists: seq<Assoc.Entries<int, int>>): set<int>
    decreases |dists|
  {
    if dists == [] then {}
    else
      var last := dists[|dists| - 1];
      ValuesOf(dists[..|dists| - 1]) + set v | v in Assoc.Keys(last)
  }

  lemma {:induction false} ValuesOfMembers(dists: seq<Assoc.Entries<int, int>>, v: int)
    ensures v in ValuesOf(dists) <==> exists j :: 0 <= j < |dists| && v in Assoc.Keys(dists[j])
    decreases |dists|
  {
    if dists != [] {
      var init := dists[..|dists| - 1];
      var last := dists[|dists| - 1];
      assert ValuesOf(dists) == ValuesOf(init) + set x | x in Assoc.Keys(last);
      ValuesOfMembers(init, v);
      if v in Assoc.Keys(last) {
        assert v in Assoc.Keys(dists[|dists| - 1]);
      } else if v in ValuesOf(init) {
        var j :| 0 <= j < |init| && v in Assoc.Keys(init[j]);
        assert v in Assoc.Keys(dists[j]);
      } else {
        forall j | 0 <= j < |dists|
          ensures v !in Assoc.Keys(dists[j])
        {
          if j < |init| {
            assert dists[j] == init[j];
          }
        }
      }
    }
  }

  /** `for (const s of statDefs) for (const k of s.dist.keys()) allVals.add(k)`. */
  method CollectValues(dists: seq<Assoc.Entries<int, int>>) returns (vals: set<int>)
    ensures vals == ValuesOf(dists)
  {
    vals := {};
    for i := 0 to |dists|
      invariant vals == ValuesOf(dists[..i])
    {
      assert dists[..i + 1][..i] == dists[..i];
      var ks := Assoc.Keys(dists[i]);
      for j := 0 to |ks|
        invariant vals == ValuesOf(dists[..i]) + set v | v in ks[..j]
      {
        assert ks[..j + 1] == ks[..j] + [ks[j]];
        vals := vals + {ks[j]};
      }
      assert ks[..|ks|] == ks;
    }
    assert dists[..|dists|] == dists;
  }

  /** A least element of a non-empty finite set, found by removing one element at a time. */
  lemma {:induction false} LeastOf(s: set<int>) returns (m: int)
    requires s != {}
    ensures m in s && forall x :: x in s ==> m <= x
    decreases |s|
  {
    if forall x :: x !in s {
      assert false;
    }
    var y :| y in s;
    var rest := s - {y};
    if rest == {} {
      m := y;
      forall x | x in s ensures m <= x {
        assert x !in rest;
      }
    } else {
      var least := LeastOf(rest);
      m := if y < least then y else least;
      forall x | x in s ensures m <= x {
        if x != y {
          assert x in rest;
        }
      }
    }
  }

  /** A non-empty finite set has a least element. */
  lemma MinExists(s: set<int>)
    requires s != {}
    ensures exists m :: m in s && forall x :: x in s ==> m <= x
  {
    var m := LeastOf(s);
  }

  function MinOf(s: set<int>): (m: int)
    requires s != {}
    ensures m in s && forall x :: x in s ==> m <= x
  {
    MinExists(s);
    var m :| m in s && forall x :: x in s ==> m <= x;
    m
  }

  /** `[...set].sort((a, b) => a - b)`: the elements, ascending. */
  function SortedInts(s: set<int>): (r: seq<int>)
    ensures forall i, j :: 0 <= i < j < |r| ==> r[i] < r[j]
    ensures forall x :: x in r <==> x in s
    decreases |s|
  {
    if s == {} then []
    else
      var m := MinOf(s);
      var rest := SortedInts(s - {m});
      [m] + rest
  }

  /** The numeric columns for a list of values (`values.map(String)`). */
  function ValueColumns(vals: seq<int>): (r: seq<Column>)
    ensures |r| == |vals| && forall i :: 0 <= i < |vals| ==> r[i] == Value(vals[i])
    ensures forall k :: k in r <==> k.Value? && k.n in vals
  {
    seq(|vals|, i requires 0 <= i < |vals| => Value(vals[i]))
  }

  /** The numeric cells of a row: `row[String(val)] = dist.get(val) ?? 0` for each value in turn. */
  function Cells(dist: Assoc.Entries<int, int>, vals: seq<int>): map<Column, int>
    decreases |vals|
  {
    if vals == [] then map[]
    else
      var v := vals[|vals| - 1];
      Cells(dist, vals[..|vals| - 1])[Value(v) := Assoc.Get(dist, v).GetOr(0)]
  }

  /** The numeric cells are exactly the written values. */
  lemma {:induction false} CellsDomain(dist: Assoc.Entries<int, int>, vals: seq<int>, k: Column)
    ensures k in Cells(dist, vals) <==> k.Value? && k.n in vals
    decreases |vals|
  {
    if vals != [] {
      CellsDomain(dist, vals[..|vals| - 1], k);
      assert vals == vals[..|vals| - 1] + [vals[|vals| - 1]];
    }
  }

  /** The cell written for a value holds that value's count. */
  lemma {:induction false} CellsValue(dist: Assoc.Entries<int, int>, vals: seq<int>, v: int)
    requires v in vals
    ensures Value(v) in Cells(dist, vals) && Cells(dist, vals)[Value(v)] == Assoc.Get(dist, v).GetOr(0)
    decreases |vals|
  {
    var init := vals[..|vals| - 1];
    if vals[|vals| - 1] != v {
      assert vals == init + [vals[|vals| - 1]];
      CellsValue(dist, init, v);
    }
  }

  /** A row: its numeric cells, then the "?" cell when the table has a "?" column. */
  function RowOf(name: string, color: string, dist: Assoc.Entries<int, int>, varCount: int, vals: seq<int>, hasVar: bool): Row
  {
    var cells := Cells(dist, vals);
    Row(name, color, if hasVar then cells[Unknown := varCount] else cells)
  }

  /** Filling one row: a loop over the sorted values, then the "?" cell. */
  method FillRow(name: string, color: string, dist: Assoc.Entries<int, int>, varCount: int, vals: seq<int>, hasVar: bool) returns (row: Row)
    ensures row == RowOf(name, color, dist, varCount, vals, hasVar)
  {
    var cells: map<Column, int> := map[];
    for j := 0 to |vals|
      invariant cells == Cells(dist, vals[..j])
    {
      assert vals[..j + 1][..j] == vals[..j];
      cells := cells[Value(vals[j]) := Assoc.Get(dist, vals[j]).GetOr(0)];
    }
    assert vals[..|vals|] == vals;
    if hasVar {
      cells := cells[Unknown := varCount];
    }
    row := Row(name, color, cells);
  }

  /** Some row of the table counts a card as "?". */
  predicate HasVar(stats: seq<Stat>, cards: seq<Card>, mode: CountMode)
  {
    exists i :: 0 <= i < |stats| && VarCount(stats[i], cards, mode) > 0
  }

  /** The distributions of the table's rows. */
  function TableDists(stats: seq<Stat>, cards: seq<Card>, mode: CountMode): (r: seq<Assoc.Entries<int, int>>)
    ensures |r| == |stats| && forall i :: 0 <= i < |stats| ==> r[i] == Dist(stats[i], cards, mode)
  {
    seq(|stats|, i requires 0 <= i < |stats| => Dist(stats[i], cards, mode))
  }

  /** The numeric columns, ascending. */
  function TableValues(stats: seq<Stat>, cards: seq<Card>, mode: CountMode): seq<int>
  {
    SortedInts(ValuesOf(TableDists(stats, cards, mode)))
  }

  /** The column keys: "?" first when some row has a variable count, then the values written out. */
  function TableKeys(stats: seq<Stat>, cards: seq<Card>, mode: CountMode): seq<Column>
  {
    (if HasVar(stats, cards, mode) then [Unknown] else []) + ValueColumns(TableValues(stats, cards, mode))
  }

  /** The rows, one per stat. */
  function TableRows(stats: seq<Stat>, cards: seq<Card>, mode: CountMode): (r: seq<Row>)
    ensures |r| == |stats|
  {
    var vals := TableValues(stats, cards, mode);
    var hasVar := HasVar(stats, cards, mode);
    seq(|stats|, i requires 0 <= i < |stats| =>
      RowOf(RowName(stats[i]), RowColor(stats[i]), Dist(stats[i], cards, mode), VarCount(stats[i], cards, mode), vals, hasVar))
  }

  /**
   * The part `buildEnemyData` and `buildLocationData` share: gather every
   * value of the rows' distributions, sort them ascending, write the column
   * keys ("?" first when some row counts a card as "?") and fill one row per
   * stat with a cell for every key.
   */
  method AssembleTable(stats: seq<Stat>, ghost cards: seq<Card>, mode: CountMode, dists: seq<Assoc.Entries<int, int>>, varCounts: seq<int>, hasVar: bool)
    returns (rows: seq<Row>, keys: seq<Column>)
    requires |dists| == |stats| && forall i :: 0 <= i < |stats| ==> dists[i] == Dist(stats[i], cards, mode)
    requires |varCounts| == |stats| && forall i :: 0 <= i < |stats| ==> varCounts[i] == VarCount(stats[i], cards, mode)
    requires hasVar == HasVar(stats, cards, mode)
    ensures rows == TableRows(stats, cards, mode)
    ensures keys == TableKeys(stats, cards, mode)
  {
    assert dists == TableDists(stats, cards, mode);
    var vals := CollectValues(dists);
    var sortedVals := SortedInts(vals);
    keys := ValueColumns(sortedVals);
    if hasVar {
      keys := [Unknown] + keys;
    }
    assert sortedVals == TableValues(stats, cards, mode);
    ghost var table := TableRows(stats, cards, mode);
    rows := [];
    for i := 0 to |stats|
      invariant rows == table[..i]
    {
      var row := FillRow(RowName(stats[i]), RowColor(stats[i]), dists[i], varCounts[i], sortedVals, hasVar);
      assert row == table[i] by {
        assert dists[i] == Dist(stats[i], cards, mode);
      }
      Seqs.PrefixSnoc(table, i);
      rows := rows + [row];
    }
    Seqs.PrefixAll(table);
  }

  /** `buildEnemyData`: the enemy table, built from the cards whose type is "enemy". */
  method BuildEnemyData(cards: seq<Card>, mode: CountMode) returns (rows: seq<Row>, keys: seq<Column>)
    ensures rows == TableRows(EnemyStats, cards, mode)
    ensures keys == TableKeys(EnemyStats, cards, mode)
  {
    var enemies := Seqs.Filter(cards, IsEnemy);
    var health := StatDistribution(enemies, Health, mode);
    var fight := StatDistribution(enemies, Fight, mode);
    var evade := StatDistribution(enemies, Evade, mode);
    var damage := StatDistribution(enemies, Damage, mode);
    var horror := StatDistribution(enemies, Horror, mode);
    var victory := StatDistribution(enemies, EnemyVictory, mode);
    var dists := [health, fight, evade, damage, horror, victory];
    var varCounts := EnemyVarCounts(enemies, mode);
    EnemyDistList(enemies, mode, dists);
    EnemyDists(cards, mode, dists);
    EnemyVarCountsAre(cards, mode, varCounts);
    var hasVar := exists j | 0 <= j < |varCounts| :: varCounts[j] > 0;
    rows, keys := AssembleTable(EnemyStats, cards, mode, dists, varCounts, hasVar);
  }

  /** The six distributions `buildEnemyData` lists are those of the enemy stats, in table order. */
  lemma EnemyDistList(enemies: seq<Card>, mode: CountMode, dists: seq<Assoc.Entries<int, int>>)
    requires dists == [Accumulate(ValueWeights(enemies, Health, mode)), Accumulate(ValueWeights(enemies, Fight, mode)),
                       Accumulate(ValueWeights(enemies, Evade, mode)), Accumulate(ValueWeights(enemies, Damage, mode)),
                       Accumulate(ValueWeights(enemies, Horror, mode)), Accumulate(ValueWeights(enemies, EnemyVictory, mode))]
    ensures |dists| == |EnemyStats|
    ensures forall i :: 0 <= i < |EnemyStats| ==> dists[i] == Accumulate(ValueWeights(enemies, EnemyStats[i], mode))
  {
    forall i | 0 <= i < |EnemyStats|
      ensures dists[i] == Accumulate(ValueWeights(enemies, EnemyStats[i], mode))
    {
      if i == 0 {
      } else if i == 1 {
      } else if i == 2 {
      } else if i == 3 {
      } else if i == 4 {
      } else {
        assert i == 5;
      }
    }
  }

  /** The enemy table's distributions, in terms of the enemies `buildEnemyData` builds them from. */
  lemma EnemyDists(cards: seq<Card>, mode: CountMode, dists: seq<Assoc.Entries<int, int>>)
    requires |dists| == |EnemyStats|
    requires forall i :: 0 <= i < |EnemyStats| ==> dists[i] == Accumulate(ValueWeights(Seqs.Filter(cards, IsEnemy), EnemyStats[i], mode))
    ensures forall i :: 0 <= i < |EnemyStats| ==> dists[i] == Dist(EnemyStats[i], cards, mode)
  {
    EnemyRowCards(cards);
  }

  /** The enemy table's "?" counts, in terms of the enemies `buildEnemyData` counts them over. */
  lemma EnemyVarCountsAre(cards: seq<Card>, mode: CountMode, varCounts: seq<int>)
    requires |varCounts| == |EnemyStats|
    requires forall j :: 0 <= j < |EnemyStats| ==> varCounts[j] == VarTotal(Seqs.Filter(cards, IsEnemy), EnemyStats[j], mode)
    ensures forall j :: 0 <= j < |EnemyStats| ==> varCounts[j] == VarCount(EnemyStats[j], cards, mode)
  {
    EnemyRowCards(cards);
  }

  /** The `varCount` loop of `buildEnemyData`: one pass over the enemies bumping each row's "?" count. */
  method EnemyVarCounts(enemies: seq<Card>, mode: CountMode) returns (varCounts: seq<int>)
    ensures |varCounts| == |EnemyStats|
    ensures forall j :: 0 <= j < |EnemyStats| ==> varCounts[j] == VarTotal(enemies, EnemyStats[j], mode)
  {
    var health, fight, evade, damage, horror := 0, 0, 0, 0, 0;
    for i := 0 to |enemies|
      invariant health == VarTotal(enemies[..i], Health, mode)
      invariant fight == VarTotal(enemies[..i], Fight, mode)
      invariant evade == VarTotal(enemies[..i], Evade, mode)
      invariant damage == VarTotal(enemies[..i], Damage, mode)
      invariant horror == VarTotal(enemies[..i], Horror, mode)
    {
      var c := enemies[i];
      var w := Weight(c, mode);
      assert IsVarBucket(Health, c) == IsVarHealth(c) && IsVarBucket(Fight, c) == IsVariable(c.enemyFight);
      assert IsVarBucket(Evade, c) == IsVariable(c.enemyEvade) && IsVarBucket(Damage, c) == IsNegative(c.enemyDamage);
      assert IsVarBucket(Horror, c) == IsNegative(c.enemyHorror);
      VarTotalSnoc(enemies, Health, mode, i);
      VarTotalSnoc(enemies, Fight, mode, i);
      VarTotalSnoc(enemies, Evade, mode, i);
      VarTotalSnoc(enemies, Damage, mode, i);
      VarTotalSnoc(enemies, Horror, mode, i);
      if IsVarHealth(c) {
        health := health + w;
      }
      if IsVariable(c.enemyFight) {
        fight := fight + w;
      }
      if IsVariable(c.enemyEvade) {
        evade := evade + w;
      }
      if IsNegative(c.enemyDamage) {
        damage := damage + w;
      }
      if IsNegative(c.enemyHorror) {
        horror := horror + w;
      }
    }
    Seqs.PrefixAll(enemies);
    NoVarRule(enemies, EnemyVictory, mode);
    varCounts := [health, fight, evade, damage, horror, 0];
  }

  /** Every row of the enemy table is built from the enemies. */
  lemma EnemyRowCards(cards: seq<Card>)
    ensures forall j :: 0 <= j < |EnemyStats| ==> RowCards(EnemyStats[j], cards) == Seqs.Filter(cards, IsEnemy)
  {
    forall j | 0 <= j < |EnemyStats|
      ensures RowCards(EnemyStats[j], cards) == Seqs.Filter(cards, IsEnemy)
    {
      var s := EnemyStats[j];
      assert s !in {Shroud, LocationVictory, Clues, CluesPp};
    }
  }

  /** The Shroud and Victory rows read the locations; the clue rows read the fixed and per-investigator clue locations. */
  lemma LocationRowCards(cards: seq<Card>)
    ensures RowCards(LocationStats[0], cards) == Seqs.Filter(cards, IsLocation)
    ensures RowCards(LocationStats[1], cards) == Seqs.Filter(Seqs.Filter(cards, IsLocation), FixedClues)
    ensures RowCards(LocationStats[2], cards) == Seqs.Filter(Seqs.Filter(cards, IsLocation), PerInvestigatorClues)
    ensures RowCards(LocationStats[3], cards) == Seqs.Filter(cards, IsLocation)
  {
  }

  /** A table whose rows other than row `j` count nothing as "?" has a "?" column exactly when row `j` counts something. */
  lemma HasVarOnly(stats: seq<Stat>, cards: seq<Card>, mode: CountMode, j: int)
    requires 0 <= j < |stats|
    requires forall i :: 0 <= i < |stats| && i != j ==> VarCount(stats[i], cards, mode) == 0
    ensures HasVar(stats, cards, mode) <==> VarCount(stats[j], cards, mode) > 0
  {
  }

  /** A row with no "?" rule counts nothing as "?". */
  lemma {:induction false} NoVarRule(cards: seq<Card>, s: Stat, mode: CountMode)
    requires !CountsUnknown(s)
    ensures VarTotal(cards, s, mode) == 0
    decreases |cards|
  {
    if cards != [] {
      NoVarRule(cards[..|cards| - 1], s, mode);
    }
  }

  /**
   * `buildLocationData`: the location table. Fixed clues and clues per
   * investigator get a row each; only the Shroud row has a "?" count.
   */
  method BuildLocationData(cards: seq<Card>, mode: CountMode) returns (rows: seq<Row>, keys: seq<Column>)
    ensures rows == TableRows(LocationStats, cards, mode)
    ensures keys == TableKeys(LocationStats, cards, mode)
  {
    var locations := Seqs.Filter(cards, IsLocation);
    var fixedClues := Seqs.Filter(locations, FixedClues);
    var perPlayerClues := Seqs.Filter(locations, PerInvestigatorClues);
    var shroudDist := StatDistribution(locations, Shroud, mode);
    var fixedClueDist := StatDistribution(fixedClues, Clues, mode);
    var perPlayerClueDist := StatDistribution(perPlayerClues, CluesPp, mode);
    var victoryDist := StatDistribution(locations, LocationVictory, mode);
    var shroudVarCount := ShroudVarCount(locations, mode);
    var hasVar := shroudVarCount > 0;
    var dists := [shroudDist, fixedClueDist, perPlayerClueDist, victoryDist];
    LocationDists(cards, mode, locations, fixedClues, perPlayerClues, dists);
    LocationVarCounts(cards, mode, shroudVarCount);
    rows, keys := AssembleTable(LocationStats, cards, mode, dists, [shroudVarCount, 0, 0, 0], hasVar);
  }

  /** The `shroudVarCount` loop of `buildLocationData`. */
  method ShroudVarCount(locations: seq<Card>, mode: CountMode) returns (count: int)
    ensures count == VarTotal(locations, Shroud, mode)
  {
    count := 0;
    for i := 0 to |locations|
      invariant count == VarTotal(locations[..i], Shroud, mode)
    {
      VarTotalSnoc(locations, Shroud, mode, i);
      if IsVariable(locations[i].shroud) {
        count := count + if mode == Total then locations[i].quantity else 1;
      }
    }
    Seqs.PrefixAll(locations);
  }

  /** The location table's distributions, in terms of the lists `buildLocationData` builds them from. */
  lemma LocationDists(cards: seq<Card>, mode: CountMode, locations: seq<Card>, fixedClues: seq<Card>,
                      perPlayerClues: seq<Card>, dists: seq<Assoc.Entries<int, int>>)
    requires locations == Seqs.Filter(cards, IsLocation)
    requires fixedClues == Seqs.Filter(locations, FixedClues) && perPlayerClues == Seqs.Filter(locations, PerInvestigatorClues)
    requires dists == [Accumulate(ValueWeights(locations, Shroud, mode)), Accumulate(ValueWeights(fixedClues, Clues, mode)),
                       Accumulate(ValueWeights(perPlayerClues, CluesPp, mode)), Accumulate(ValueWeights(locations, LocationVictory, mode))]
    ensures |dists| == |LocationStats| && forall i :: 0 <= i < |LocationStats| ==> dists[i] == Dist(LocationStats[i], cards, mode)
  {
    DistOf(Shroud, cards, mode, locations, dists[0]);
    DistOf(Clues, cards, mode, fixedClues, dists[1]);
    DistOf(CluesPp, cards, mode, perPlayerClues, dists[2]);
    VictoryRowCards(cards);
    DistOf(LocationVictory, cards, mode, locations, dists[3]);
    FourDists(LocationStats, cards, mode, dists);
  }

  /** Both location rows without a clue filter count every location. */
  lemma VictoryRowCards(cards: seq<Card>)
    ensures RowCards(LocationVictory, cards) == RowCards(Shroud, cards) == Seqs.Filter(cards, IsLocation)
  {
  }

  /** Four distributions, each that of its row, are the table's distributions. */
  lemma FourDists(stats: seq<Stat>, cards: seq<Card>, mode: CountMode, dists: seq<Assoc.Entries<int, int>>)
    requires |stats| == 4 && |dists| == 4
    requires dists[0] == Dist(stats[0], cards, mode) && dists[1] == Dist(stats[1], cards, mode)
    requires dists[2] == Dist(stats[2], cards, mode) && dists[3] == Dist(stats[3], cards, mode)
    ensures forall i :: 0 <= i < |stats| ==> dists[i] == Dist(stats[i], cards, mode)
  {
  }

  /** A distribution accumulated over a row's cards is that row's distribution. */
  lemma DistOf(s: Stat, cards: seq<Card>, mode: CountMode, rows: seq<Card>, d: Assoc.Entries<int, int>)
    requires RowCards(s, cards) == rows && d == Accumulate(ValueWeights(rows, s, mode))
    ensures d == Dist(s, cards, mode)
  {
  }

  /**
   * Only the Shroud row of the location table has a "?" count, so the table
   * has a "?" column exactly when that count is positive.
   */
  lemma LocationVarCounts(cards: seq<Card>, mode: CountMode, shroudVarCount: int)
    requires shroudVarCount == VarTotal(Seqs.Filter(cards, IsLocation), Shroud, mode)
    ensures var varCounts := [shroudVarCount, 0, 0, 0];
      forall i :: 0 <= i < |LocationStats| ==> varCounts[i] == VarCount(LocationStats[i], cards, mode)
    ensures shroudVarCount > 0 <==> HasVar(LocationStats, cards, mode)
  {
    LocationNoVar(cards, mode);
    ShroudRowVar(cards, mode);
    VarCountsOfFirst(LocationStats, cards, mode, shroudVarCount);
  }

  /** When only the first of four rows counts "?", the counts are that row's and three zeros. */
  lemma VarCountsOfFirst(stats: seq<Stat>, cards: seq<Card>, mode: CountMode, first: int)
    requires |stats| == 4 && VarCount(stats[0], cards, mode) == first
    requires forall i :: 0 <= i < |stats| && i != 0 ==> VarCount(stats[i], cards, mode) == 0
    ensures forall i :: 0 <= i < |stats| ==> [first, 0, 0, 0][i] == VarCount(stats[i], cards, mode)
    ensures first > 0 <==> HasVar(stats, cards, mode)
  {
    HasVarOnly(stats, cards, mode, 0);
  }

  /** The Shroud row's "?" count is the `shroudVarCount` loop's. */
  lemma ShroudRowVar(cards: seq<Card>, mode: CountMode)
    ensures VarCount(LocationStats[0], cards, mode) == VarTotal(Seqs.Filter(cards, IsLocation), Shroud, mode)
  {
    assert LocationStats[0] == Shroud;
  }

  /** The rows of the location table other than Shroud count nothing as "?". */
  lemma LocationNoVar(cards: seq<Card>, mode: CountMode)
    ensures forall i :: 0 <= i < |LocationStats| && i != 0 ==> VarCount(LocationStats[i], cards, mode) == 0
  {
    forall i | 0 <= i < |LocationStats| && i != 0
      ensures VarCount(LocationStats[i], cards, mode) == 0
    {
      NoVarRule(RowCards(LocationStats[i], cards), LocationStats[i], mode);
    }
  }

  // ---------------------------------------------------------------- what the tables show

  /** The rows with a "?" rule of their own; the others count nothing as "?". */
  predicate CountsUnknown(s: Stat)
  {
    s in {Health, Fight, Evade, Damage, Horror, Shroud}
  }

  /**
   * Every card of a row lands in exactly one column of it, and the cards
   * of every row with a "?" rule that the rule picks land in "?".
   */
  lemma BucketTotal(s: Stat, c: Card)
    requires s in EnemyStats || s == Shroud || s == LocationVictory
    ensures Bucket(s, c).Some?
    ensures Bucket(s, c) == Some(Unknown) <==> IsVarBucket(s, c)
  {
  }

  /** The cells of a table row: one per value, and "?" when the table has that column. */
  lemma TableRowCells(stats: seq<Stat>, cards: seq<Card>, mode: CountMode, i: int)
    requires 0 <= i < |stats|
    ensures var cells := Cells(Dist(stats[i], cards, mode), TableValues(stats, cards, mode));
      TableRows(stats, cards, mode)[i].cells ==
        if HasVar(stats, cards, mode) then cells[Unknown := VarCount(stats[i], cards, mode)] else cells
  {
  }

  /**
   * Every row has a cell for every column key and for no other column; the
   * cell of a column holds the summed weight of the row's cards landing in
   * that column.
   */
  lemma TableCell(stats: seq<Stat>, cards: seq<Card>, mode: CountMode, i: int, k: Column)
    requires 0 <= i < |stats|
    ensures k in TableRows(stats, cards, mode)[i].cells <==> k in TableKeys(stats, cards, mode)
    ensures k in TableKeys(stats, cards, mode) ==>
      TableRows(stats, cards, mode)[i].cells[k] == CellWeight(RowCards(stats[i], cards), stats[i], mode, k)
  {
    var s := stats[i];
    var vals := TableValues(stats, cards, mode);
    var dist := Dist(s, cards, mode);
    TableRowCells(stats, cards, mode, i);
    CellsDomain(dist, vals, k);
    if k.Value? && k.n in vals {
      CellsValue(dist, vals, k.n);
      DistributionGet(RowCards(s, cards), s, mode, k.n);
    }
    VarTotalIsCell(RowCards(s, cards), s, mode);
  }

  /** A positive "?" total comes from some card the rule picks. */
  lemma {:induction false} VarTotalWitness(cards: seq<Card>, s: Stat, mode: CountMode)
    requires VarTotal(cards, s, mode) != 0
    ensures exists j :: 0 <= j < |cards| && IsVarBucket(s, cards[j])
    decreases |cards|
  {
    var init := cards[..|cards| - 1];
    if !IsVarBucket(s, cards[|cards| - 1]) {
      VarTotalWitness(init, s, mode);
      var j :| 0 <= j < |init| && IsVarBucket(s, init[j]);
      assert cards[j] == init[j];
    }
  }

  /** With no negative weights, a card the rule picks with a positive weight makes the "?" total positive. */
  lemma {:induction false} VarTotalPositive(cards: seq<Card>, s: Stat, mode: CountMode, c: Card)
    requires forall x :: x in cards ==> Weight(x, mode) >= 0
    ensures VarTotal(cards, s, mode) >= 0
    ensures c in cards && IsVarBucket(s, c) && Weight(c, mode) > 0 ==> VarTotal(cards, s, mode) > 0
    decreases |cards|
  {
    if cards != [] {
      var init := cards[..|cards| - 1];
      assert forall x :: x in init ==> x in cards;
      VarTotalPositive(init, s, mode, c);
      assert cards == init + [cards[|cards| - 1]];
    }
  }

  /** The "?" key comes from a card some row counts as "?". */
  lemma UnknownKeySound(stats: seq<Stat>, cards: seq<Card>, mode: CountMode)
    requires HasVar(stats, cards, mode)
    ensures exists i, c :: 0 <= i < |stats| && c in RowCards(stats[i], cards) && Bucket(stats[i], c) == Some(Unknown)
  {
    var i :| 0 <= i < |stats| && VarCount(stats[i], cards, mode) > 0;
    var rc := RowCards(stats[i], cards);
    VarTotalWitness(rc, stats[i], mode);
    var j :| 0 <= j < |rc| && IsVarBucket(stats[i], rc[j]);
    assert Bucket(stats[i], rc[j]) == Some(Unknown);
  }

  /** A numeric key comes from a card of some row that lands in its column. */
  lemma ValueKeySound(stats: seq<Stat>, cards: seq<Card>, mode: CountMode, n: int)
    requires n in ValuesOf(TableDists(stats, cards, mode))
    ensures exists i, c :: 0 <= i < |stats| && c in RowCards(stats[i], cards) && Bucket(stats[i], c) == Some(Value(n))
  {
    var dists := TableDists(stats, cards, mode);
    ValuesOfMembers(dists, n);
    var i :| 0 <= i < |dists| && n in Assoc.Keys(dists[i]);
    var c := RowValueWitness(stats[i], cards, mode, n);
  }

  /** A value of a row's distribution is the column of some card of the row. */
  lemma RowValueWitness(s: Stat, cards: seq<Card>, mode: CountMode, n: int) returns (c: Card)
    requires n in Assoc.Keys(Dist(s, cards, mode))
    ensures c in RowCards(s, cards) && Bucket(s, c) == Some(Value(n))
  {
    var rc := RowCards(s, cards);
    DistributionGet(rc, s, mode, n);
    var j :| 0 <= j < |rc| && BucketValue(s, rc[j]) == Some(n);
    c := rc[j];
    if IsVarBucket(s, c) {
      VarBucketHasNoValue(s, c);
    }
  }

  /** Every column key is the column of some card of some row. */
  lemma KeysSound(stats: seq<Stat>, cards: seq<Card>, mode: CountMode, k: Column)
    requires k in TableKeys(stats, cards, mode)
    ensures exists i, c :: 0 <= i < |stats| && c in RowCards(stats[i], cards) && Bucket(stats[i], c) == Some(k)
  {
    if k.Unknown? {
      UnknownKeySound(stats, cards, mode);
    } else {
      ValueKeySound(stats, cards, mode, k.n);
    }
  }

  /**
   * The column of every card of every row is among the keys: a numeric one
   * always, "?" when the card has a positive weight and no card a negative one.
   */
  lemma KeysComplete(stats: seq<Stat>, cards: seq<Card>, mode: CountMode, i: int, c: Card)
    requires 0 <= i < |stats| && c in RowCards(stats[i], cards) && Bucket(stats[i], c).Some?
    requires Bucket(stats[i], c) == Some(Unknown) ==> Weight(c, mode) > 0 && forall x :: x in cards ==> Weight(x, mode) >= 0
    ensures Bucket(stats[i], c).value in TableKeys(stats, cards, mode)
  {
    var s := stats[i];
    var rc := RowCards(s, cards);
    var k := Bucket(s, c).value;
    if k.Unknown? {
      VarTotalPositive(rc, s, mode, c);
      assert VarCount(s, cards, mode) > 0;
    } else {
      var j :| 0 <= j < |rc| && rc[j] == c;
      DistributionGet(rc, s, mode, k.n);
      var dists := TableDists(stats, cards, mode);
      ValuesOfMembers(dists, k.n);
    }
  }

  // ---------------------------------------------------------------- cells and stat filters

  /** The summed weight of the cards the stat filter `s = text` keeps. */
  function KeptWeight(cards: seq<Card>, s: Stat, mode: CountMode, text: string): int
    decreases |cards|
  {
    if cards == [] then 0
    else
      var c := cards[|cards| - 1];
      KeptWeight(cards[..|cards| - 1], s, mode, text) + (if StatKeeps(s, text, c) then Weight(c, mode) else 0)
  }

  /**
   * A cell and the stat filter its click sets pick the same cards: the
   * filter `s = text(k)` keeps a card exactly when it is in the row of `s`
   * and lands in column `k` (for "?", in rows with a "?" rule).
   */
  lemma CellMatchesFilter(s: Stat, c: Card, k: Column)
    requires k.Value? || CountsUnknown(s)
    ensures StatKeeps(s, ColumnText(k), c) <==> InRow(s, c) && Bucket(s, c) == Some(k)
  {
    if k.Value? {
      JsNumbers.ParseDecimal(k.n);
      assert ColumnText(k) != "?" by {
        assert ColumnText(k)[0] != '?';
      }
      CellMatchesValue(s, c, ColumnText(k), k.n);
    } else {
      CellMatchesUnknown(s, c);
    }
  }

  lemma CellMatchesUnknown(s: Stat, c: Card)
    requires CountsUnknown(s)
    ensures StatKeeps(s, "?", c) <==> InRow(s, c) && Bucket(s, c) == Some(Unknown)
  {
  }

  lemma CellMatchesValue(s: Stat, c: Card, value: string, n: int)
    requires value != "?" && JsNumbers.ParseInt(value) == Some(n)
    ensures StatKeeps(s, value, c) <==> InRow(s, c) && Bucket(s, c) == Some(Value(n))
  {
    if IsVarBucket(s, c) {
      VarBucketHasNoValue(s, c);
    }
  }

  /** The summed weight of the cards `keep` picks. */
  function WeightWhere(cards: seq<Card>, keep: Card -> bool, mode: CountMode): int
    decreases |cards|
  {
    if cards == [] then 0
    else
      var c := cards[|cards| - 1];
      WeightWhere(cards[..|cards| - 1], keep, mode) + (if keep(c) then Weight(c, mode) else 0)
  }

  lemma WeightWhereSnoc(cards: seq<Card>, c: Card, keep: Card -> bool, mode: CountMode)
    ensures WeightWhere(cards + [c], keep, mode) == WeightWhere(cards, keep, mode) + (if keep(c) then Weight(c, mode) else 0)
  {
    assert (cards + [c])[..|cards|] == cards;
  }

  /**
   * Picking with `keep` among the cards a pre-filter `p` passes is picking
   * with `picked` among all of them, when `picked` is `p` and `keep` together.
   */
  lemma {:induction false} WeightWhereFilter(cards: seq<Card>, p: Card -> bool, keep: Card -> bool, picked: Card -> bool, mode: CountMode)
    requires forall c :: c in cards ==> (p(c) && keep(c) <==> picked(c))
    ensures WeightWhere(Seqs.Filter(cards, p), keep, mode) == WeightWhere(cards, picked, mode)
    decreases |cards|
  {
    if cards != [] {
      var init := cards[..|cards| - 1];
      var c := cards[|cards| - 1];
      var kept := Seqs.Filter(init, p);
      assert cards == init + [c];
      WeightWhereFilter(init, p, keep, picked, mode);
      WeightWhereSnoc(init, c, picked, mode);
      Seqs.FilterSnoc(init, c, p);
      if p(c) {
        WeightWhereSnoc(kept, c, keep, mode);
        assert Seqs.Filter(cards, p) == kept + [c];
      } else {
        assert Seqs.Filter(cards, p) == kept;
        assert !picked(c);
      }
    }
  }

  /** A column's weight is the weight of the cards landing in it. */
  lemma {:induction false} CellWeightWhere(cards: seq<Card>, s: Stat, mode: CountMode, k: Column, keep: Card -> bool)
    requires forall c :: keep(c) <==> Bucket(s, c) == Some(k)
    ensures CellWeight(cards, s, mode, k) == WeightWhere(cards, keep, mode)
    decreases |cards|
  {
    if cards != [] {
      CellWeightWhere(cards[..|cards| - 1], s, mode, k, keep);
    }
  }

  /** The weight a stat filter keeps is the weight of the cards it keeps. */
  lemma {:induction false} KeptWeightWhere(cards: seq<Card>, s: Stat, mode: CountMode, text: string, keep: Card -> bool)
    requires forall c :: keep(c) <==> StatKeeps(s, text, c)
    ensures KeptWeight(cards, s, mode, text) == WeightWhere(cards, keep, mode)
    decreases |cards|
  {
    if cards != [] {
      KeptWeightWhere(cards[..|cards| - 1], s, mode, text, keep);
    }
  }

  /** Counting the cards a filter keeps, after a pre-filter that the row's cells agree with. */
  lemma CellWeightFilter(cards: seq<Card>, p: Card -> bool, s: Stat, mode: CountMode, k: Column, text: string)
    requires forall c :: c in cards ==> (p(c) && Bucket(s, c) == Some(k) <==> StatKeeps(s, text, c))
    ensures CellWeight(Seqs.Filter(cards, p), s, mode, k) == KeptWeight(cards, s, mode, text)
  {
    var inCell := (c: Card) => Bucket(s, c) == Some(k);
    var keeps := (c: Card) => StatKeeps(s, text, c);
    CellWeightWhere(Seqs.Filter(cards, p), s, mode, k, inCell);
    KeptWeightWhere(cards, s, mode, text, keeps);
    WeightWhereFilter(cards, p, inCell, keeps, mode);
  }

  /** A pre-filter that passes every card the stat filter keeps does not change what it keeps. */
  lemma KeptWeightFilter(cards: seq<Card>, p: Card -> bool, s: Stat, mode: CountMode, text: string)
    requires forall c :: c in cards && StatKeeps(s, text, c) ==> p(c)
    ensures KeptWeight(Seqs.Filter(cards, p), s, mode, text) == KeptWeight(cards, s, mode, text)
  {
    var keeps := (c: Card) => StatKeeps(s, text, c);
    KeptWeightWhere(Seqs.Filter(cards, p), s, mode, text, keeps);
    KeptWeightWhere(cards, s, mode, text, keeps);
    WeightWhereFilter(cards, p, keeps, keeps, mode);
  }

  /**
   * Clicking a cell shows exactly the cards it counts: the weight in column
   * `k` of the row of `s` is the summed weight of the cards the stat filter
   * `s = text(k)` keeps. A row without a "?" rule counts nothing as "?", so
   * its "?" cell is 0 and cannot be clicked.
   */
  lemma CellIsFilterWeight(s: Stat, cards: seq<Card>, mode: CountMode, k: Column)
    ensures k.Value? || CountsUnknown(s) ==>
      CellWeight(RowCards(s, cards), s, mode, k) == KeptWeight(cards, s, mode, ColumnText(k))
    ensures !CountsUnknown(s) ==> CellWeight(RowCards(s, cards), s, mode, Unknown) == 0
  {
    if !CountsUnknown(s) {
      VarTotalIsCell(RowCards(s, cards), s, mode);
      NoVarRule(RowCards(s, cards), s, mode);
    }
    if k.Value? || CountsUnknown(s) {
      KeptCellWeight(s, cards, mode, k);
    }
  }

  lemma KeptCellWeight(s: Stat, cards: seq<Card>, mode: CountMode, k: Column)
    requires k.Value? || CountsUnknown(s)
    ensures CellWeight(RowCards(s, cards), s, mode, k) == KeptWeight(cards, s, mode, ColumnText(k))
  {
    var text := ColumnText(k);
    forall c | c in cards
      ensures StatKeeps(s, text, c) <==> InRow(s, c) && Bucket(s, c) == Some(k)
    {
      CellMatchesFilter(s, c, k);
    }
    if s == Clues || s == CluesPp {
      ClueCellWeight(s, cards, mode, k, text);
    } else {
      TypedCellWeight(s, cards, mode, k, text);
    }
  }

  /** The clue rows: a filter on the locations, which the stat filter's own type test repeats. */
  lemma ClueCellWeight(s: Stat, cards: seq<Card>, mode: CountMode, k: Column, text: string)
    requires s == Clues || s == CluesPp
    requires forall c :: c in cards ==> (StatKeeps(s, text, c) <==> InRow(s, c) && Bucket(s, c) == Some(k))
    ensures CellWeight(RowCards(s, cards), s, mode, k) == KeptWeight(cards, s, mode, text)
  {
    var locations := Seqs.Filter(cards, IsLocation);
    if s == Clues {
      CellWeightFilter(locations, FixedClues, s, mode, k, text);
    } else {
      CellWeightFilter(locations, PerInvestigatorClues, s, mode, k, text);
    }
    KeptWeightFilter(cards, IsLocation, s, mode, text);
  }

  /** The other rows: the cards of the row's type. */
  lemma TypedCellWeight(s: Stat, cards: seq<Card>, mode: CountMode, k: Column, text: string)
    requires s != Clues && s != CluesPp
    requires forall c :: c in cards ==> (StatKeeps(s, text, c) <==> InRow(s, c) && Bucket(s, c) == Some(k))
    ensures CellWeight(RowCards(s, cards), s, mode, k) == KeptWeight(cards, s, mode, text)
  {
    if StatTypeCode(s) == "enemy" {
      CellWeightFilter(cards, IsEnemy, s, mode, k, text);
    } else {
      CellWeightFilter(cards, IsLocation, s, mode, k, text);
    }
  }

  /** Every cell of a heat-map table holds the weight of the cards its click would keep. */
  lemma HeatmapCell(stats: seq<Stat>, cards: seq<Card>, mode: CountMode, i: int, k: Column)
    requires 0 <= i < |stats| && k in TableKeys(stats, cards, mode)
    ensures k in TableRows(stats, cards, mode)[i].cells
    ensures k.Value? || CountsUnknown(stats[i]) ==>
      TableRows(stats, cards, mode)[i].cells[k] == KeptWeight(cards, stats[i], mode, ColumnText(k))
    ensures !CountsUnknown(stats[i]) ==> TableRows(stats, cards, mode)[i].cells[k] == 0 || k.Value?
  {
    TableCell(stats, cards, mode, i, k);
    CellIsFilterWeight(stats[i], cards, mode, k);
  }

  /** No location is in both clue rows. */
  lemma ClueRowsDisjoint(cards: seq<Card>, c: Card)
    ensures !(c in RowCards(Clues, cards) && c in RowCards(CluesPp, cards))
  {
  }

  // ---------------------------------------------------------------- remapVictory

  /**
   * `remapVictory`: the active stat filters as a table shows them; the
   * table's victory key becomes the row name "Victory".
   */
  function RemapVictory(filters: Option<Assoc.Entries<string, string>>, key: string): (r: Option<Assoc.Entries<string, string>>)
  {
    if filters.None? || key !in Assoc.Keys(filters.value) then filters
    else
      Assoc.GetSome(filters.value, key);
      var val := Assoc.Get(filters.value, key).value;
      Some(Assoc.Set(Assoc.Delete(filters.value, key), "Victory", val))
  }

  /**
   * Without the key the filters come back unchanged; with it, the key is
   * gone, "Victory" holds its value and every other key keeps its own.
   */
  lemma RemapVictoryGet(filters: Option<Assoc.Entries<string, string>>, key: string, x: string)
    ensures filters.None? || key !in Assoc.Keys(filters.value) ==> RemapVictory(filters, key) == filters
    ensures filters.Some? && key in Assoc.Keys(filters.value) ==>
      var r := RemapVictory(filters, key);
      && r.Some?
      && Assoc.Get(r.value, "Victory") == Assoc.Get(filters.value, key)
      && (key != "Victory" ==> Assoc.Get(r.value, key) == None)
      && (x != key && x != "Victory" ==> Assoc.Get(r.value, x) == Assoc.Get(filters.value, x))
  {
    if filters.Some? && key in Assoc.Keys(filters.value) {
      var m := filters.value;
      Assoc.GetSome(m, key);
      var d := Assoc.Delete(m, key);
      var v := Assoc.Get(m, key).value;
      Assoc.GetSet(d, "Victory", v, "Victory");
      Assoc.GetSet(d, "Victory", v, key);
      Assoc.GetSet(d, "Victory", v, x);
      Assoc.GetDelete(m, key, key);
      Assoc.GetDelete(m, key, x);
    }
  }
}
