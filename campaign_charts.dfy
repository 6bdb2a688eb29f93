/**
 * The drill-down of the campaign charts: clicking a bar of the card-type
 * chart or of the trait chart opens a grid of the cards behind that bar,
 * and clicking the same bar again closes it.
 */
module CampaignCharts {
  import opened Wrappers
  import Seqs
  import Strs
  import Traits

  /** A card as the charts receive it. */
  datatype ChartCard = ChartCard(
    code: string,
    name: string,
    typeName: string,
    typeCode: string,
    imageUrl: Option<string>,
    traits: Option<string>)

  /** The selected bar: a card type or a trait name. No selection is `None`. */
  datatype ChartFilter = TypeFilter(value: string) | TraitFilter(value: string)

  /** The trait names of a card's trait text, split at ". ". */
  function ParseTraits(traits: Option<string>): (r: seq<string>)
    ensures traits.None? || traits.value == "" ==> r == []
    ensures forall i :: 0 <= i < |r| ==> r[i] != ""
  {
    Traits.ChartTraitsOf(traits)
  }

  /** Trait text written as the data writes it reads back as its names, in order. */
  lemma ParseTraitsExample()
    ensures ParseTraits(Some("Elite. Abomination.")) == ["Elite", "Abomination"]
  {
    var names := ["Elite", "Abomination"];
    assert Strs.Join(names, ". ") + "." == "Elite. Abomination.";
    Traits.ChartTraitsRoundTrip(names);
  }

  predicate HasType(c: ChartCard, v: string)
  {
    c.typeName == v
  }

  predicate HasTrait(c: ChartCard, v: string)
  {
    v in ParseTraits(c.traits)
  }

  /** Whether a card belongs to the selected bar. */
  predicate Selects(f: ChartFilter, c: ChartCard)
  {
    match f
    case TypeFilter(v) => HasType(c, v)
    case TraitFilter(v) => HasTrait(c, v)
  }

  /** The cards shown in the grid under the chart for a selection. */
  function FilterCards(cards: seq<ChartCard>, filter: Option<ChartFilter>): (r: seq<ChartCard>)
    ensures filter.None? ==> r == []
    ensures Seqs.IsSubseq(r, cards)
    ensures filter.Some? ==> forall c :: c in r <==> c in cards && Selects(filter.value, c)
  {
    if filter.None? then []
    else if filter.value.TypeFilter? then Seqs.Filter(cards, c => HasType(c, filter.value.value))
    else Seqs.Filter(cards, c => HasTrait(c, filter.value.value))
  }

  /** The selection after a click: the clicked bar, or none when it was already selected. */
  function ToggleFilter(prev: Option<ChartFilter>, next: Option<ChartFilter>): (r: Option<ChartFilter>)
    ensures r.Some? <==> next.Some? && prev != next
    ensures r.Some? ==> r == next
  {
    if prev == next then None else next
  }

  /** Clicking the same bar twice from no selection leaves no selection. */
  lemma ToggleTwice(f: ChartFilter)
    ensures ToggleFilter(ToggleFilter(None, Some(f)), Some(f)) == None
    ensures ToggleFilter(None, Some(f)) == Some(f)
  {
  }

  /** The bar highlighted in the type chart, and the one in the trait chart. */
  function SelectedType(filter: Option<ChartFilter>): (r: Option<string>)
    ensures r.Some? <==> filter.Some? && filter.value.TypeFilter?
    ensures r.Some? ==> r.value == filter.value.value
  {
    if filter.Some? && filter.value.TypeFilter? then Some(filter.value.value) else None
  }

  function SelectedTrait(filter: Option<ChartFilter>): (r: Option<string>)
    ensures r.Some? <==> filter.Some? && filter.value.TraitFilter?
    ensures r.Some? ==> r.value == filter.value.value
  {
    if filter.Some? && filter.value.TraitFilter? then Some(filter.value.value) else None
  }

  /** The charts component: its cards and its one piece of drill-down state. */
  class Charts {
    const cards: seq<ChartCard>
    var filter: Option<ChartFilter>

    constructor (cards: seq<ChartCard>)
      ensures this.cards == cards && filter.None?
    {
      this.cards := cards;
      filter := None;
    }

    /** The grid's cards for the current selection. */
    function Filtered(): (r: seq<ChartCard>)
      reads this
      ensures Seqs.IsSubseq(r, cards)
      ensures filter.None? ==> r == []
      ensures filter.Some? ==> forall c :: c in r <==> c in cards && Selects(filter.value, c)
    {
      FilterCards(cards, filter)
    }

    /** A click on a bar. */
    method Toggle(next: Option<ChartFilter>)
      modifies this
      ensures filter == ToggleFilter(old(filter), next)
      ensures filter.None? ==> Filtered() == []
    {
      filter := ToggleFilter(filter, next);
    }

    /** The grid's close button. */
    method Close()
      modifies this
      ensures filter.None? && Filtered() == []
    {
      filter := None;
    }
  }

  /**
   * After a click on a bar that was not selected, that bar is highlighted in
   * its own chart and nothing is highlighted in the other.
   */
  lemma ClickHighlights(prev: Option<ChartFilter>, f: ChartFilter)
    requires prev != Some(f)
    ensures f.TypeFilter? ==>
              SelectedType(ToggleFilter(prev, Some(f))) == Some(f.value) && SelectedTrait(ToggleFilter(prev, Some(f))).None?
    ensures f.TraitFilter? ==>
              SelectedTrait(ToggleFilter(prev, Some(f))) == Some(f.value) && SelectedType(ToggleFilter(prev, Some(f))).None?
  {
  }
}
