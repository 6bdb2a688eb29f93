/**
 * The card loader of the database seeder: the decoder of one card record of
 * the card dump (quantity defaulting to 1, traits split into names) and the
 * grouping of the decoded cards into encounter sets.
 */
module CardData {
  import opened Wrappers
  import Seqs
  import Traits

  /**
   * A card record as it comes out of the dump; an absent field is `None`.
   * `backText` is not checked by the decoder but passes through it unchanged.
   */
  datatype RawCard = RawCard(
    code: string,
    factionCode: string,
    factionName: string,
    typeCode: string,
    typeName: string,
    name: string,
    realName: Option<string>,
    encounterCode: Option<string>,
    encounterName: Option<string>,
    encounterPosition: Option<int>,
    position: Option<int>,
    text: Option<string>,
    backText: Option<string>,
    flavor: Option<string>,
    packCode: Option<string>,
    packName: Option<string>,
    quantity: Option<int>,
    url: string,
    imagesrc: Option<string>,
    backimagesrc: Option<string>,
    backFlavor: Option<string>,
    traits: Option<string>)

  datatype Card = Card(
    code: string,
    factionCode: string,
    factionName: string,
    typeCode: string,
    typeName: string,
    name: string,
    realName: Option<string>,
    encounterCode: Option<string>,
    encounterName: Option<string>,
    encounterPosition: Option<int>,
    position: Option<int>,
    text: Option<string>,
    backText: Option<string>,
    flavor: Option<string>,
    packCode: Option<string>,
    packName: Option<string>,
    quantity: int,
    url: string,
    imagesrc: Option<string>,
    backimagesrc: Option<string>,
    backFlavor: Option<string>,
    traits: Option<seq<string>>)

  /** A decoded card: a missing quantity is 1 and the trait text becomes its trait names. */
  function Decode(raw: RawCard): (c: Card)
    ensures raw.quantity.None? ==> c.quantity == 1
    ensures raw.quantity.Some? ==> c.quantity == raw.quantity.value
    ensures c.traits.Some? <==> raw.traits.Some?
    ensures c.traits.Some? ==> c.traits.value == Traits.DecoderTraits(raw.traits.value)
    ensures c.code == raw.code && c.encounterCode == raw.encounterCode && c.packCode == raw.packCode
  {
    Card(raw.code, raw.factionCode, raw.factionName, raw.typeCode, raw.typeName, raw.name,
         raw.realName, raw.encounterCode, raw.encounterName, raw.encounterPosition, raw.position,
         raw.text, raw.backText, raw.flavor, raw.packCode, raw.packName, raw.quantity.GetOr(1), raw.url,
         raw.imagesrc, raw.backimagesrc, raw.backFlavor,
         if raw.traits.Some? then Some(Traits.DecoderTraits(raw.traits.value)) else None)
  }

  datatype EncounterSet = EncounterSet(
    encounterCode: string,
    encounterName: Option<string>,
    packCode: string,
    packName: Option<string>,
    cards: seq<Card>,
    cardCount: int)

  /** JavaScript truthiness of an optional string. */
  predicate Truthy(s: Option<string>)
  {
    s.Some? && s.value != ""
  }

  predicate HasEncounter(c: Card)
  {
    Truthy(c.encounterCode)
  }

  predicate HasPack(c: Card)
  {
    Truthy(c.packCode)
  }

  function EncounterOf(c: Card): Option<string>
  {
    c.encounterCode
  }

  function PositionOf(c: Card): Option<int>
  {
    c.encounterPosition
  }

  predicate InSet(c: Card, e: string)
  {
    c.encounterCode == Some(e)
  }

  /** The summed quantity of a list of cards. */
  function SumQuantity(cards: seq<Card>): int
    decreases |cards|
  {
    if cards == [] then 0 else SumQuantity(cards[..|cards| - 1]) + cards[|cards| - 1].quantity
  }

  /** The quantities of the first card at each encounter position, summed. */
  function CardCount(cards: seq<Card>): int
  {
    SumQuantity(Seqs.UniqBy(cards, PositionOf))
  }

  /** A card at an encounter position already counted adds nothing; one at a new position adds its quantity. */
  lemma CardCountSnoc(cards: seq<Card>, c: Card)
    ensures CardCount(cards + [c]) ==
      CardCount(cards) + (if c.encounterPosition in Seqs.KeySet(cards, PositionOf) then 0 else c.quantity)
  {
    Seqs.UniqBySnoc(cards, PositionOf, c);
    var u := Seqs.UniqBy(cards, PositionOf);
    assert PositionOf(c) == c.encounterPosition;
    if c.encounterPosition !in Seqs.KeySet(cards, PositionOf) {
      assert Seqs.UniqBy(cards + [c], PositionOf) == u + [c];
      assert (u + [c])[..|u|] == u;
      assert SumQuantity(u + [c]) == SumQuantity(u) + c.quantity;
    } else {
      assert Seqs.UniqBy(cards + [c], PositionOf) == u;
    }
  }

  /** Cards at pairwise different positions are all counted. */
  lemma {:induction false} CardCountDistinct(cards: seq<Card>)
    requires forall i, j :: 0 <= i < j < |cards| ==> cards[i].encounterPosition != cards[j].encounterPosition
    ensures CardCount(cards) == SumQuantity(cards)
    decreases |cards|
  {
    if cards != [] {
      var init := cards[..|cards| - 1];
      var last := cards[|cards| - 1];
      CardCountDistinct(init);
      assert cards == init + [last];
      CardCountSnoc(init, last);
      assert last.encounterPosition !in Seqs.KeySet(init, PositionOf);
    }
  }

  /** The encounter set built for the first card of its code (the `!` assertions read as a default). */
  function SetOf(c: Card, encounterCards: seq<Card>): EncounterSet
  {
    var e := c.encounterCode.GetOr("");
    var cards := Seqs.Filter(encounterCards, x => InSet(x, e));
    EncounterSet(e, c.encounterName, c.packCode.GetOr(""), c.packName, cards, CardCount(cards))
  }

  /**
   * The shape check the result is meant to pass through: the encounter and
   * pack names must be present.
   */
  predicate DecodesAsSet(es: EncounterSet)
  {
    es.encounterName.Some? && es.packName.Some?
  }

  /**
   * The set decoder also runs the card decoder over the set's cards again.
   * On a decoded card the traits are already a list of names, where that
   * decoder accepts only text, so a card that has traits fails it.
   */
  predicate RedecodesCards(es: EncounterSet)
  {
    forall i :: 0 <= i < |es.cards| ==> es.cards[i].traits.None?
  }

  /** The check as the source performs it: the names, and every card decoding again. */
  predicate DecodesAsSetAsWritten(es: EncounterSet)
  {
    DecodesAsSet(es) && RedecodesCards(es)
  }

  /** `getEncounterSets` as written, whose last filter re-decodes the cards. */
  function GetEncounterSetsAsWritten(cards: seq<Card>): seq<EncounterSet>
  {
    var encounterCards := Seqs.Filter(cards, HasEncounter);
    var firsts := Seqs.UniqBy(encounterCards, EncounterOf);
    var withPack := Seqs.Filter(Seqs.Filter(firsts, HasEncounter), HasPack);
    Seqs.Filter(Seqs.MapSeq(withPack, c => SetOf(c, encounterCards)), DecodesAsSetAsWritten)
  }

  /** The as-written result is the intended one without every set that holds a card with traits. */
  lemma AsWrittenDropsTraited(cards: seq<Card>)
    ensures GetEncounterSetsAsWritten(cards) == Seqs.Filter(GetEncounterSets(cards), RedecodesCards)
  {
    var encounterCards := Seqs.Filter(cards, HasEncounter);
    var firsts := Seqs.UniqBy(encounterCards, EncounterOf);
    var withPack := Seqs.Filter(Seqs.Filter(firsts, HasEncounter), HasPack);
    var sets := Seqs.MapSeq(withPack, c => SetOf(c, encounterCards));
    Seqs.FilterFilter(sets, DecodesAsSet, DecodesAsSetAsWritten);
    Seqs.FilterExt(Seqs.Filter(sets, DecodesAsSet), DecodesAsSetAsWritten, RedecodesCards);
  }

  /**
   * One card with an encounter code, a pack code, both names and traits:
   * the intended result is its set, the as-written result is empty.
   */
  lemma TraitedSetDropped(c: Card)
    requires Kept(c) && c.traits.Some?
    ensures GetEncounterSets([c]) == [SetOf(c, [c])]
    ensures GetEncounterSetsAsWritten([c]) == []
  {
    assert Seqs.Filter([c], HasEncounter) == [c];
    assert Seqs.UniqBy([c], EncounterOf) == [c] by {
      Seqs.SubseqMembers(Seqs.UniqBy([c], EncounterOf), [c]);
      Seqs.UniqByKeepsFirsts([c], EncounterOf, 0);
    }
    var es := SetOf(c, [c]);
    assert es.cards == [c] by {
      assert Seqs.Filter([c], x => InSet(x, c.encounterCode.GetOr(""))) == [c];
    }
    assert !RedecodesCards(es);
  }

  /** `getEncounterSets`, stage by stage, with the intended names-only check. */
  function GetEncounterSets(cards: seq<Card>): seq<EncounterSet>
  {
    var encounterCards := Seqs.Filter(cards, HasEncounter);
    var firsts := Seqs.UniqBy(encounterCards, EncounterOf);
    var withPack := Seqs.Filter(Seqs.Filter(firsts, HasEncounter), HasPack);
    Seqs.Filter(Seqs.MapSeq(withPack, c => SetOf(c, encounterCards)), DecodesAsSet)
  }

  /** The cards an encounter set is made from: firsts of their code, with a pack code and both names. */
  predicate Kept(c: Card)
  {
    HasEncounter(c) && HasPack(c) && c.encounterName.Some? && c.packName.Some?
  }

  /** The first cards of each code, in input order, that make it into the result. */
  function KeptFirsts(cards: seq<Card>): seq<Card>
  {
    Seqs.Filter(Seqs.UniqBy(Seqs.Filter(cards, HasEncounter), EncounterOf), Kept)
  }

  lemma {:induction false} FilterMapSets(s: seq<Card>, encounterCards: seq<Card>)
    requires forall i :: 0 <= i < |s| ==> HasEncounter(s[i])
    ensures Seqs.Filter(Seqs.MapSeq(Seqs.Filter(Seqs.Filter(s, HasEncounter), HasPack), c => SetOf(c, encounterCards)), DecodesAsSet)
         == Seqs.MapSeq(Seqs.Filter(s, Kept), c => SetOf(c, encounterCards))
    decreases |s|
  {
    if s != [] {
      FilterMapSets(s[1..], encounterCards);
    }
  }

  /** The result is the encounter set of each kept first card, in input order. */
  lemma GetEncounterSetsShape(cards: seq<Card>)
    ensures GetEncounterSets(cards) == Seqs.MapSeq(KeptFirsts(cards), c => SetOf(c, Seqs.Filter(cards, HasEncounter)))
  {
    var encounterCards := Seqs.Filter(cards, HasEncounter);
    var firsts := Seqs.UniqBy(encounterCards, EncounterOf);
    assert forall x :: x in firsts ==> x in encounterCards by {
      Seqs.SubseqMembers(firsts, encounterCards);
    }
    FilterMapSets(firsts, encounterCards);
  }

  /**
   * The kept cards come in input order; each is the first card of the input
   * with its encounter code; a code is represented exactly when its first
   * card has a pack code and both names.
   */
  lemma KeptFirstsSpec(cards: seq<Card>, e: string)
    requires e != ""
    ensures Seqs.IsSubseq(KeptFirsts(cards), cards)
    ensures forall c :: c in KeptFirsts(cards) ==> Seqs.First(cards, EncounterOf, c.encounterCode) == Some(c)
    ensures (exists c :: c in KeptFirsts(cards) && c.encounterCode == Some(e)) <==>
              Seqs.First(cards, EncounterOf, Some(e)).Some? && Kept(Seqs.First(cards, EncounterOf, Some(e)).value)
  {
    var encounterCards := Seqs.Filter(cards, HasEncounter);
    var firsts := Seqs.UniqBy(encounterCards, EncounterOf);
    Seqs.SubseqTrans(KeptFirsts(cards), firsts, encounterCards);
    Seqs.SubseqTrans(KeptFirsts(cards), encounterCards, cards);
    forall c | c in KeptFirsts(cards) ensures Seqs.First(cards, EncounterOf, c.encounterCode) == Some(c) {
      Seqs.UniqByFirst(encounterCards, EncounterOf, c);
      Seqs.FirstFilter(cards, HasEncounter, EncounterOf, c.encounterCode);
    }
    Seqs.FirstFilter(cards, HasEncounter, EncounterOf, Some(e));
    var f := Seqs.First(cards, EncounterOf, Some(e));
    if f.Some? && Kept(f.value) {
      Seqs.UniqByKeepsFirst(encounterCards, EncounterOf, Some(e));
    }
  }

  /** Each set lists, in input order, every input card with its code, and counts them by position. */
  lemma SetOfSpec(cards: seq<Card>, c: Card)
    requires HasEncounter(c)
    ensures SetOf(c, Seqs.Filter(cards, HasEncounter)).cards == Seqs.Filter(cards, x => InSet(x, c.encounterCode.value))
    ensures SetOf(c, Seqs.Filter(cards, HasEncounter)).cardCount == CardCount(SetOf(c, Seqs.Filter(cards, HasEncounter)).cards)
    ensures SetOf(c, Seqs.Filter(cards, HasEncounter)).encounterCode == c.encounterCode.value
  {
    Seqs.FilterFilter(cards, HasEncounter, x => InSet(x, c.encounterCode.value));
  }

  /**
   * As written, a code has a set exactly when its first card has a pack
   * code and both names and no card with that code has traits.
   */
  lemma AsWrittenSpec(cards: seq<Card>, e: string)
    requires e != ""
    ensures (exists es :: es in GetEncounterSetsAsWritten(cards) && es.encounterCode == e) <==>
              Seqs.First(cards, EncounterOf, Some(e)).Some? && Kept(Seqs.First(cards, EncounterOf, Some(e)).value) &&
              forall c :: c in cards && c.encounterCode == Some(e) ==> c.traits.None?
  {
    if es :| es in GetEncounterSetsAsWritten(cards) && es.encounterCode == e {
      AsWrittenSetOf(cards, e, es);
    }
    var f := Seqs.First(cards, EncounterOf, Some(e));
    if f.Some? && Kept(f.value) && forall c :: c in cards && c.encounterCode == Some(e) ==> c.traits.None? {
      AsWrittenHasSet(cards, e);
    }
  }

  lemma AsWrittenSetOf(cards: seq<Card>, e: string, es: EncounterSet)
    requires e != ""
    requires es in GetEncounterSetsAsWritten(cards) && es.encounterCode == e
    ensures Seqs.First(cards, EncounterOf, Some(e)).Some? && Kept(Seqs.First(cards, EncounterOf, Some(e)).value)
    ensures forall c :: c in cards && c.encounterCode == Some(e) ==> c.traits.None?
  {
    AsWrittenDropsTraited(cards);
    assert es in GetEncounterSets(cards) && RedecodesCards(es);
    IntendedSetOf(cards, e, es);
    NoTraitsOfCode(cards, e, es.cards);
  }

  lemma NoTraitsOfCode(cards: seq<Card>, e: string, listed: seq<Card>)
    requires forall i :: 0 <= i < |listed| ==> listed[i].traits.None?
    requires forall x :: x in cards && x.encounterCode == Some(e) ==> x in listed
    ensures forall x :: x in cards && x.encounterCode == Some(e) ==> x.traits.None?
  {
    forall x | x in cards && x.encounterCode == Some(e)
      ensures x.traits.None?
    {
      var i :| 0 <= i < |listed| && listed[i] == x;
    }
  }

  lemma AsWrittenHasSet(cards: seq<Card>, e: string)
    requires e != ""
    requires Seqs.First(cards, EncounterOf, Some(e)).Some? && Kept(Seqs.First(cards, EncounterOf, Some(e)).value)
    requires forall c :: c in cards && c.encounterCode == Some(e) ==> c.traits.None?
    ensures exists es :: es in GetEncounterSetsAsWritten(cards) && es.encounterCode == e
  {
    var es := IntendedHasSet(cards, e);
    assert RedecodesCards(es) by {
      forall i | 0 <= i < |es.cards|
        ensures es.cards[i].traits.None?
      {
        assert es.cards[i] in es.cards;
      }
    }
    AsWrittenDropsTraited(cards);
  }

  /** A set of the intended result with code `e` comes from a kept first card and lists every card with that code. */
  lemma IntendedSetOf(cards: seq<Card>, e: string, es: EncounterSet)
    requires e != ""
    requires es in GetEncounterSets(cards) && es.encounterCode == e
    ensures Seqs.First(cards, EncounterOf, Some(e)).Some? && Kept(Seqs.First(cards, EncounterOf, Some(e)).value)
    ensures forall x :: x in es.cards <==> x in cards && x.encounterCode == Some(e)
  {
    var c := KeptOfSet(cards, es);
    SetOfSpec(cards, c);
    KeptFirstsSpec(cards, e);
    CardsOfCode(cards, e);
  }

  /** When the first card of code `e` is kept, the intended result has a set for `e` listing every card with that code. */
  lemma IntendedHasSet(cards: seq<Card>, e: string) returns (es: EncounterSet)
    requires e != ""
    requires Seqs.First(cards, EncounterOf, Some(e)).Some? && Kept(Seqs.First(cards, EncounterOf, Some(e)).value)
    ensures es in GetEncounterSets(cards) && es.encounterCode == e
    ensures forall x :: x in es.cards <==> x in cards && x.encounterCode == Some(e)
  {
    KeptFirstsSpec(cards, e);
    var c :| c in KeptFirsts(cards) && c.encounterCode == Some(e);
    SetOfKept(cards, c);
    es := SetOf(c, Seqs.Filter(cards, HasEncounter));
    SetOfSpec(cards, c);
    CardsOfCode(cards, e);
  }

  /** The set of each kept first card is in the intended result. */
  lemma SetOfKept(cards: seq<Card>, c: Card)
    requires c in KeptFirsts(cards)
    ensures SetOf(c, Seqs.Filter(cards, HasEncounter)) in GetEncounterSets(cards)
  {
    GetEncounterSetsShape(cards);
    var k :| 0 <= k < |KeptFirsts(cards)| && KeptFirsts(cards)[k] == c;
    assert GetEncounterSets(cards)[k] == SetOf(c, Seqs.Filter(cards, HasEncounter));
  }

  /** Every set of the intended result is the set of a kept first card. */
  lemma KeptOfSet(cards: seq<Card>, es: EncounterSet) returns (c: Card)
    requires es in GetEncounterSets(cards)
    ensures c in KeptFirsts(cards) && es == SetOf(c, Seqs.Filter(cards, HasEncounter))
  {
    GetEncounterSetsShape(cards);
    var k :| 0 <= k < |GetEncounterSets(cards)| && GetEncounterSets(cards)[k] == es;
    c := KeptFirsts(cards)[k];
  }

  /** The cards listed for code `e` are exactly the cards with that code. */
  lemma CardsOfCode(cards: seq<Card>, e: string)
    ensures forall x :: x in Seqs.Filter(cards, y => InSet(y, e)) <==> x in cards && x.encounterCode == Some(e)
  {
  }
}
