/**
 * The TypeScript database loader: one `upsertCard` per decoded card that has
 * a pack code, then the campaign data (campaigns, their numbered scenarios
 * and each scenario's numbered encounter sets).
 */
module InsertData {
  import opened Wrappers
  import Seqs
  import Traits
  import CardData
  import opened Seeding

  /**
   * What the loader's trait argument evaluates to. The decoded card holds its
   * traits as a list of names, and `parseTraits` calls `split` on anything
   * truthy, which a list does not have: a `TypeError` is thrown.
   */
  datatype TraitsArg = Names(names: seq<string>) | TypeError

  /** The trait argument as written: the decoded list handed to `parseTraits`. */
  function TraitsArgAsWritten(traits: Option<seq<string>>): (r: TraitsArg)
    ensures r.TypeError? <==> traits.Some?
    ensures r.Names? ==> r.names == Traits.DotTraits(None)
  {
    if traits.None? then Names(Traits.DotTraits(None)) else TypeError
  }

  /** The row written for a card, with the given trait names. */
  function RowWith(c: CardData.Card, traits: seq<string>): CardRow
    requires CardData.HasPack(c)
  {
    CardRow(c.code, c.name, c.realName, c.typeCode, c.typeName, c.factionCode, c.factionName,
            c.encounterCode, c.encounterName, c.encounterPosition, c.position, c.text, c.backText,
            c.flavor, traits, c.url, c.imagesrc, c.backimagesrc, c.backFlavor,
            c.packCode.value, c.packName.GetOr(c.packCode.value), Some(c.quantity))
  }

  /** The corrected row: the card's decoded trait names, or none. */
  function Row(c: CardData.Card): CardRow
    requires CardData.HasPack(c)
  {
    RowWith(c, c.traits.GetOr([]))
  }

  /** The write the loader makes for a card with a pack code. */
  function Upsert(c: CardData.Card): Call
    requires CardData.HasPack(c)
  {
    UpsertCard(Row(c))
  }

  /** The rows written for a list of cards: those with a pack code, in order. */
  function CardRows(cards: seq<CardData.Card>): seq<Call>
  {
    Seqs.FilterMap(cards, CardData.HasPack, Upsert)
  }

  /** A card that makes the loader throw as written: it is written and carries traits. */
  predicate Throws(c: CardData.Card)
  {
    CardData.HasPack(c) && c.traits.Some?
  }

  /**
   * `insertCards` as written: it stops at the first card with a pack code and
   * traits, having written the cards before it, and reports that card's code.
   */
  method InsertCardsAsWritten(cards: seq<CardData.Card>) returns (calls: seq<Call>, thrown: Option<string>)
    ensures thrown.None? <==> forall i :: 0 <= i < |cards| ==> !Throws(cards[i])
    ensures thrown.None? ==> calls == CardRows(cards)
    ensures thrown.Some? ==>
              exists k :: 0 <= k < |cards| && Throws(cards[k]) && thrown.value == cards[k].code &&
                (forall j :: 0 <= j < k ==> !Throws(cards[j])) && calls == CardRows(cards[..k])
  {
    calls := [];
    thrown := None;
    var i := 0;
    while i < |cards| && thrown.None?
      invariant 0 <= i <= |cards|
      invariant forall j :: 0 <= j < i && thrown.None? ==> !Throws(cards[j])
      invariant thrown.None? ==> calls == CardRows(cards[..i])
      invariant thrown.Some? ==>
                  0 < i && Throws(cards[i - 1]) && thrown.value == cards[i - 1].code &&
                  (forall j :: 0 <= j < i - 1 ==> !Throws(cards[j])) && calls == CardRows(cards[..i - 1])
    {
      var c := cards[i];
      assert cards[..i + 1][..i] == cards[..i];
      if CardData.HasPack(c) {
        match TraitsArgAsWritten(c.traits)
        case TypeError =>
          thrown := Some(c.code);
        case Names(ns) =>
          calls := calls + [UpsertCard(RowWith(c, ns))];
      }
      i := i + 1;
    }
    if thrown.None? {
      assert cards[..|cards|] == cards;
    } else {
      assert Throws(cards[i - 1]);
    }
  }

  /** Any card whose dump record has trait text decodes to a card that makes the loader throw. */
  lemma ThrowsOnAnyTraits(raw: CardData.RawCard)
    requires raw.traits.Some? && raw.packCode.Some? && raw.packCode.value != ""
    ensures Throws(CardData.Decode(raw))
    ensures TraitsArgAsWritten(CardData.Decode(raw).traits) == TypeError
  {
  }

  /** `insertCards`, corrected to write the decoded trait names. */
  method InsertCards(cards: seq<CardData.Card>) returns (calls: seq<Call>)
    ensures calls == CardRows(cards)
  {
    calls := [];
    var i := 0;
    while i < |cards|
      invariant 0 <= i <= |cards|
      invariant calls == CardRows(cards[..i])
    {
      var c := cards[i];
      assert cards[..i + 1][..i] == cards[..i];
      if CardData.HasPack(c) {
        calls := calls + [UpsertCard(Row(c))];
      }
      i := i + 1;
    }
    assert cards[..|cards|] == cards;
  }

  /** The cards the loader writes. */
  function Written(cards: seq<CardData.Card>): (r: seq<CardData.Card>)
    ensures forall i :: 0 <= i < |r| ==> CardData.HasPack(r[i])
  {
    Seqs.Filter(cards, CardData.HasPack)
  }

  /**
   * The loader writes one row for each card with a non-empty pack code, in
   * input order, and none for the others.
   */
  lemma CardRowsSpec(cards: seq<CardData.Card>)
    ensures |CardRows(cards)| == |Written(cards)|
    ensures forall i :: 0 <= i < |CardRows(cards)| ==> CardRows(cards)[i] == UpsertCard(Row(Written(cards)[i]))
  {
    Seqs.FilterMapSpec(cards, CardData.HasPack, Upsert);
  }

  /**
   * The pack name falls back to the pack code; the quantity is the decoded
   * one (1 when the dump has none); the traits are the decoded names.
   */
  lemma RowSpec(raw: CardData.RawCard)
    requires raw.packCode.Some? && raw.packCode.value != ""
    ensures Row(CardData.Decode(raw)).packCode == raw.packCode.value
    ensures raw.packName.None? ==> Row(CardData.Decode(raw)).packName == raw.packCode.value
    ensures raw.packName.Some? ==> Row(CardData.Decode(raw)).packName == raw.packName.value
    ensures Row(CardData.Decode(raw)).quantity == Some(if raw.quantity.Some? then raw.quantity.value else 1)
    ensures Row(CardData.Decode(raw)).traits == (if raw.traits.Some? then Traits.DecoderTraits(raw.traits.value) else [])
  {
  }

  /** `insertCampaigns`: the scenarios carry the campaign's pack code. */
  method InsertCampaigns(campaigns: seq<CampaignData>) returns (calls: seq<Call>)
    ensures calls == CampaignsCalls(campaigns, true)
  {
    calls := WriteCampaigns(campaigns, true);
  }
}
