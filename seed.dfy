/**
 * The Go seeder: the same two passes as the TypeScript loader, over the raw
 * card dump (no decoder in between) and the campaign data.
 */
module Seed {
  import opened Wrappers
  import Seqs
  import Traits
  import CardData
  import InsertData
  import opened Seeding

  /** The seeder skips a card only when its pack code is absent (an empty one is kept). */
  predicate HasPackCode(raw: CardData.RawCard)
  {
    raw.packCode.Some?
  }

  /** The row the seeder writes for a card with a pack code. */
  function GoRow(raw: CardData.RawCard): CardRow
    requires HasPackCode(raw)
  {
    CardRow(raw.code, raw.name, raw.realName, raw.typeCode, raw.typeName, raw.factionCode, raw.factionName,
            raw.encounterCode, raw.encounterName, raw.encounterPosition, raw.position, raw.text, raw.backText,
            raw.flavor, Traits.GoDotTraits(raw.traits), raw.url, raw.imagesrc, raw.backimagesrc, raw.backFlavor,
            raw.packCode.value, raw.packName.GetOr(raw.packCode.value), raw.quantity)
  }

  /** The write the seeder makes for a card with a pack code. */
  function GoUpsert(raw: CardData.RawCard): Call
    requires HasPackCode(raw)
  {
    UpsertCard(GoRow(raw))
  }

  function SeedRows(raws: seq<CardData.RawCard>): seq<Call>
  {
    Seqs.FilterMap(raws, HasPackCode, GoUpsert)
  }

  /** `seedCards`: one write per card with a pack code, in dump order. */
  method SeedCards(raws: seq<CardData.RawCard>) returns (calls: seq<Call>)
    ensures calls == SeedRows(raws)
  {
    calls := [];
    var i := 0;
    while i < |raws|
      invariant 0 <= i <= |raws|
      invariant calls == SeedRows(raws[..i])
    {
      var c := raws[i];
      assert raws[..i + 1][..i] == raws[..i];
      if c.packCode == None {
        i := i + 1;
        continue;
      }
      calls := calls + [UpsertCard(GoRow(c))];
      i := i + 1;
    }
    assert raws[..|raws|] == raws;
  }

  /** The cards the seeder writes. */
  function Seeded(raws: seq<CardData.RawCard>): (r: seq<CardData.RawCard>)
    ensures forall i :: 0 <= i < |r| ==> HasPackCode(r[i])
  {
    Seqs.Filter(raws, HasPackCode)
  }

  /** The seeder writes one row for each card with a pack code, in dump order, and none for the others. */
  lemma SeedRowsSpec(raws: seq<CardData.RawCard>)
    ensures |SeedRows(raws)| == |Seeded(raws)|
    ensures forall i :: 0 <= i < |SeedRows(raws)| ==> SeedRows(raws)[i] == UpsertCard(GoRow(Seeded(raws)[i]))
  {
    Seqs.FilterMapSpec(raws, HasPackCode, GoUpsert);
  }

  /** `seedCampaigns`: the scenarios are written without a pack code. */
  method SeedCampaigns(campaigns: seq<CampaignData>) returns (calls: seq<Call>)
    ensures calls == CampaignsCalls(campaigns, false)
  {
    calls := WriteCampaigns(campaigns, false);
  }

  /**
   * For a card with a pack code, the seeder's row differs from the
   * TypeScript loader's only in the quantity (the seeder leaves a missing one
   * missing; the decoder makes it 1) and in the trait names (the seeder
   * splits the text at dots, the decoder at spaces).
   */
  lemma LoadersAgreeOnRow(raw: CardData.RawCard)
    requires raw.packCode.Some? && raw.packCode.value != ""
    ensures CardData.HasPack(CardData.Decode(raw))
    ensures InsertData.Row(CardData.Decode(raw)) ==
              GoRow(raw).(quantity := Some(raw.quantity.GetOr(1)),
                          traits := if raw.traits.Some? then Traits.DecoderTraits(raw.traits.value) else [])
  {
  }

  function DecodeAll(raws: seq<CardData.RawCard>): (r: seq<CardData.Card>)
    ensures |r| == |raws|
  {
    if raws == [] then [] else DecodeAll(raws[..|raws| - 1]) + [CardData.Decode(raws[|raws| - 1])]
  }

  /** The number of cards whose pack code is present but empty. */
  function EmptyPackCodes(raws: seq<CardData.RawCard>): nat
  {
    if raws == [] then 0
    else EmptyPackCodes(raws[..|raws| - 1]) + (if raws[|raws| - 1].packCode == Some("") then 1 else 0)
  }

  /**
   * The seeder writes every card the TypeScript loader writes and, besides,
   * every card whose pack code is the empty string.
   */
  lemma {:induction false} SeederWritesEmptyPackCodes(raws: seq<CardData.RawCard>)
    ensures |SeedRows(raws)| == |InsertData.CardRows(DecodeAll(raws))| + EmptyPackCodes(raws)
  {
    if raws != [] {
      var init := raws[..|raws| - 1];
      SeederWritesEmptyPackCodes(init);
      var d := DecodeAll(raws);
      assert d[..|d| - 1] == DecodeAll(init);
    }
  }
}
