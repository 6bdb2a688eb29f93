/**
 * The database client's pure parts: the prefix-match text query built from
 * the search box, and the grouping of the joined rows of one scenario
 * (scenario, campaign, encounter set, card, trait) into a scenario with its
 * campaigns and its encounter sets, each with its cards and their traits.
 * The database itself is left out: the rows are a parameter.
 */
module DbClient {
  import opened Wrappers
  import Seqs
  import Strs

  /** Each piece trimmed, the empty ones dropped. */
  function TrimmedWords(ps: seq<string>): (r: seq<string>)
    ensures forall i :: 0 <= i < |r| ==> r[i] != ""
    decreases |ps|
  {
    if ps == [] then []
    else
      var t := Strs.Trim(Strs.Js, ps[0]);
      var rest := TrimmedWords(ps[1..]);
      if t != "" then [t] + rest else rest
  }

  /** The words of the search box: split at `" "`, trimmed, the empty ones dropped. */
  function Words(query: string): seq<string>
  {
    TrimmedWords(Strs.Split(query, " "))
  }

  /** Each word as a prefix match, `w:*`. */
  function PrefixTerms(ws: seq<string>): (r: seq<string>)
    ensures |r| == |ws|
    ensures forall i :: 0 <= i < |ws| ==> r[i] == ws[i] + ":*"
    decreases |ws|
  {
    if ws == [] then [] else [ws[0] + ":*"] + PrefixTerms(ws[1..])
  }

  /** The text query: every word as a prefix match, all of them required. */
  function SearchValue(query: string): string
  {
    Strs.Join(PrefixTerms(Words(query)), " & ")
  }

  lemma {:induction false} TrimmedWordsEmpty(ps: seq<string>)
    ensures TrimmedWords(ps) == [] <==> forall i :: 0 <= i < |ps| ==> Strs.AllSpace(Strs.Js, ps[i])
    decreases |ps|
  {
    if ps != [] {
      TrimmedWordsEmpty(ps[1..]);
      Strs.TrimEmptyIff(Strs.Js, ps[0]);
      assert forall i :: 1 <= i < |ps| ==> ps[i] == ps[1..][i - 1];
    }
  }

  /** The query is empty exactly when the search box holds only white space (or nothing). */
  lemma BlankQuery(query: string)
    ensures SearchValue(query) == "" <==> Strs.AllSpace(Strs.Js, query)
  {
    var ps := Strs.Split(query, " ");
    Strs.JoinSplit(query, " ");
    Strs.JoinAllSpace(Strs.Js, ps, " ");
    TrimmedWordsEmpty(ps);
    var terms := PrefixTerms(Words(query));
    Strs.JoinEmpty(terms, " & ");
    if |terms| == 1 {
      assert |terms[0]| >= 2;
    }
  }

  /** Every word of the search box appears in the query as a prefix match. */
  lemma WordInQuery(query: string, k: int) returns (offset: int)
    requires 0 <= k < |Words(query)|
    ensures 0 <= offset && offset + |Words(query)[k]| + 2 <= |SearchValue(query)|
    ensures SearchValue(query)[offset..offset + |Words(query)[k]| + 2] == Words(query)[k] + ":*"
  {
    offset := Strs.JoinContainsPart(PrefixTerms(Words(query)), " & ", k);
  }

  datatype ScenarioRec = ScenarioRec(scenarioCode: string, scenarioName: string, campaignCode: Option<string>)
  datatype CampaignRec = CampaignRec(campaignCode: string, campaignName: string)
  datatype CardRec = CardRec(cardCode: string, cardName: string, encounterCode: Option<string>)
  datatype EncounterSetRec = EncounterSetRec(encounterCode: string, encounterName: string)

  /**
   * One row of the scenario query: the scenario, and whatever each left join
   * found (`None` where it found nothing).
   */
  datatype Row = Row(
    scenario: ScenarioRec,
    campaign: Option<CampaignRec>,
    encounterSet: Option<EncounterSetRec>,
    card: Option<CardRec>,
    traitName: Option<string>)

  datatype CardView = CardView(card: CardRec, traits: seq<string>)
  datatype EncounterSetView = EncounterSetView(encounterSet: EncounterSetRec, cards: seq<CardView>)
  datatype ScenarioView = ScenarioView(scenario: ScenarioRec, campaigns: seq<CampaignRec>, encounterSets: seq<EncounterSetView>)

  /** The present values, in order. */
  function Present<T(!new)>(s: seq<Option<T>>): (r: seq<T>)
    ensures forall x :: x in r <==> Some(x) in s
    decreases |s|
  {
    if s == [] then []
    else
      var rest := Present(s[1..]);
      assert forall x :: Some(x) in s <==> Some(x) == s[0] || Some(x) in s[1..];
      if s[0].Some? then [s[0].value] + rest else rest
  }

  function CampaignCode(c: CampaignRec): string { c.campaignCode }
  function CardCode(c: CardRec): string { c.cardCode }
  function EncounterCode(e: EncounterSetRec): string { e.encounterCode }

  function RowCampaigns(rows: seq<Row>): seq<CampaignRec>
  {
    Present(Seqs.MapSeq(rows, (r: Row) => r.campaign))
  }

  function RowCards(rows: seq<Row>): seq<CardRec>
  {
    Present(Seqs.MapSeq(rows, (r: Row) => r.card))
  }

  function RowEncounterSets(rows: seq<Row>): seq<EncounterSetRec>
  {
    Present(Seqs.MapSeq(rows, (r: Row) => r.encounterSet))
  }

  /** Whether a row carries a trait of the card with this code. */
  predicate TraitOf(r: Row, code: string)
  {
    r.traitName.Some? && r.card.Some? && r.card.value.cardCode == code
  }

  /** The trait names the rows give a card, in row order. */
  function TraitNames(rows: seq<Row>, code: string): (r: seq<string>)
    ensures r == [] <==> forall i :: 0 <= i < |rows| ==> !TraitOf(rows[i], code)
    decreases |rows|
  {
    if rows == [] then []
    else
      var rest := TraitNames(rows[1..], code);
      assert forall i :: 1 <= i < |rows| ==> rows[i] == rows[1..][i - 1];
      if TraitOf(rows[0], code) then [rows[0].traitName.value] + rest else rest
  }

  /** The cards, one per card code, each with its traits (or none). */
  function CardViews(rows: seq<Row>): seq<CardView>
  {
    Seqs.MapSeq(Seqs.UniqBy(RowCards(rows), CardCode), (c: CardRec) => CardView(c, TraitNames(rows, c.cardCode)))
  }

  /** The cards of an encounter set: those with its code. */
  function SetCards(cards: seq<CardView>, code: string): (r: seq<CardView>)
    ensures forall v :: v in r <==> v in cards && v.card.encounterCode == Some(code)
  {
    Seqs.Filter(cards, (v: CardView) => v.card.encounterCode == Some(code))
  }

  function EncounterSetViews(rows: seq<Row>): seq<EncounterSetView>
  {
    var cards := CardViews(rows);
    Seqs.MapSeq(Seqs.UniqBy(RowEncounterSets(rows), EncounterCode),
                (e: EncounterSetRec) => EncounterSetView(e, SetCards(cards, e.encounterCode)))
  }

  /** `getScenarioByCode` after the query: nothing when there are no rows. */
  function ScenarioByCode(rows: seq<Row>): (r: Option<ScenarioView>)
    ensures r.None? <==> rows == []
    ensures r.Some? ==> r.value.scenario == rows[0].scenario
  {
    if rows == [] then None
    else Some(ScenarioView(rows[0].scenario, Seqs.UniqBy(RowCampaigns(rows), CampaignCode), EncounterSetViews(rows)))
  }

  /**
   * The campaigns are the campaigns of the rows, one per campaign code, each
   * the first row's campaign with that code, in row order.
   */
  lemma CampaignsSpec(rows: seq<Row>)
    requires rows != []
    ensures Seqs.IsSubseq(ScenarioByCode(rows).value.campaigns, RowCampaigns(rows))
    ensures forall i, j :: 0 <= i < j < |ScenarioByCode(rows).value.campaigns| ==>
              ScenarioByCode(rows).value.campaigns[i].campaignCode != ScenarioByCode(rows).value.campaigns[j].campaignCode
    ensures forall c :: c in ScenarioByCode(rows).value.campaigns ==>
              Seqs.First(RowCampaigns(rows), CampaignCode, c.campaignCode) == Some(c)
    ensures forall i :: 0 <= i < |rows| && rows[i].campaign.Some? ==>
              exists c :: c in ScenarioByCode(rows).value.campaigns && c.campaignCode == rows[i].campaign.value.campaignCode
  {
    var present := RowCampaigns(rows);
    var campaigns := Seqs.UniqBy(present, CampaignCode);
    forall c | c in campaigns
      ensures Seqs.First(present, CampaignCode, c.campaignCode) == Some(c)
    {
      Seqs.UniqByFirst(present, CampaignCode, c);
    }
    forall i | 0 <= i < |rows| && rows[i].campaign.Some?
      ensures exists c :: c in campaigns && c.campaignCode == rows[i].campaign.value.campaignCode
    {
      var x := rows[i].campaign.value;
      assert Some(x) == Seqs.MapSeq(rows, (r: Row) => r.campaign)[i];
      assert x in present;
      Seqs.UniqByKeys(present, CampaignCode);
      assert CampaignCode(x) in Seqs.KeySet(present, CampaignCode);
    }
  }

  /**
   * Every card of the rows is listed once, as the first row's card with its
   * code, and its traits are the trait names of its rows (none when no row
   * has one).
   */
  lemma CardsSpec(rows: seq<Row>)
    ensures forall i, j :: 0 <= i < j < |CardViews(rows)| ==>
              CardViews(rows)[i].card.cardCode != CardViews(rows)[j].card.cardCode
    ensures forall v :: v in CardViews(rows) ==>
              v.traits == TraitNames(rows, v.card.cardCode) &&
              Seqs.First(RowCards(rows), CardCode, v.card.cardCode) == Some(v.card)
    ensures forall i :: 0 <= i < |rows| && rows[i].card.Some? ==>
              exists v :: v in CardViews(rows) && v.card.cardCode == rows[i].card.value.cardCode
  {
    forall v | v in CardViews(rows)
      ensures v.traits == TraitNames(rows, v.card.cardCode)
      ensures Seqs.First(RowCards(rows), CardCode, v.card.cardCode) == Some(v.card)
    {
      CardViewFirst(rows, v);
    }
    forall i | 0 <= i < |rows| && rows[i].card.Some?
      ensures exists v :: v in CardViews(rows) && v.card.cardCode == rows[i].card.value.cardCode
    {
      CardViewOfRow(rows, i);
    }
  }

  /** A listed card is the first row's card with its code, with that code's traits. */
  lemma CardViewFirst(rows: seq<Row>, v: CardView)
    requires v in CardViews(rows)
    ensures v.traits == TraitNames(rows, v.card.cardCode)
    ensures Seqs.First(RowCards(rows), CardCode, v.card.cardCode) == Some(v.card)
  {
    var present := RowCards(rows);
    var firsts := Seqs.UniqBy(present, CardCode);
    var views := CardViews(rows);
    var k :| 0 <= k < |views| && views[k] == v;
    assert v.card == firsts[k];
    Seqs.UniqByFirst(present, CardCode, firsts[k]);
  }

  /** The card of every row is listed. */
  lemma CardViewOfRow(rows: seq<Row>, i: int)
    requires 0 <= i < |rows| && rows[i].card.Some?
    ensures exists v :: v in CardViews(rows) && v.card.cardCode == rows[i].card.value.cardCode
  {
    var present := RowCards(rows);
    var x := rows[i].card.value;
    assert Some(x) == Seqs.MapSeq(rows, (r: Row) => r.card)[i];
    assert x in present;
    var k := Seqs.UniqByPosition(present, CardCode, x);
    var views := CardViews(rows);
    assert views[k].card == Seqs.UniqBy(present, CardCode)[k];
  }

  /**
   * The encounter sets are those of the rows, one per code, each the first
   * row's with that code, in row order; each lists exactly the cards with
   * its code.
   */
  lemma EncounterSetsSpec(rows: seq<Row>)
    ensures Seqs.IsSubseq(Seqs.MapSeq(EncounterSetViews(rows), (s: EncounterSetView) => s.encounterSet), RowEncounterSets(rows))
    ensures forall i, j :: 0 <= i < j < |EncounterSetViews(rows)| ==>
              EncounterSetViews(rows)[i].encounterSet.encounterCode != EncounterSetViews(rows)[j].encounterSet.encounterCode
    ensures forall s :: s in EncounterSetViews(rows) ==>
              Seqs.First(RowEncounterSets(rows), EncounterCode, s.encounterSet.encounterCode) == Some(s.encounterSet) &&
              forall v :: v in s.cards <==> v in CardViews(rows) && v.card.encounterCode == Some(s.encounterSet.encounterCode)
    ensures forall i :: 0 <= i < |rows| && rows[i].encounterSet.Some? ==>
              exists s :: s in EncounterSetViews(rows) && s.encounterSet.encounterCode == rows[i].encounterSet.value.encounterCode
  {
    var sets := EncounterSetViews(rows);
    var firsts := Seqs.UniqBy(RowEncounterSets(rows), EncounterCode);
    assert Seqs.MapSeq(sets, (s: EncounterSetView) => s.encounterSet) == firsts;
    forall s | s in sets
      ensures Seqs.First(RowEncounterSets(rows), EncounterCode, s.encounterSet.encounterCode) == Some(s.encounterSet)
      ensures s.cards == SetCards(CardViews(rows), s.encounterSet.encounterCode)
    {
      var k :| 0 <= k < |sets| && sets[k] == s;
      EncounterSetViewAt(rows, k);
    }
    forall i | 0 <= i < |rows| && rows[i].encounterSet.Some?
      ensures exists s :: s in sets && s.encounterSet.encounterCode == rows[i].encounterSet.value.encounterCode
    {
      var k := EncounterSetOfRow(rows, i);
      assert sets[k] in sets;
    }
  }

  /** The set at position `k` is the first row's set with its code, listing that code's cards. */
  lemma EncounterSetViewAt(rows: seq<Row>, k: int)
    requires 0 <= k < |EncounterSetViews(rows)|
    ensures var s := EncounterSetViews(rows)[k];
            Seqs.First(RowEncounterSets(rows), EncounterCode, s.encounterSet.encounterCode) == Some(s.encounterSet) &&
            s.cards == SetCards(CardViews(rows), s.encounterSet.encounterCode)
  {
    var present := RowEncounterSets(rows);
    var firsts := Seqs.UniqBy(present, EncounterCode);
    assert EncounterSetViews(rows)[k].encounterSet == firsts[k];
    Seqs.UniqByFirst(present, EncounterCode, firsts[k]);
  }

  /** A row's encounter set has a view with its code, at the returned position. */
  lemma EncounterSetOfRow(rows: seq<Row>, i: int) returns (k: int)
    requires 0 <= i < |rows| && rows[i].encounterSet.Some?
    ensures 0 <= k < |EncounterSetViews(rows)|
    ensures EncounterSetViews(rows)[k].encounterSet.encounterCode == rows[i].encounterSet.value.encounterCode
  {
    var present := RowEncounterSets(rows);
    var x := rows[i].encounterSet.value;
    assert Some(x) == Seqs.MapSeq(rows, (r: Row) => r.encounterSet)[i];
    k := Seqs.UniqByPosition(present, EncounterCode, x);
    assert EncounterSetViews(rows)[k].encounterSet == Seqs.UniqBy(present, EncounterCode)[k];
  }
}
