/**
 * The database writes both loaders make (the generated `upsertCard`,
 * `upsertCampaign`, `upsertScenario` and `upsertEncounterSetScenario`
 * queries), recorded as a list of calls in the order they are issued, and the
 * campaign walk both loaders share: each campaign, then each of its scenarios
 * numbered from 1, then each of the scenario's encounter sets numbered from 1.
 */
module Seeding {
  import opened Wrappers

  /** The parameters of one `upsertCard` call (the raw JSON column is left out). */
  datatype CardRow = CardRow(
    code: string,
    name: string,
    realName: Option<string>,
    typeCode: string,
    typeName: string,
    factionCode: string,
    factionName: string,
    encounterCode: Option<string>,
    encounterName: Option<string>,
    encounterPosition: Option<int>,
    position: Option<int>,
    text: Option<string>,
    backText: Option<string>,
    flavor: Option<string>,
    traits: seq<string>,
    url: string,
    imagesrc: Option<string>,
    backimagesrc: Option<string>,
    backFlavor: Option<string>,
    packCode: string,
    packName: string,
    quantity: Option<int>)

  /** One database write. `packCode` of a scenario is `None` where the loader does not send it. */
  datatype Call =
    | UpsertCard(row: CardRow)
    | UpsertCampaign(campaignCode: string, campaignName: string)
    | UpsertScenario(scenarioCode: string, scenarioName: string, scenarioPrefix: Option<string>,
                     packCode: Option<string>, campaignCode: string, position: int)
    | UpsertEncounterSetScenario(encounterCode: string, scenarioCode: string, position: int)

  /** A scenario of the campaign data: its encounter sets in play order. */
  datatype ScenarioData = ScenarioData(
    scenarioCode: string,
    scenarioName: string,
    scenarioPrefix: Option<string>,
    encounterCodes: seq<string>)

  datatype CampaignData = CampaignData(
    campaignCode: string,
    campaignName: string,
    packCode: string,
    scenarios: seq<ScenarioData>)

  /** The links of a scenario to its first `n` encounter sets. */
  function Links(s: ScenarioData, n: nat): seq<Call>
    requires n <= |s.encounterCodes|
  {
    if n == 0 then []
    else Links(s, n - 1) + [UpsertEncounterSetScenario(s.encounterCodes[n - 1], s.scenarioCode, n)]
  }

  /** The `upsertScenario` call for the `i`-th scenario of a campaign. */
  function ScenarioUpsert(c: CampaignData, i: nat, writesPack: bool): Call
    requires i < |c.scenarios|
  {
    var s := c.scenarios[i];
    UpsertScenario(s.scenarioCode, s.scenarioName, s.scenarioPrefix,
                   if writesPack then Some(c.packCode) else None, c.campaignCode, i + 1)
  }

  /** The `i`-th scenario: its own row, then its links. */
  function ScenarioCalls(c: CampaignData, i: nat, writesPack: bool): seq<Call>
    requires i < |c.scenarios|
  {
    [ScenarioUpsert(c, i, writesPack)] + Links(c.scenarios[i], |c.scenarios[i].encounterCodes|)
  }

  /** The calls for the first `n` scenarios of a campaign. */
  function ScenariosCalls(c: CampaignData, n: nat, writesPack: bool): seq<Call>
    requires n <= |c.scenarios|
  {
    if n == 0 then [] else ScenariosCalls(c, n - 1, writesPack) + ScenarioCalls(c, n - 1, writesPack)
  }

  function CampaignCalls(c: CampaignData, writesPack: bool): seq<Call>
  {
    [UpsertCampaign(c.campaignCode, c.campaignName)] + ScenariosCalls(c, |c.scenarios|, writesPack)
  }

  /** All the campaign writes, campaign by campaign in data order. */
  function CampaignsCalls(cs: seq<CampaignData>, writesPack: bool): seq<Call>
  {
    if cs == [] then [] else CampaignsCalls(cs[..|cs| - 1], writesPack) + CampaignCalls(cs[|cs| - 1], writesPack)
  }

  /**
   * A scenario's links name its encounter sets in the order of its list,
   * numbered 1, 2, ... under the scenario's code.
   */
  lemma {:induction false} LinksSpec(s: ScenarioData, n: nat)
    requires n <= |s.encounterCodes|
    ensures |Links(s, n)| == n
    ensures forall j :: 0 <= j < n ==>
              Links(s, n)[j] == UpsertEncounterSetScenario(s.encounterCodes[j], s.scenarioCode, j + 1)
  {
    if n > 0 {
      LinksSpec(s, n - 1);
    }
  }

  /** The scenario rows among a list of calls, in order. */
  function ScenarioRows(calls: seq<Call>): seq<Call>
  {
    if calls == [] then []
    else ScenarioRows(calls[..|calls| - 1]) + (if calls[|calls| - 1].UpsertScenario? then [calls[|calls| - 1]] else [])
  }

  lemma {:induction false} ScenarioRowsAppend(a: seq<Call>, b: seq<Call>)
    ensures ScenarioRows(a + b) == ScenarioRows(a) + ScenarioRows(b)
    decreases |b|
  {
    if b == [] {
      assert a + b == a;
    } else {
      var b' := b[..|b| - 1];
      assert (a + b)[..|a + b| - 1] == a + b';
      ScenarioRowsAppend(a, b');
    }
  }

  lemma {:induction false} LinksHaveNoScenarioRows(s: ScenarioData, n: nat)
    requires n <= |s.encounterCodes|
    ensures ScenarioRows(Links(s, n)) == []
  {
    if n > 0 {
      LinksHaveNoScenarioRows(s, n - 1);
      ScenarioRowsAppend(Links(s, n - 1), [UpsertEncounterSetScenario(s.encounterCodes[n - 1], s.scenarioCode, n)]);
      assert ScenarioRows([UpsertEncounterSetScenario(s.encounterCodes[n - 1], s.scenarioCode, n)]) == [];
    }
  }

  /** Adding a scenario adds exactly its own row to the scenario rows. */
  lemma ScenarioRowsStep(c: CampaignData, n: nat, writesPack: bool)
    requires 0 < n <= |c.scenarios|
    ensures ScenarioRows(ScenariosCalls(c, n, writesPack)) ==
            ScenarioRows(ScenariosCalls(c, n - 1, writesPack)) + [ScenarioUpsert(c, n - 1, writesPack)]
  {
    var prev := ScenariosCalls(c, n - 1, writesPack);
    var head := [ScenarioUpsert(c, n - 1, writesPack)];
    var links := Links(c.scenarios[n - 1], |c.scenarios[n - 1].encounterCodes|);
    assert ScenariosCalls(c, n, writesPack) == prev + (head + links);
    ScenarioRowsAppend(prev, head + links);
    ScenarioRowsAppend(head, links);
    LinksHaveNoScenarioRows(c.scenarios[n - 1], |c.scenarios[n - 1].encounterCodes|);
    assert ScenarioRows(head) == head by {
      assert head[..0] == [];
    }
  }

  /** The rows of the first `n` scenarios, one each. */
  function ScenarioUpserts(c: CampaignData, n: nat, writesPack: bool): seq<Call>
    requires n <= |c.scenarios|
  {
    if n == 0 then [] else ScenarioUpserts(c, n - 1, writesPack) + [ScenarioUpsert(c, n - 1, writesPack)]
  }

  lemma {:induction false} ScenarioUpsertsIndex(c: CampaignData, n: nat, writesPack: bool)
    requires n <= |c.scenarios|
    ensures |ScenarioUpserts(c, n, writesPack)| == n
    ensures forall i :: 0 <= i < n ==> ScenarioUpserts(c, n, writesPack)[i] == ScenarioUpsert(c, i, writesPack)
  {
    if n > 0 {
      ScenarioUpsertsIndex(c, n - 1, writesPack);
    }
  }

  lemma {:induction false} ScenarioRowsAre(c: CampaignData, n: nat, writesPack: bool)
    requires n <= |c.scenarios|
    ensures ScenarioRows(ScenariosCalls(c, n, writesPack)) == ScenarioUpserts(c, n, writesPack)
  {
    if n > 0 {
      ScenarioRowsAre(c, n - 1, writesPack);
      ScenarioRowsStep(c, n, writesPack);
    }
  }

  /**
   * Within a campaign, the scenario rows come one per scenario in the order
   * of the campaign's list, the `i`-th for the `i`-th scenario at position
   * `i + 1`, all under the campaign's code.
   */
  lemma ScenarioPositions(c: CampaignData, writesPack: bool)
    ensures |ScenarioRows(CampaignCalls(c, writesPack))| == |c.scenarios|
    ensures forall i :: 0 <= i < |c.scenarios| ==> ScenarioRows(CampaignCalls(c, writesPack))[i] == ScenarioUpsert(c, i, writesPack)
    ensures forall i :: 0 <= i < |c.scenarios| ==>
              ScenarioUpsert(c, i, writesPack).position == i + 1 &&
              ScenarioUpsert(c, i, writesPack).scenarioCode == c.scenarios[i].scenarioCode &&
              ScenarioUpsert(c, i, writesPack).campaignCode == c.campaignCode
  {
    var head := [UpsertCampaign(c.campaignCode, c.campaignName)];
    ScenarioRowsAppend(head, ScenariosCalls(c, |c.scenarios|, writesPack));
    assert ScenarioRows(head) == [] by {
      assert head[..0] == [];
    }
    ScenarioRowsAre(c, |c.scenarios|, writesPack);
    ScenarioUpsertsIndex(c, |c.scenarios|, writesPack);
  }

  /** The number of writes a campaign makes: itself, its scenarios and all their links. */
  function LinkCount(c: CampaignData, n: nat): nat
    requires n <= |c.scenarios|
  {
    if n == 0 then 0 else LinkCount(c, n - 1) + |c.scenarios[n - 1].encounterCodes|
  }

  function WriteCount(cs: seq<CampaignData>): nat
  {
    if cs == [] then 0
    else
      var c := cs[|cs| - 1];
      WriteCount(cs[..|cs| - 1]) + 1 + |c.scenarios| + LinkCount(c, |c.scenarios|)
  }

  lemma {:induction false} ScenariosCallsCount(c: CampaignData, n: nat, writesPack: bool)
    requires n <= |c.scenarios|
    ensures |ScenariosCalls(c, n, writesPack)| == n + LinkCount(c, n)
  {
    if n > 0 {
      ScenariosCallsCount(c, n - 1, writesPack);
      LinksSpec(c.scenarios[n - 1], |c.scenarios[n - 1].encounterCodes|);
    }
  }

  /** Every campaign, scenario and scenario-to-encounter-set link is written exactly once. */
  lemma {:induction false} CampaignsCallsCount(cs: seq<CampaignData>, writesPack: bool)
    ensures |CampaignsCalls(cs, writesPack)| == WriteCount(cs)
  {
    if cs != [] {
      CampaignsCallsCount(cs[..|cs| - 1], writesPack);
      var c := cs[|cs| - 1];
      ScenariosCallsCount(c, |c.scenarios|, writesPack);
    }
  }

  /** A call with the scenario's pack code taken away. */
  function DropPack(call: Call): Call
  {
    if call.UpsertScenario? then call.(packCode := None) else call
  }

  function DropPacks(calls: seq<Call>): (r: seq<Call>)
    ensures |r| == |calls|
  {
    if calls == [] then [] else DropPacks(calls[..|calls| - 1]) + [DropPack(calls[|calls| - 1])]
  }

  lemma {:induction false} DropPacksAppend(a: seq<Call>, b: seq<Call>)
    ensures DropPacks(a + b) == DropPacks(a) + DropPacks(b)
    decreases |b|
  {
    if b == [] {
      assert a + b == a;
    } else {
      var b' := b[..|b| - 1];
      assert (a + b)[..|a + b| - 1] == a + b';
      DropPacksAppend(a, b');
    }
  }

  lemma {:induction false} DropPacksLinks(s: ScenarioData, n: nat)
    requires n <= |s.encounterCodes|
    ensures DropPacks(Links(s, n)) == Links(s, n)
  {
    if n > 0 {
      DropPacksLinks(s, n - 1);
      DropPacksAppend(Links(s, n - 1), [UpsertEncounterSetScenario(s.encounterCodes[n - 1], s.scenarioCode, n)]);
      assert DropPacks([UpsertEncounterSetScenario(s.encounterCodes[n - 1], s.scenarioCode, n)])
          == [UpsertEncounterSetScenario(s.encounterCodes[n - 1], s.scenarioCode, n)] by {
        assert [UpsertEncounterSetScenario(s.encounterCodes[n - 1], s.scenarioCode, n)][..0] == [];
      }
    }
  }

  lemma {:induction false} DropPacksScenarios(c: CampaignData, n: nat)
    requires n <= |c.scenarios|
    ensures DropPacks(ScenariosCalls(c, n, true)) == ScenariosCalls(c, n, false)
  {
    if n > 0 {
      DropPacksScenarios(c, n - 1);
      var head := [ScenarioUpsert(c, n - 1, true)];
      var links := Links(c.scenarios[n - 1], |c.scenarios[n - 1].encounterCodes|);
      DropPacksAppend(ScenariosCalls(c, n - 1, true), head + links);
      DropPacksAppend(head, links);
      DropPacksLinks(c.scenarios[n - 1], |c.scenarios[n - 1].encounterCodes|);
      assert DropPacks(head) == [ScenarioUpsert(c, n - 1, false)] by {
        assert head[..0] == [];
      }
      var a := ScenariosCalls(c, n - 1, true);
      var b := ScenariosCalls(c, n - 1, false);
      assert ScenariosCalls(c, n, true) == a + (head + links);
      assert ScenariosCalls(c, n, false) == b + ([ScenarioUpsert(c, n - 1, false)] + links);
    }
  }

  /**
   * A loader that sends the campaign's pack code with each scenario and one
   * that does not make the same writes in the same order, apart from that
   * one parameter.
   */
  lemma {:induction false} PackCodeOnlyDifference(cs: seq<CampaignData>)
    ensures DropPacks(CampaignsCalls(cs, true)) == CampaignsCalls(cs, false)
  {
    if cs != [] {
      PackCodeOnlyDifference(cs[..|cs| - 1]);
      var c := cs[|cs| - 1];
      DropPacksAppend(CampaignsCalls(cs[..|cs| - 1], true), CampaignCalls(c, true));
      DropPacksAppend([UpsertCampaign(c.campaignCode, c.campaignName)], ScenariosCalls(c, |c.scenarios|, true));
      DropPacksScenarios(c, |c.scenarios|);
      assert DropPacks([UpsertCampaign(c.campaignCode, c.campaignName)]) == [UpsertCampaign(c.campaignCode, c.campaignName)] by {
        assert [UpsertCampaign(c.campaignCode, c.campaignName)][..0] == [];
      }
    }
  }

  /** The writes of one scenario, link by link, appended to `calls`. */
  method WriteScenario(c: CampaignData, i: nat, writesPack: bool) returns (calls: seq<Call>)
    requires i < |c.scenarios|
    ensures calls == ScenarioCalls(c, i, writesPack)
  {
    var s := c.scenarios[i];
    calls := [ScenarioUpsert(c, i, writesPack)];
    var j := 0;
    while j < |s.encounterCodes|
      invariant 0 <= j <= |s.encounterCodes|
      invariant calls == [ScenarioUpsert(c, i, writesPack)] + Links(s, j)
    {
      calls := calls + [UpsertEncounterSetScenario(s.encounterCodes[j], s.scenarioCode, j + 1)];
      j := j + 1;
    }
  }

  /** The writes of one campaign: its own row, then scenario by scenario. */
  method WriteCampaign(c: CampaignData, writesPack: bool) returns (calls: seq<Call>)
    ensures calls == CampaignCalls(c, writesPack)
  {
    calls := [UpsertCampaign(c.campaignCode, c.campaignName)];
    var i := 0;
    while i < |c.scenarios|
      invariant 0 <= i <= |c.scenarios|
      invariant calls == [UpsertCampaign(c.campaignCode, c.campaignName)] + ScenariosCalls(c, i, writesPack)
    {
      var more := WriteScenario(c, i, writesPack);
      calls := calls + more;
      i := i + 1;
    }
  }

  /** The campaign loop of both loaders. */
  method WriteCampaigns(cs: seq<CampaignData>, writesPack: bool) returns (calls: seq<Call>)
    ensures calls == CampaignsCalls(cs, writesPack)
  {
    calls := [];
    var i := 0;
    while i < |cs|
      invariant 0 <= i <= |cs|
      invariant calls == CampaignsCalls(cs[..i], writesPack)
    {
      var more := WriteCampaign(cs[i], writesPack);
      assert cs[..i + 1][..i] == cs[..i];
      calls := calls + more;
      i := i + 1;
    }
    assert cs[..|cs|] == cs;
  }
}
