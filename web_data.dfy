/**
 * The static site's data layer: the card dump and the campaign list are
 * parsed once, indexed by code and by encounter set, the encounter sets and
 * the campaigns with their scenarios are derived, and a search index lists
 * every card, encounter set, scenario and campaign.
 *
 * A JavaScript `Map` is an `Assoc.Entries` list: `set` on a present key
 * overwrites the value where the key already stands, so a map built by one
 * `set` per element holds the LAST element of each key, in the order of the
 * FIRST appearance of the keys (see IndexKeys and IndexGet).
 */
module WebData {
  import opened Wrappers
  import Seqs
  import Assoc
  import Cards

  /** A card record of the dump; absent and null are both `None`. */
  datatype RawCard = RawCard(
    code: string,
    name: string,
    typeCode: string,
    typeName: string,
    factionCode: string,
    factionName: string,
    packCode: string,
    packName: string,
    encounterCode: Option<string>,
    encounterName: Option<string>,
    traits: Option<string>,
    quantity: int,
    imagesrc: Option<string>,
    backimagesrc: Option<string>,
    text: Option<string>,
    flavor: Option<string>,
    subname: Option<string>,
    cost: Option<int>,
    health: Option<int>,
    sanity: Option<int>,
    skillWillpower: Option<int>,
    skillIntellect: Option<int>,
    skillCombat: Option<int>,
    skillAgility: Option<int>,
    isUnique: bool,
    position: int,
    realSlot: Option<string>)

  datatype Card = Card(
    code: string,
    name: string,
    typeCode: string,
    typeName: string,
    factionCode: string,
    factionName: string,
    packCode: string,
    packName: string,
    encounterCode: Option<string>,
    encounterName: Option<string>,
    traits: Option<string>,
    quantity: int,
    imageUrl: Option<string>,
    backImageUrl: Option<string>,
    text: Option<string>,
    flavor: Option<string>,
    subname: Option<string>,
    cost: Option<int>,
    health: Option<int>,
    sanity: Option<int>,
    skillWillpower: Option<int>,
    skillIntellect: Option<int>,
    skillCombat: Option<int>,
    skillAgility: Option<int>,
    isUnique: bool,
    position: int,
    slot: Option<string>)

  datatype EncounterSet = EncounterSet(code: string, name: Option<string>, imageUrl: Option<string>, cards: seq<Card>)

  datatype RawScenario = RawScenario(scenarioCode: string, scenarioName: string, scenarioPrefix: Option<string>, encounterCodes: seq<string>)

  datatype RawCampaign = RawCampaign(campaignCode: string, campaignName: string, scenarios: seq<RawScenario>)

  datatype Scenario = Scenario(
    code: string,
    name: string,
    prefix: Option<string>,
    campaignCode: string,
    campaignName: string,
    encounterCodes: seq<string>,
    imageUrl: Option<string>)

  datatype Campaign = Campaign(code: string, name: string, scenarios: seq<Scenario>, imageUrl: Option<string>)

  datatype EntryKind = CardEntry | EncounterEntry | ScenarioEntry | CampaignEntry

  datatype SearchEntry = SearchEntry(
    id: string,
    kind: EntryKind,
    code: string,
    name: Option<string>,
    imageUrl: Option<string>,
    typeCode: Option<string>,
    packName: Option<string>)

  /** A parsed card; images become absolute addresses, an empty slot is none. */
  function ParseCard(raw: RawCard): (c: Card)
    ensures c.imageUrl == Cards.CardImageUrl(raw.imagesrc) && c.backImageUrl == Cards.CardImageUrl(raw.backimagesrc)
    ensures c.slot.None? <==> !Cards.Truthy(raw.realSlot)
    ensures c.slot.Some? ==> c.slot == raw.realSlot
    ensures c.code == raw.code && c.encounterCode == raw.encounterCode && c.encounterName == raw.encounterName
  {
    Card(raw.code, raw.name, raw.typeCode, raw.typeName, raw.factionCode, raw.factionName,
         raw.packCode, raw.packName, raw.encounterCode, raw.encounterName, raw.traits,
         raw.quantity, Cards.CardImageUrl(raw.imagesrc), Cards.CardImageUrl(raw.backimagesrc),
         raw.text, raw.flavor, raw.subname, raw.cost, raw.health, raw.sanity,
         raw.skillWillpower, raw.skillIntellect, raw.skillCombat, raw.skillAgility,
         raw.isUnique, raw.position,
         if Cards.Truthy(raw.realSlot) then raw.realSlot else None)
  }

  // ---------------------------------------------------------------------
  // Maps built by one `set` per element
  // ---------------------------------------------------------------------

  /** The map a `set(key(x), x)` per element of `s`, in order, leaves behind. */
  function Index<T(!new)>(s: seq<T>, key: T -> string): Assoc.Entries<string, T>
    decreases |s|
  {
    if s == [] then []
    else Assoc.Set(Index(s[..|s| - 1], key), key(s[|s| - 1]), s[|s| - 1])
  }

  /** The keys of `s`, each once, in the order of their first appearance. */
  function FirstKeys<T>(s: seq<T>, key: T -> string): (r: seq<string>)
    ensures forall k :: k in r <==> exists i :: 0 <= i < |s| && key(s[i]) == k
    ensures Seqs.Distinct(r)
    decreases |s|
  {
    if s == [] then []
    else
      var init := FirstKeys(s[..|s| - 1], key);
      var k := key(s[|s| - 1]);
      assert forall i :: 0 <= i < |s| - 1 ==> s[..|s| - 1][i] == s[i];
      if k in init then init else init + [k]
  }

  /** The position of the last element of `s` with key `k`. */
  function LastIndex<T>(s: seq<T>, key: T -> string, k: string): (r: Option<nat>)
    ensures r.Some? ==> r.value < |s| && key(s[r.value]) == k
    ensures r.Some? ==> forall j :: r.value < j < |s| ==> key(s[j]) != k
    ensures r.None? ==> forall i :: 0 <= i < |s| ==> key(s[i]) != k
    decreases |s|
  {
    if s == [] then None
    else if key(s[|s| - 1]) == k then Some(|s| - 1)
    else LastIndex(s[..|s| - 1], key, k)
  }

  /** The map holds each key once, in the order the keys first appear. */
  lemma {:induction false} IndexKeys<T(!new)>(s: seq<T>, key: T -> string)
    ensures Assoc.Keys(Index(s, key)) == FirstKeys(s, key)
    ensures Assoc.DistinctKeys(Index(s, key))
    decreases |s|
  {
    if s != [] {
      var init := s[..|s| - 1];
      IndexKeys(init, key);
      Assoc.SetKeys(Index(init, key), key(s[|s| - 1]), s[|s| - 1]);
    }
  }

  /** Looking a key up gives the last element with that key, and nothing for an unseen key. */
  lemma {:induction false} IndexGet<T(!new)>(s: seq<T>, key: T -> string, k: string)
    ensures LastIndex(s, key, k).None? ==> Assoc.Get(Index(s, key), k) == None
    ensures LastIndex(s, key, k).Some? ==> Assoc.Get(Index(s, key), k) == Some(s[LastIndex(s, key, k).value])
    decreases |s|
  {
    if s != [] {
      var init := s[..|s| - 1];
      IndexGet(init, key, k);
      Assoc.GetSet(Index(init, key), key(s[|s| - 1]), s[|s| - 1], k);
      if key(s[|s| - 1]) != k && LastIndex(init, key, k).Some? {
        assert init[LastIndex(init, key, k).value] == s[LastIndex(init, key, k).value];
      }
    }
  }

  /** One more element is one more `set`. */
  lemma IndexSnoc<T(!new)>(s: seq<T>, x: T, key: T -> string)
    ensures Index(s + [x], key) == Assoc.Set(Index(s, key), key(x), x)
  {
    assert (s + [x])[..|s|] == s;
  }

  /** `new Map()` followed by `map.set(key(x), x)` for each element, in order. */
  method BuildIndex<T(!new)>(s: seq<T>, key: T -> string) returns (m: Assoc.Entries<string, T>)
    ensures m == Index(s, key)
  {
    m := [];
    var i := 0;
    while i < |s|
      invariant 0 <= i <= |s|
      invariant m == Index(s[..i], key)
    {
      Seqs.PrefixSnoc(s, i);
      IndexSnoc(s[..i], s[i], key);
      m := Assoc.Set(m, key(s[i]), s[i]);
      i := i + 1;
    }
    Seqs.PrefixAll(s);
  }

  function CardCode(c: Card): string { c.code }
  function ScenarioCode(s: Scenario): string { s.code }
  function CampaignCode(c: Campaign): string { c.code }

  // ---------------------------------------------------------------------
  // Cards by encounter set
  // ---------------------------------------------------------------------

  /** The cards of encounter set `e`, in corpus order. */
  function EncounterCards(all: seq<Card>, e: string): (r: seq<Card>)
    ensures forall c :: c in r <==> c in all && c.encounterCode == Some(e)
    decreases |all|
  {
    if all == [] then []
    else
      var init := all[..|all| - 1];
      var last := all[|all| - 1];
      assert all == init + [last];
      if last.encounterCode == Some(e) then EncounterCards(init, e) + [last] else EncounterCards(init, e)
  }

  /** The list of a set keeps corpus order. */
  lemma {:induction false} EncounterCardsInOrder(all: seq<Card>, e: string)
    ensures Seqs.IsSubseq(EncounterCards(all, e), all)
    decreases |all|
  {
    if all != [] {
      var init := all[..|all| - 1];
      var last := all[|all| - 1];
      EncounterCardsInOrder(init, e);
      assert all == init + [last];
      if last.encounterCode == Some(e) {
        Seqs.SubseqAppendBoth(EncounterCards(init, e), init, last);
      } else {
        Seqs.SubseqAppendRight(EncounterCards(init, e), init, last);
      }
    }
  }

  lemma EncounterCardsSnoc(s: seq<Card>, c: Card, e: string)
    ensures EncounterCards(s + [c], e) == EncounterCards(s, e) + (if c.encounterCode == Some(e) then [c] else [])
  {
    assert (s + [c])[..|s|] == s;
  }

  /** `cardsByEncounter`: a list per non-empty encounter code, grown card by card. */
  method IndexByEncounter(all: seq<Card>) returns (m: map<string, seq<Card>>)
    ensures forall e :: e in m ==> e != "" && m[e] == EncounterCards(all, e) && m[e] != []
    ensures forall e :: e !in m && e != "" ==> EncounterCards(all, e) == []
  {
    m := map[];
    var i := 0;
    while i < |all|
      invariant 0 <= i <= |all|
      invariant forall e :: e in m ==> e != "" && m[e] == EncounterCards(all[..i], e) && m[e] != []
      invariant forall e :: e !in m && e != "" ==> EncounterCards(all[..i], e) == []
    {
      var card := all[i];
      Seqs.PrefixSnoc(all, i);
      forall e
        ensures EncounterCards(all[..i + 1], e) == EncounterCards(all[..i], e) + (if card.encounterCode == Some(e) then [card] else [])
      {
        EncounterCardsSnoc(all[..i], card, e);
      }
      if Cards.Truthy(card.encounterCode) {
        var e := card.encounterCode.value;
        var list := if e in m then m[e] else [];
        m := m[e := list + [card]];
      }
      i := i + 1;
    }
    Seqs.PrefixAll(all);
  }

  /** `cardsByEncounter.get(e) ?? []` */
  function EncounterList(byEncounter: map<string, seq<Card>>, e: string): seq<Card>
  {
    if e in byEncounter then byEncounter[e] else []
  }

  // ---------------------------------------------------------------------
  // Images
  // ---------------------------------------------------------------------

  /** `cards.find(c => c.imageUrl)?.imageUrl` */
  function FirstImage(cards: seq<Card>): Option<string>
    decreases |cards|
  {
    if cards == [] then None
    else if Cards.Truthy(cards[0].imageUrl) then cards[0].imageUrl
    else FirstImage(cards[1..])
  }

  /** The image found is that of the first card with a non-empty one; none when no card has one. */
  lemma {:induction false} FirstImageSpec(cards: seq<Card>)
    ensures FirstImage(cards).Some? ==>
              exists i :: 0 <= i < |cards| && cards[i].imageUrl == FirstImage(cards) && Cards.Truthy(FirstImage(cards))
                && forall j :: 0 <= j < i ==> !Cards.Truthy(cards[j].imageUrl)
    ensures FirstImage(cards).None? ==> forall i :: 0 <= i < |cards| ==> !Cards.Truthy(cards[i].imageUrl)
    decreases |cards|
  {
    if cards != [] && !Cards.Truthy(cards[0].imageUrl) {
      FirstImageSpec(cards[1..]);
      assert forall j :: 0 <= j < |cards| - 1 ==> cards[1..][j] == cards[j + 1];
      if FirstImage(cards).Some? {
        var i :| 0 <= i < |cards| - 1 && cards[1..][i].imageUrl == FirstImage(cards) && Cards.Truthy(FirstImage(cards))
                 && forall j :: 0 <= j < i ==> !Cards.Truthy(cards[1..][j].imageUrl);
        assert cards[i + 1].imageUrl == FirstImage(cards);
      }
    } else if cards != [] {
      assert cards[0].imageUrl == FirstImage(cards);
    }
  }

  /** The first image of a concatenation comes from the first part that has one. */
  lemma {:induction false} FirstImageAppend(a: seq<Card>, b: seq<Card>)
    ensures FirstImage(a + b) == if FirstImage(a).Some? then FirstImage(a) else FirstImage(b)
    decreases |a|
  {
    if a == [] {
      assert a + b == b;
    } else {
      assert (a + b)[1..] == a[1..] + b;
      FirstImageAppend(a[1..], b);
    }
  }

  // ---------------------------------------------------------------------
  // Encounter sets
  // ---------------------------------------------------------------------

  /** A card's encounter code when it is truthy; the empty string stands for none. */
  function EncounterKey(c: Card): string
  {
    if Cards.Truthy(c.encounterCode) then c.encounterCode.value else ""
  }

  /** The encounter codes of the corpus, each once, in order of first appearance. */
  function EncounterCodes(all: seq<Card>): (r: seq<string>)
    ensures forall e :: e in r <==> e != "" && exists i :: 0 <= i < |all| && all[i].encounterCode == Some(e)
    ensures Seqs.Distinct(r)
  {
    var keys := FirstKeys(all, EncounterKey);
    var r := Seqs.Filter(keys, e => e != "");
    assert forall e :: e != "" ==> ((exists i :: 0 <= i < |all| && EncounterKey(all[i]) == e) <==>
      (exists i :: 0 <= i < |all| && all[i].encounterCode == Some(e)));
    FilterDistinct(keys, e => e != "");
    r
  }

  lemma {:induction false} FilterDistinct<T(!new)>(s: seq<T>, p: T -> bool)
    requires Seqs.Distinct(s)
    ensures Seqs.Distinct(Seqs.Filter(s, p))
    decreases |s|
  {
    if s != [] {
      FilterDistinct(s[1..], p);
      assert s[0] !in s[1..];
    }
  }

  /** The position of the first of the first `n` elements with key `k`. */
  function FirstIndex<T>(s: seq<T>, key: T -> string, k: string, n: nat): (r: Option<nat>)
    requires n <= |s|
    ensures r.Some? ==> r.value < n && key(s[r.value]) == k
    ensures r.Some? ==> forall j :: 0 <= j < r.value ==> key(s[j]) != k
    ensures r.None? ==> forall i :: 0 <= i < n ==> key(s[i]) != k
    decreases n
  {
    if n == 0 then None
    else
      var r := FirstIndex(s, key, k, n - 1);
      if r.Some? then r else if key(s[n - 1]) == k then Some(n - 1) else None
  }

  /** Once found, the first position stays put as more elements are scanned. */
  lemma FirstIndexStable<T>(s: seq<T>, key: T -> string, k: string, n: nat)
    requires n < |s| && FirstIndex(s, key, k, n).Some?
    ensures FirstIndex(s, key, k, n + 1) == FirstIndex(s, key, k, n)
  {
  }

  /** A key seen for the first time at position `n` is found there. */
  lemma FirstIndexNew<T>(s: seq<T>, key: T -> string, k: string, n: nat)
    requires n < |s| && FirstIndex(s, key, k, n).None? && key(s[n]) == k
    ensures FirstIndex(s, key, k, n + 1) == Some(n)
  {
  }

  /** A code whose first card lies among the first `n` cards is one of their encounter codes. */
  lemma FirstIndexInCodes(all: seq<Card>, e: string, n: nat)
    requires n <= |all|
    ensures e != "" && FirstIndex(all, EncounterKey, e, n).Some? ==> e in EncounterCodes(all[..n])
  {
    var r := FirstIndex(all, EncounterKey, e, n);
    if e != "" && r.Some? {
      assert all[..n][r.value] == all[r.value];
    }
  }

  /** A code among the encounter codes of the first `n` cards has a first card there. */
  lemma FirstIndexFound(all: seq<Card>, e: string, n: nat)
    requires n <= |all| && e in EncounterCodes(all[..n])
    ensures FirstIndex(all, EncounterKey, e, n).Some?
  {
    var i :| 0 <= i < n && all[..n][i].encounterCode == Some(e);
    assert all[..n][i] == all[i];
  }

  /**
   * The encounter set of code `e` as the first `n` cards describe it: named
   * after the first card with that code, holding the `cardsByEncounter` list
   * and that list's first image.
   */
  function EncounterSetOf(all: seq<Card>, byEncounter: map<string, seq<Card>>, e: string, n: nat): EncounterSet
    requires n <= |all|
  {
    var list := EncounterList(byEncounter, e);
    var name := match FirstIndex(all, EncounterKey, e, n) case Some(j) => all[j].encounterName case None => None;
    EncounterSet(e, name, FirstImage(list), list)
  }

  /** One encounter set per encounter code of the first `n` cards, in order of first appearance. */
  function EncounterSets(all: seq<Card>, byEncounter: map<string, seq<Card>>, n: nat): (r: Assoc.Entries<string, EncounterSet>)
    requires n <= |all|
  {
    var codes := EncounterCodes(all[..n]);
    seq(|codes|, k requires 0 <= k < |codes| => (codes[k], EncounterSetOf(all, byEncounter, codes[k], n)))
  }

  /** The sets are keyed by the encounter codes, and each entry is its code's set, named after its first card. */
  lemma EncounterSetsSpec(all: seq<Card>, byEncounter: map<string, seq<Card>>, n: nat, k: int)
    requires n <= |all|
    ensures Assoc.Keys(EncounterSets(all, byEncounter, n)) == EncounterCodes(all[..n])
    ensures 0 <= k < |EncounterSets(all, byEncounter, n)| ==>
              var (e, es) := EncounterSets(all, byEncounter, n)[k];
              es.code == e && es.cards == EncounterList(byEncounter, e) && es.imageUrl == FirstImage(es.cards)
              && FirstIndex(all, EncounterKey, e, n).Some? && es.name == all[FirstIndex(all, EncounterKey, e, n).value].encounterName
  {
    var r := EncounterSets(all, byEncounter, n);
    assert Assoc.Keys(r) == EncounterCodes(all[..n]);
    if 0 <= k < |r| {
      FirstIndexFound(all, r[k].0, n);
    }
  }

  /** Scanning card `n` appends its code's set when the code is new, and changes nothing else. */
  lemma EncounterSetsStep(all: seq<Card>, byEncounter: map<string, seq<Card>>, n: nat)
    requires n < |all|
    ensures var c := all[n];
            EncounterSets(all, byEncounter, n + 1) ==
              if Cards.Truthy(c.encounterCode) && c.encounterCode.value !in EncounterCodes(all[..n]) then
                EncounterSets(all, byEncounter, n) + [(c.encounterCode.value, EncounterSetOf(all, byEncounter, c.encounterCode.value, n + 1))]
              else EncounterSets(all, byEncounter, n)
  {
    var c := all[n];
    if Cards.Truthy(c.encounterCode) && c.encounterCode.value !in EncounterCodes(all[..n]) {
      EncounterSetsGrow(all, byEncounter, n);
    } else {
      EncounterSetsSame(all, byEncounter, n);
    }
  }

  /** A card with a new code appends that code's set. */
  lemma EncounterSetsGrow(all: seq<Card>, byEncounter: map<string, seq<Card>>, n: nat)
    requires n < |all| && Cards.Truthy(all[n].encounterCode) && all[n].encounterCode.value !in EncounterCodes(all[..n])
    ensures var e := all[n].encounterCode.value;
            EncounterSets(all, byEncounter, n + 1) ==
              EncounterSets(all, byEncounter, n) + [(e, EncounterSetOf(all, byEncounter, e, n + 1))]
  {
    var c := all[n];
    var e := c.encounterCode.value;
    Seqs.PrefixSnoc(all, n);
    EncounterCodesSnoc(all[..n], c);
    var before := EncounterCodes(all[..n]);
    var after := EncounterCodes(all[..n + 1]);
    var b := EncounterSets(all, byEncounter, n);
    var a := EncounterSets(all, byEncounter, n + 1);
    var x := (e, EncounterSetOf(all, byEncounter, e, n + 1));
    EncounterSetsKeepPrefix(all, byEncounter, n);
    assert after == before + [e];
    assert a[|b|] == x;
    Seqs.ExtendsBy(a, b, x);
  }

  /** A card without a code, or with one already seen, changes nothing. */
  lemma EncounterSetsSame(all: seq<Card>, byEncounter: map<string, seq<Card>>, n: nat)
    requires n < |all| && !(Cards.Truthy(all[n].encounterCode) && all[n].encounterCode.value !in EncounterCodes(all[..n]))
    ensures EncounterSets(all, byEncounter, n + 1) == EncounterSets(all, byEncounter, n)
  {
    var c := all[n];
    Seqs.PrefixSnoc(all, n);
    EncounterCodesSnoc(all[..n], c);
    assert EncounterCodes(all[..n + 1]) == EncounterCodes(all[..n]);
    EncounterSetsKeepPrefix(all, byEncounter, n);
  }

  /** Scanning card `n` leaves the sets already built as they were. */
  lemma EncounterSetsKeepPrefix(all: seq<Card>, byEncounter: map<string, seq<Card>>, n: nat)
    requires n < |all|
    ensures |EncounterSets(all, byEncounter, n)| <= |EncounterSets(all, byEncounter, n + 1)|
    ensures forall k :: 0 <= k < |EncounterSets(all, byEncounter, n)| ==>
              EncounterSets(all, byEncounter, n + 1)[k] == EncounterSets(all, byEncounter, n)[k]
  {
    var c := all[n];
    Seqs.PrefixSnoc(all, n);
    EncounterCodesSnoc(all[..n], c);
    var before := EncounterCodes(all[..n]);
    var after := EncounterCodes(all[..n + 1]);
    var b := EncounterSets(all, byEncounter, n);
    var a := EncounterSets(all, byEncounter, n + 1);
    assert after[..|before|] == before;
    forall k | 0 <= k < |before|
      ensures a[k] == b[k]
    {
      assert after[k] == before[k];
      EncounterSetOfStable(all, byEncounter, before[k], n);
    }
  }

  /** The set of a code already seen does not change as more cards are scanned. */
  lemma EncounterSetOfStable(all: seq<Card>, byEncounter: map<string, seq<Card>>, e: string, n: nat)
    requires n < |all| && e in EncounterCodes(all[..n])
    ensures EncounterSetOf(all, byEncounter, e, n + 1) == EncounterSetOf(all, byEncounter, e, n)
  {
    FirstIndexFound(all, e, n);
    FirstIndexStable(all, EncounterKey, e, n);
  }

  /** The set a new code gets is the one its first card, the current card, describes. */
  lemma EncounterSetNew(all: seq<Card>, byEncounter: map<string, seq<Card>>, n: nat)
    requires n < |all| && Cards.Truthy(all[n].encounterCode)
    requires all[n].encounterCode.value !in EncounterCodes(all[..n])
    ensures var e := all[n].encounterCode.value;
            var list := EncounterList(byEncounter, e);
            EncounterSetOf(all, byEncounter, e, n + 1) == EncounterSet(e, all[n].encounterName, FirstImage(list), list)
  {
    var e := all[n].encounterCode.value;
    FirstIndexInCodes(all, e, n);
    FirstIndexNew(all, EncounterKey, e, n);
  }

  /** The step of the build loop: card `n` adds the set it names when its code is not yet a key. */
  lemma EncounterSetsNext(all: seq<Card>, byEncounter: map<string, seq<Card>>, n: nat)
    requires n < |all|
    ensures var c := all[n];
            var m := EncounterSets(all, byEncounter, n);
            EncounterSets(all, byEncounter, n + 1) ==
              if Cards.Truthy(c.encounterCode) && c.encounterCode.value !in Assoc.Keys(m) then
                var list := EncounterList(byEncounter, c.encounterCode.value);
                m + [(c.encounterCode.value, EncounterSet(c.encounterCode.value, c.encounterName, FirstImage(list), list))]
              else m
  {
    var c := all[n];
    EncounterSetsStep(all, byEncounter, n);
    EncounterSetsSpec(all, byEncounter, n, 0);
    if Cards.Truthy(c.encounterCode) && c.encounterCode.value !in EncounterCodes(all[..n]) {
      EncounterSetNew(all, byEncounter, n);
    }
  }

  /** `encounterSets`, built by one pass over the corpus that adds a set for each code not seen yet. */
  method BuildEncounterSets(all: seq<Card>, byEncounter: map<string, seq<Card>>) returns (m: Assoc.Entries<string, EncounterSet>)
    ensures m == EncounterSets(all, byEncounter, |all|)
  {
    m := [];
    var i := 0;
    while i < |all|
      invariant 0 <= i <= |all|
      invariant m == EncounterSets(all, byEncounter, i)
    {
      var card := all[i];
      EncounterSetsNext(all, byEncounter, i);
      if Cards.Truthy(card.encounterCode) && card.encounterCode.value !in Assoc.Keys(m) {
        var e := card.encounterCode.value;
        var list := EncounterList(byEncounter, e);
        m := m + [(e, EncounterSet(e, card.encounterName, FirstImage(list), list))];
      }
      i := i + 1;
    }
  }

  lemma EncounterCodesSnoc(s: seq<Card>, c: Card)
    ensures EncounterCodes(s + [c]) ==
      if Cards.Truthy(c.encounterCode) && c.encounterCode.value !in EncounterCodes(s) then EncounterCodes(s) + [c.encounterCode.value]
      else EncounterCodes(s)
  {
    var keys := FirstKeys(s, EncounterKey);
    assert (s + [c])[..|s|] == s;
    var k := EncounterKey(c);
    Seqs.FilterAppend(keys, [k], e => e != "");
  }

  // ---------------------------------------------------------------------
  // Campaigns and scenarios
  // ---------------------------------------------------------------------

  /** The cards of a scenario's encounter sets, set after set, in the order listed. */
  function ScenarioCards(codes: seq<string>, byEncounter: map<string, seq<Card>>): seq<Card>
    decreases |codes|
  {
    if codes == [] then [] else EncounterList(byEncounter, codes[0]) + ScenarioCards(codes[1..], byEncounter)
  }

  /** A scenario's image is the first image of its first encounter set that has one. */
  lemma ScenarioImageStep(codes: seq<string>, byEncounter: map<string, seq<Card>>)
    requires codes != []
    ensures FirstImage(ScenarioCards(codes, byEncounter)) ==
      if FirstImage(EncounterList(byEncounter, codes[0])).Some? then FirstImage(EncounterList(byEncounter, codes[0]))
      else FirstImage(ScenarioCards(codes[1..], byEncounter))
  {
    FirstImageAppend(EncounterList(byEncounter, codes[0]), ScenarioCards(codes[1..], byEncounter));
  }

  /** Codes without an encounter set contribute no cards. */
  lemma {:induction false} UnknownCodesIgnored(codes: seq<string>, byEncounter: map<string, seq<Card>>)
    ensures ScenarioCards(codes, byEncounter) == ScenarioCards(Seqs.Filter(codes, e => e in byEncounter), byEncounter)
    decreases |codes|
  {
    if codes != [] {
      UnknownCodesIgnored(codes[1..], byEncounter);
    }
  }

  function ParseScenario(raw: RawCampaign, s: RawScenario, byEncounter: map<string, seq<Card>>): (r: Scenario)
    ensures r.code == s.scenarioCode && r.campaignCode == raw.campaignCode && r.encounterCodes == s.encounterCodes
    ensures r.imageUrl == FirstImage(ScenarioCards(s.encounterCodes, byEncounter))
  {
    Scenario(s.scenarioCode, s.scenarioName, s.scenarioPrefix, raw.campaignCode, raw.campaignName,
             s.encounterCodes, FirstImage(ScenarioCards(s.encounterCodes, byEncounter)))
  }

  /** A campaign with its scenarios; its image is its first scenario's. */
  function ParseCampaign(raw: RawCampaign, byEncounter: map<string, seq<Card>>): (r: Campaign)
    ensures r.code == raw.campaignCode && |r.scenarios| == |raw.scenarios|
    ensures forall i :: 0 <= i < |raw.scenarios| ==> r.scenarios[i] == ParseScenario(raw, raw.scenarios[i], byEncounter)
    ensures r.scenarios == [] ==> r.imageUrl.None?
    ensures r.scenarios != [] ==> r.imageUrl == r.scenarios[0].imageUrl
  {
    var scenarios := seq(|raw.scenarios|, i requires 0 <= i < |raw.scenarios| => ParseScenario(raw, raw.scenarios[i], byEncounter));
    Campaign(raw.campaignCode, raw.campaignName, scenarios, if scenarios == [] then None else scenarios[0].imageUrl)
  }

  /** Every campaign's scenarios, campaign after campaign. */
  function AllScenarios(campaigns: seq<Campaign>): seq<Scenario>
    decreases |campaigns|
  {
    if campaigns == [] then [] else AllScenarios(campaigns[..|campaigns| - 1]) + campaigns[|campaigns| - 1].scenarios
  }

  /** `scenariosByCode`: a `set` per scenario of every campaign, in order. */
  method IndexScenarios(campaigns: seq<Campaign>) returns (m: Assoc.Entries<string, Scenario>)
    ensures m == Index(AllScenarios(campaigns), ScenarioCode)
  {
    m := [];
    var i := 0;
    while i < |campaigns|
      invariant 0 <= i <= |campaigns|
      invariant m == Index(AllScenarios(campaigns[..i]), ScenarioCode)
    {
      var c := campaigns[i];
      ghost var done := AllScenarios(campaigns[..i]);
      var j := 0;
      assert done + c.scenarios[..0] == done;
      while j < |c.scenarios|
        invariant 0 <= j <= |c.scenarios|
        invariant m == Index(done + c.scenarios[..j], ScenarioCode)
      {
        Seqs.PrefixSnoc(c.scenarios, j);
        assert done + c.scenarios[..j + 1] == (done + c.scenarios[..j]) + [c.scenarios[j]];
        IndexSnoc(done + c.scenarios[..j], c.scenarios[j], ScenarioCode);
        m := Assoc.Set(m, c.scenarios[j].code, c.scenarios[j]);
        j := j + 1;
      }
      Seqs.PrefixSnoc(campaigns, i);
      assert campaigns[..i + 1][..i] == campaigns[..i];
      Seqs.PrefixAll(c.scenarios);
      i := i + 1;
    }
    Seqs.PrefixAll(campaigns);
  }

  // ---------------------------------------------------------------------
  // Search index
  // ---------------------------------------------------------------------

  function KindName(k: EntryKind): string
  {
    match k
    case CardEntry => "card"
    case EncounterEntry => "encounter"
    case ScenarioEntry => "scenario"
    case CampaignEntry => "campaign"
  }

  /** An entry's id is its kind's name, a colon and its code. */
  predicate WellIdentified(e: SearchEntry)
  {
    e.id == KindName(e.kind) + ":" + e.code
  }

  function CardEntryOf(c: Card): (e: SearchEntry)
    ensures WellIdentified(e) && e.kind == CardEntry && e.code == c.code
  {
    SearchEntry(KindName(CardEntry) + ":" + c.code, CardEntry, c.code, Some(c.name), c.imageUrl, Some(c.typeCode), Some(c.packName))
  }

  function EncounterEntryOf(es: EncounterSet): (e: SearchEntry)
    ensures WellIdentified(e) && e.kind == EncounterEntry && e.code == es.code
  {
    SearchEntry(KindName(EncounterEntry) + ":" + es.code, EncounterEntry, es.code, es.name, es.imageUrl, None, None)
  }

  function ScenarioEntryOf(s: Scenario): (e: SearchEntry)
    ensures WellIdentified(e) && e.kind == ScenarioEntry && e.code == s.code
  {
    SearchEntry(KindName(ScenarioEntry) + ":" + s.code, ScenarioEntry, s.code, Some(s.name), s.imageUrl, None, None)
  }

  function CampaignEntryOf(c: Campaign): (e: SearchEntry)
    ensures WellIdentified(e) && e.kind == CampaignEntry && e.code == c.code
  {
    SearchEntry(KindName(CampaignEntry) + ":" + c.code, CampaignEntry, c.code, Some(c.name), c.imageUrl, None, None)
  }

  /** Distinct kinds give distinct ids whatever the codes, since no kind name is a prefix of another followed by ':'. */
  lemma KindNamesDistinct(a: EntryKind, b: EntryKind, ca: string, cb: string)
    requires a != b
    ensures KindName(a) + ":" + ca != KindName(b) + ":" + cb
  {
    var x := KindName(a) + ":" + ca;
    var y := KindName(b) + ":" + cb;
    var i := if (a == CardEntry && b == CampaignEntry) || (a == CampaignEntry && b == CardEntry) then 2 else 0;
    assert x[i] == KindName(a)[i] && y[i] == KindName(b)[i];
    assert x[i] != y[i];
  }

  /** Pushes one entry per element of `s`, made by `f`, onto `entries`. */
  method PushAll<T>(entries: seq<SearchEntry>, s: seq<T>, f: T -> SearchEntry) returns (r: seq<SearchEntry>)
    ensures |r| == |entries| + |s|
    ensures forall i :: 0 <= i < |entries| ==> r[i] == entries[i]
    ensures forall i :: 0 <= i < |s| ==> r[|entries| + i] == f(s[i])
  {
    r := entries;
    var i := 0;
    while i < |s|
      invariant 0 <= i <= |s|
      invariant |r| == |entries| + i
      invariant r[..|entries|] == entries
      invariant forall k :: 0 <= k < i ==> r[|entries| + k] == f(s[k])
    {
      r := r + [f(s[i])];
      i := i + 1;
    }
  }

  function Values<V>(m: Assoc.Entries<string, V>): (r: seq<V>)
    ensures |r| == |m| && forall i :: 0 <= i < |m| ==> r[i] == m[i].1
  {
    seq(|m|, i requires 0 <= i < |m| => m[i].1)
  }

  /**
   * The search index: every card, then every encounter set, then every
   * scenario of `scenariosByCode`, then every campaign of the campaign list,
   * each in its own order.
   */
  method BuildSearchIndex(all: seq<Card>, sets: Assoc.Entries<string, EncounterSet>,
                          scenarios: Assoc.Entries<string, Scenario>, campaigns: seq<Campaign>)
    returns (entries: seq<SearchEntry>)
    ensures |entries| == |all| + |sets| + |scenarios| + |campaigns|
    ensures forall i :: 0 <= i < |entries| ==> WellIdentified(entries[i])
    ensures forall i :: 0 <= i < |all| ==> entries[i] == CardEntryOf(all[i])
    ensures forall i :: 0 <= i < |sets| ==> entries[|all| + i] == EncounterEntryOf(sets[i].1)
    ensures forall i :: 0 <= i < |scenarios| ==> entries[|all| + |sets| + i] == ScenarioEntryOf(scenarios[i].1)
    ensures forall i :: 0 <= i < |campaigns| ==> entries[|all| + |sets| + |scenarios| + i] == CampaignEntryOf(campaigns[i])
  {
    var e1 := PushAll([], all, CardEntryOf);
    var e2 := PushAll(e1, Values(sets), EncounterEntryOf);
    var e3 := PushAll(e2, Values(scenarios), ScenarioEntryOf);
    entries := PushAll(e3, campaigns, CampaignEntryOf);
    forall i | 0 <= i < |all| ensures entries[i] == CardEntryOf(all[i]) {
      assert entries[i] == e3[i] == e2[i] == e1[i];
    }
    forall i | 0 <= i < |sets| ensures entries[|all| + i] == EncounterEntryOf(sets[i].1) {
      assert entries[|all| + i] == e3[|all| + i] == e2[|all| + i];
    }
    forall i | 0 <= i < |scenarios| ensures entries[|all| + |sets| + i] == ScenarioEntryOf(scenarios[i].1) {
      assert entries[|all| + |sets| + i] == e3[|all| + |sets| + i];
    }
    forall i | 0 <= i < |entries| ensures WellIdentified(entries[i]) {
      if i < |all| {
        assert entries[i] == CardEntryOf(all[i]);
      } else if i < |all| + |sets| {
        assert entries[|all| + (i - |all|)] == EncounterEntryOf(sets[i - |all|].1);
      } else if i < |all| + |sets| + |scenarios| {
        assert entries[|all| + |sets| + (i - |all| - |sets|)] == ScenarioEntryOf(scenarios[i - |all| - |sets|].1);
      } else {
        assert entries[|e3| + (i - |e3|)] == CampaignEntryOf(campaigns[i - |e3|]);
      }
    }
  }

  // ---------------------------------------------------------------------
  // The loaded data and its getters
  // ---------------------------------------------------------------------

  datatype Site = Site(
    allCards: seq<Card>,
    cardsByCode: Assoc.Entries<string, Card>,
    cardsByEncounter: map<string, seq<Card>>,
    encounterSets: Assoc.Entries<string, EncounterSet>,
    campaigns: seq<Campaign>,
    campaignsByCode: Assoc.Entries<string, Campaign>,
    scenariosByCode: Assoc.Entries<string, Scenario>)

  /** Everything the module computes when it is loaded, in the order it does so. */
  method Load(rawCards: seq<RawCard>, rawCampaigns: seq<RawCampaign>) returns (site: Site)
    ensures |site.allCards| == |rawCards| && forall i :: 0 <= i < |rawCards| ==> site.allCards[i] == ParseCard(rawCards[i])
    ensures site.cardsByCode == Index(site.allCards, CardCode)
    ensures forall e :: e in site.cardsByEncounter ==> e != "" && site.cardsByEncounter[e] == EncounterCards(site.allCards, e)
    ensures forall e :: e !in site.cardsByEncounter && e != "" ==> EncounterCards(site.allCards, e) == []
    ensures site.encounterSets == EncounterSets(site.allCards, site.cardsByEncounter, |site.allCards|)
    ensures |site.campaigns| == |rawCampaigns|
    ensures forall i :: 0 <= i < |rawCampaigns| ==> site.campaigns[i] == ParseCampaign(rawCampaigns[i], site.cardsByEncounter)
    ensures site.campaignsByCode == Index(site.campaigns, CampaignCode)
    ensures site.scenariosByCode == Index(AllScenarios(site.campaigns), ScenarioCode)
  {
    var all := seq(|rawCards|, i requires 0 <= i < |rawCards| => ParseCard(rawCards[i]));
    var byCode := BuildIndex(all, CardCode);
    var byEncounter := IndexByEncounter(all);
    var sets := BuildEncounterSets(all, byEncounter);
    var campaigns := seq(|rawCampaigns|, i requires 0 <= i < |rawCampaigns| => ParseCampaign(rawCampaigns[i], byEncounter));
    var campaignsByCode := BuildIndex(campaigns, CampaignCode);
    var scenariosByCode := IndexScenarios(campaigns);
    site := Site(all, byCode, byEncounter, sets, campaigns, campaignsByCode, scenariosByCode);
  }

  /** `getCard`: the last card of the corpus with that code, if any. */
  function GetCard(site: Site, code: string): Option<Card>
  {
    Assoc.Get(site.cardsByCode, code)
  }

  /** `getEncounterCards`: the cards of a known encounter set, `[]` otherwise. */
  function GetEncounterCards(site: Site, code: string): seq<Card>
  {
    EncounterList(site.cardsByEncounter, code)
  }

  /** `getScenario`: the last scenario with that code across all campaigns. */
  function GetScenario(site: Site, code: string): Option<Scenario>
  {
    Assoc.Get(site.scenariosByCode, code)
  }

  /** `getCampaign`: the last campaign with that code. */
  function GetCampaign(site: Site, code: string): Option<Campaign>
  {
    Assoc.Get(site.campaignsByCode, code)
  }

  /** The getters on a loaded site: last entry wins, unknown codes give nothing. */
  lemma GettersSpec(site: Site, code: string)
    requires site.cardsByCode == Index(site.allCards, CardCode)
    requires site.campaignsByCode == Index(site.campaigns, CampaignCode)
    requires site.scenariosByCode == Index(AllScenarios(site.campaigns), ScenarioCode)
    requires forall e :: e in site.cardsByEncounter ==> e != "" && site.cardsByEncounter[e] == EncounterCards(site.allCards, e)
    requires forall e :: e !in site.cardsByEncounter && e != "" ==> EncounterCards(site.allCards, e) == []
    ensures GetCard(site, code) == (match LastIndex(site.allCards, CardCode, code)
                                    case None => None case Some(i) => Some(site.allCards[i]))
    ensures GetCampaign(site, code) == (match LastIndex(site.campaigns, CampaignCode, code)
                                        case None => None case Some(i) => Some(site.campaigns[i]))
    ensures GetScenario(site, code) == (match LastIndex(AllScenarios(site.campaigns), ScenarioCode, code)
                                        case None => None case Some(i) => Some(AllScenarios(site.campaigns)[i]))
    ensures code == "" ==> GetEncounterCards(site, code) == []
    ensures code != "" ==> GetEncounterCards(site, code) == EncounterCards(site.allCards, code)
  {
    IndexGet(site.allCards, CardCode, code);
    IndexGet(site.campaigns, CampaignCode, code);
    IndexGet(AllScenarios(site.campaigns), ScenarioCode, code);
    EncounterListOf(site.cardsByEncounter, site.allCards, code);
  }

  /** With the encounter index of the corpus, looking a code up gives its cards, and nothing for the empty code. */
  lemma EncounterListOf(byEncounter: map<string, seq<Card>>, all: seq<Card>, code: string)
    requires forall e :: e in byEncounter ==> e != "" && byEncounter[e] == EncounterCards(all, e)
    requires forall e :: e !in byEncounter && e != "" ==> EncounterCards(all, e) == []
    ensures code == "" ==> EncounterList(byEncounter, code) == []
    ensures code != "" ==> EncounterList(byEncounter, code) == EncounterCards(all, code)
  {
  }
}
