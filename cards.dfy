/**
 * The card corpus of the card browser: the raw card record as it comes out
 * of the card dump, the parsed `Card`, and the four build steps that turn a
 * dump into `allCards`, `cardsByCode`, link back-references and
 * `cardsByEncounter`.
 *
 * Cards refer to one another by position in `allCards` (an index), so the
 * in-place link step, which writes a reference into the target card, is an
 * update of one array cell.
 */
module Cards {
  import opened Wrappers
  import Seqs

  /** JavaScript truthiness of an optional string: present and not "". */
  predicate Truthy(s: Option<string>)
  {
    s.Some? && s.value != ""
  }

  /** A card record as it appears in the dump; absent and null are both `None`. */
  datatype RawCard = RawCard(
    code: string,
    name: string,
    typeCode: string,
    typeName: string,
    factionCode: string,
    factionName: string,
    packCode: string,
    packName: string,
    encounterCode: Option<string>,
    encounterName: Option<string>,
    traits: Option<string>,
    quantity: int,
    imagesrc: Option<string>,
    doubleSided: Option<bool>,
    backimagesrc: Option<string>,
    health: Option<int>,
    enemyFight: Option<int>,
    enemyEvade: Option<int>,
    enemyDamage: Option<int>,
    enemyHorror: Option<int>,
    shroud: Option<int>,
    clues: Option<int>,
    cluesFixed: Option<bool>,
    victory: Option<int>,
    healthPerInvestigator: Option<bool>,
    position: int,
    realSlot: Option<string>,
    linkedToCode: Option<string>,
    linkedCard: Option<RawCard>)

  /** A parsed card. `linkedToCard` is the position in `allCards` of the card linking to this one. */
  datatype Card = Card(
    code: string,
    name: string,
    typeCode: string,
    typeName: string,
    factionCode: string,
    factionName: string,
    packCode: string,
    packName: string,
    encounterCode: Option<string>,
    encounterName: Option<string>,
    traits: Option<string>,
    quantity: int,
    imageUrl: Option<string>,
    doubleSided: bool,
    backImageUrl: Option<string>,
    health: Option<int>,
    enemyFight: Option<int>,
    enemyEvade: Option<int>,
    enemyDamage: Option<int>,
    enemyHorror: Option<int>,
    shroud: Option<int>,
    clues: Option<int>,
    cluesFixed: Option<bool>,
    victory: Option<int>,
    healthPerInvestigator: Option<bool>,
    position: int,
    slot: Option<string>,
    linkedCard: Option<Card>,
    linkedToCode: Option<string>,
    linkedToCard: Option<nat>)

  const ImageBase: string := "https://arkhamdb.com"

  /** The absolute image address for an image path of the dump. */
  function CardImageUrl(src: Option<string>): (r: Option<string>)
    ensures r.None? <==> !Truthy(src)
    ensures r.Some? ==> |r.value| == |ImageBase| + |src.value|
    ensures r.Some? ==> r.value[..|ImageBase|] == ImageBase && r.value[|ImageBase|..] == src.value
  {
    if Truthy(src) then Some(ImageBase + src.value) else None
  }

  /** The card fields shared by a card and its linked (back-side) card. */
  function ParseBaseCard(raw: RawCard): (c: Card)
    ensures c.imageUrl == CardImageUrl(raw.imagesrc) && c.backImageUrl == CardImageUrl(raw.backimagesrc)
    ensures c.doubleSided <==> raw.doubleSided == Some(true)
    ensures c.slot.None? <==> !Truthy(raw.realSlot)
    ensures c.slot.Some? ==> c.slot == raw.realSlot
    ensures c.linkedCard.None? && c.linkedToCode.None? && c.linkedToCard.None?
  {
    Card(raw.code, raw.name, raw.typeCode, raw.typeName, raw.factionCode, raw.factionName,
         raw.packCode, raw.packName, raw.encounterCode, raw.encounterName, raw.traits,
         raw.quantity, CardImageUrl(raw.imagesrc), raw.doubleSided.GetOr(false),
         CardImageUrl(raw.backimagesrc), raw.health, raw.enemyFight, raw.enemyEvade,
         raw.enemyDamage, raw.enemyHorror, raw.shroud, raw.clues, raw.cluesFixed, raw.victory,
         raw.healthPerInvestigator, raw.position,
         if Truthy(raw.realSlot) then raw.realSlot else None,
         None, None, None)
  }

  /** A card with its link code and its linked card parsed one level deep. */
  function ParseCard(raw: RawCard): (c: Card)
    ensures c.linkedToCode == raw.linkedToCode && c.linkedToCard.None?
    ensures c.linkedCard.Some? <==> raw.linkedCard.Some?
    ensures c.linkedCard.Some? ==> c.linkedCard.value.linkedCard.None? && c.linkedCard.value.code == raw.linkedCard.value.code
    ensures c.code == raw.code && c.encounterCode == raw.encounterCode && c.typeCode == raw.typeCode
  {
    ParseBaseCard(raw).(
      linkedToCode := raw.linkedToCode,
      linkedCard := if raw.linkedCard.Some? then Some(ParseBaseCard(raw.linkedCard.value)) else None)
  }

  /** `allCards`: every raw card parsed, in dump order. */
  method BuildAllCards(raws: seq<RawCard>) returns (all: seq<Card>)
    ensures |all| == |raws|
    ensures forall i :: 0 <= i < |raws| ==> all[i] == ParseCard(raws[i])
  {
    all := [];
    var i := 0;
    while i < |raws|
      invariant 0 <= i <= |raws|
      invariant |all| == i
      invariant forall k :: 0 <= k < i ==> all[k] == ParseCard(raws[k])
    {
      all := all + [ParseCard(raws[i])];
      i := i + 1;
    }
  }

  /**
   * The code index that a `Map.set` per card, in order, leaves behind: every
   * code maps to the position of the LAST card carrying it.
   */
  function CodeMap(s: seq<Card>): map<string, nat>
    decreases |s|
  {
    if s == [] then map[]
    else CodeMap(s[..|s| - 1])[s[|s| - 1].code := |s| - 1]
  }

  lemma {:induction false} CodeMapPoints(s: seq<Card>, code: string)
    ensures code in CodeMap(s) ==> CodeMap(s)[code] < |s| && s[CodeMap(s)[code]].code == code
    ensures (exists i :: 0 <= i < |s| && s[i].code == code) ==> code in CodeMap(s)
    decreases |s|
  {
    if s != [] {
      var n := |s| - 1;
      CodeMapPoints(s[..n], code);
      if code != s[n].code {
        if exists i :: 0 <= i < |s| && s[i].code == code {
          var i :| 0 <= i < |s| && s[i].code == code;
          assert s[..n][i] == s[i];
        }
        if code in CodeMap(s) {
          assert s[..n][CodeMap(s)[code]] == s[CodeMap(s)[code]];
        }
      }
    }
  }

  lemma {:induction false} CodeMapLast(s: seq<Card>, code: string, j: int)
    requires code in CodeMap(s) && CodeMap(s)[code] < j < |s|
    ensures s[j].code != code
    decreases |s|
  {
    var n := |s| - 1;
    if code != s[n].code && j < n {
      assert s[..n][j] == s[j];
      CodeMapLast(s[..n], code, j);
    }
  }

  /**
   * The code index that a `Map.set` per card, in order, leaves behind: every
   * code maps to the position of the LAST card carrying it.
   */
  lemma CodeMapSpec(s: seq<Card>)
    ensures forall i :: 0 <= i < |s| ==> s[i].code in CodeMap(s)
    ensures forall code :: code in CodeMap(s) ==> CodeMap(s)[code] < |s| && s[CodeMap(s)[code]].code == code
    ensures forall code, j :: code in CodeMap(s) && CodeMap(s)[code] < j < |s| ==> s[j].code != code
  {
    forall i | 0 <= i < |s| ensures s[i].code in CodeMap(s) {
      CodeMapPoints(s, s[i].code);
    }
    forall code | code in CodeMap(s) ensures CodeMap(s)[code] < |s| && s[CodeMap(s)[code]].code == code {
      CodeMapPoints(s, code);
    }
    forall code, j | code in CodeMap(s) && CodeMap(s)[code] < j < |s| ensures s[j].code != code {
      CodeMapLast(s, code, j);
    }
  }

  /** `cardsByCode`, built by one pass over `allCards`. */
  method IndexByCode(all: seq<Card>) returns (byCode: map<string, nat>)
    ensures byCode == CodeMap(all)
  {
    byCode := map[];
    var i := 0;
    while i < |all|
      invariant 0 <= i <= |all|
      invariant byCode == CodeMap(all[..i])
    {
      assert all[..i + 1][..i] == all[..i];
      byCode := byCode[all[i].code := i];
      i := i + 1;
    }
    assert all[..i] == all;
  }

  /** Card `c` links to position `j`: its link code is truthy and resolves to `j`. */
  predicate LinksTo(c: Card, byCode: map<string, nat>, j: nat)
  {
    Truthy(c.linkedToCode) && c.linkedToCode.value in byCode && byCode[c.linkedToCode.value] == j
  }

  /** The last card among the first `k` that links to position `j`, if any. */
  function LastLinker(s: seq<Card>, byCode: map<string, nat>, j: nat, k: nat): Option<nat>
    requires k <= |s|
    decreases k
  {
    if k == 0 then None
    else if LinksTo(s[k - 1], byCode, j) then Some(k - 1)
    else LastLinker(s, byCode, j, k - 1)
  }

  /** The last linker links to `j` and no later card among the first `k` does; none means no card does. */
  lemma {:induction false} LastLinkerSpec(s: seq<Card>, byCode: map<string, nat>, j: nat, k: nat)
    requires k <= |s|
    ensures var r := LastLinker(s, byCode, j, k);
      && (r.Some? ==> r.value < k && LinksTo(s[r.value], byCode, j))
      && (r.Some? ==> forall i :: r.value < i < k ==> !LinksTo(s[i], byCode, j))
      && (r.None? ==> forall i :: 0 <= i < k ==> !LinksTo(s[i], byCode, j))
    decreases k
  {
    if k > 0 && !LinksTo(s[k - 1], byCode, j) {
      LastLinkerSpec(s, byCode, j, k - 1);
    }
  }

  /** Card `c` with its back-reference set to card `i`. */
  function BackRef(c: Card, i: nat): Card
  {
    c.(linkedToCard := Some(i))
  }

  /** Card `j` after the first `k` cards have written their back-references. */
  function LinkedUpTo(s: seq<Card>, byCode: map<string, nat>, j: nat, k: nat): Card
    requires j < |s| && k <= |s|
  {
    match LastLinker(s, byCode, j, k)
    case None => s[j]
    case Some(i) => BackRef(s[j], i)
  }

  /** Card `k`, linking to `t`, sets the back-reference of card `t` and of no other. */
  lemma LinkedUpToStep(s: seq<Card>, byCode: map<string, nat>, k: nat, t: nat, j: nat)
    requires k < |s| && t < |s| && j < |s| && LinksTo(s[k], byCode, t)
    ensures j == t ==> LinkedUpTo(s, byCode, j, k + 1) == BackRef(LinkedUpTo(s, byCode, j, k), k)
    ensures j != t ==> LinkedUpTo(s, byCode, j, k + 1) == LinkedUpTo(s, byCode, j, k)
  {
  }

  /** Card `k`, linking nowhere, changes no back-reference. */
  lemma LinkedUpToSkip(s: seq<Card>, byCode: map<string, nat>, k: nat, j: nat)
    requires k < |s| && j < |s| && !(Truthy(s[k].linkedToCode) && s[k].linkedToCode.value in byCode)
    ensures LinkedUpTo(s, byCode, j, k + 1) == LinkedUpTo(s, byCode, j, k)
  {
  }

  /** Writing back-references leaves the link code alone. */
  lemma LinkedUpToCode(s: seq<Card>, byCode: map<string, nat>, j: nat, k: nat)
    requires j < |s| && k <= |s|
    ensures LinkedUpTo(s, byCode, j, k).linkedToCode == s[j].linkedToCode
  {
  }

  /** `x` holds every card of `s` after the first `k` cards have written their back-references. */
  predicate LinkedThrough(x: seq<Card>, s: seq<Card>, byCode: map<string, nat>, k: nat)
  {
    |x| == |s| && k <= |s| && forall j :: 0 <= j < |x| ==> x[j] == LinkedUpTo(s, byCode, j, k)
  }

  lemma LinkedThroughStep(x: seq<Card>, s: seq<Card>, byCode: map<string, nat>, k: nat, t: nat)
    requires LinkedThrough(x, s, byCode, k) && k < |s| && t < |s| && LinksTo(s[k], byCode, t)
    ensures LinkedThrough(x[t := BackRef(x[t], k)], s, byCode, k + 1)
  {
    var y := x[t := BackRef(x[t], k)];
    forall j | 0 <= j < |y|
      ensures y[j] == LinkedUpTo(s, byCode, j, k + 1)
    {
      LinkedUpToStep(s, byCode, k, t, j);
    }
  }

  lemma LinkedThroughSkip(x: seq<Card>, s: seq<Card>, byCode: map<string, nat>, k: nat)
    requires LinkedThrough(x, s, byCode, k) && k < |s|
    requires !(Truthy(s[k].linkedToCode) && s[k].linkedToCode.value in byCode)
    ensures LinkedThrough(x, s, byCode, k + 1)
  {
    forall j | 0 <= j < |x|
      ensures x[j] == LinkedUpTo(s, byCode, j, k + 1)
    {
      LinkedUpToSkip(s, byCode, k, j);
    }
  }

  /** Card `j` once every card has written its back-reference. */
  function Linked(s: seq<Card>, byCode: map<string, nat>, j: nat): Card
    requires j < |s|
  {
    LinkedUpTo(s, byCode, j, |s|)
  }

  /**
   * The back-reference pass: for every card in order whose link code
   * resolves through `byCode`, the target's `linkedToCard` is set to it.
   */
  method LinkBackReferences(a: array<Card>, byCode: map<string, nat>)
    requires forall code :: code in byCode ==> byCode[code] < a.Length
    modifies a
    ensures forall j :: 0 <= j < a.Length ==> a[j] == Linked(old(a[..]), byCode, j)
  {
    ghost var s := a[..];
    var i := 0;
    while i < a.Length
      invariant 0 <= i <= a.Length
      invariant LinkedThrough(a[..], s, byCode, i)
    {
      var c := a[i];
      assert c == a[..][i];
      LinkedUpToCode(s, byCode, i, i);
      if Truthy(c.linkedToCode) && c.linkedToCode.value in byCode {
        var t := byCode[c.linkedToCode.value];
        ghost var before := a[..];
        a[t] := BackRef(a[t], i);
        assert a[..] == before[t := BackRef(before[t], i)];
        LinkedThroughStep(before, s, byCode, i, t);
      } else {
        LinkedThroughSkip(a[..], s, byCode, i);
      }
      i := i + 1;
    }
    forall j | 0 <= j < a.Length
      ensures a[j] == Linked(s, byCode, j)
    {
      assert a[j] == a[..][j];
    }
  }

  /**
   * The link pass touches nothing but `linkedToCard`, leaves cards nobody
   * links to unchanged, and otherwise points at the last card linking there.
   */
  lemma LinkedShape(s: seq<Card>, byCode: map<string, nat>, j: nat)
    requires j < |s|
    ensures Linked(s, byCode, j) == s[j].(linkedToCard := Linked(s, byCode, j).linkedToCard)
    ensures (forall i :: 0 <= i < |s| ==> !LinksTo(s[i], byCode, j)) ==> Linked(s, byCode, j) == s[j]
    ensures Linked(s, byCode, j).linkedToCard != s[j].linkedToCard ==>
      exists i :: 0 <= i < |s| && LinksTo(s[i], byCode, j) && Linked(s, byCode, j).linkedToCard == Some(i)
  {
    var r := LastLinker(s, byCode, j, |s|);
    LastLinkerSpec(s, byCode, j, |s|);
    if r.None? {
      assert Linked(s, byCode, j) == s[j];
    } else {
      assert LinksTo(s[r.value], byCode, j);
    }
  }

  /**
   * With the code index of the corpus itself, a back-reference lands on the
   * last card whose code equals the linker's link code.
   */
  lemma LinkTargetIsLastWithCode(s: seq<Card>, i: nat, j: nat)
    requires i < |s| && j < |s|
    requires LinksTo(s[i], CodeMap(s), j)
    ensures s[j].code == s[i].linkedToCode.value
    ensures forall k :: j < k < |s| ==> s[k].code != s[i].linkedToCode.value
  {
    CodeMapSpec(s);
  }

  /** The cards of one encounter set, in corpus order. */
  function EncounterCards(s: seq<Card>, e: string): (r: seq<Card>)
    ensures |r| <= |s|
    ensures forall c :: c in r ==> c in s && c.encounterCode == Some(e)
    ensures forall i :: 0 <= i < |s| && s[i].encounterCode == Some(e) ==> s[i] in r
    decreases |s|
  {
    if s == [] then []
    else
      var init := EncounterCards(s[..|s| - 1], e);
      assert forall i :: 0 <= i < |s| - 1 ==> s[..|s| - 1][i] == s[i];
      var last := s[|s| - 1];
      if last.encounterCode == Some(e) then init + [last] else init
  }

  /** `EncounterCards` keeps corpus order: it is a subsequence of the corpus. */
  lemma {:induction false} EncounterCardsInOrder(s: seq<Card>, e: string)
    ensures Seqs.IsSubseq(EncounterCards(s, e), s)
    decreases |s|
  {
    if s != [] {
      var init := s[..|s| - 1];
      var last := s[|s| - 1];
      EncounterCardsInOrder(init, e);
      assert s == init + [last];
      if last.encounterCode == Some(e) {
        Seqs.SubseqAppendBoth(EncounterCards(init, e), init, last);
      } else {
        Seqs.SubseqAppendRight(EncounterCards(init, e), init, last);
      }
    }
  }

  /** Adding a card at the end extends exactly its own encounter list. */
  lemma EncounterCardsSnoc(s: seq<Card>, c: Card, e: string)
    ensures EncounterCards(s + [c], e) == EncounterCards(s, e) + (if c.encounterCode == Some(e) then [c] else [])
  {
    assert (s + [c])[..|s|] == s;
  }

  /** `m` maps each encounter code of `s` to its non-empty list of cards, and nothing else. */
  ghost predicate IndexesEncounters(m: map<string, seq<Card>>, s: seq<Card>)
  {
    (forall e :: e in m ==> e != "" && m[e] == EncounterCards(s, e) && m[e] != []) &&
    (forall e :: e !in m && e != "" ==> EncounterCards(s, e) == [])
  }

  /** Appending a card to the list of its code (when it has one) keeps the index exact. */
  lemma IndexesEncountersSnoc(m: map<string, seq<Card>>, s: seq<Card>, c: Card)
    requires IndexesEncounters(m, s)
    ensures Truthy(c.encounterCode) ==>
              var e := c.encounterCode.value;
              IndexesEncounters(m[e := (if e in m then m[e] else []) + [c]], s + [c])
    ensures !Truthy(c.encounterCode) ==> IndexesEncounters(m, s + [c])
  {
    if Truthy(c.encounterCode) {
      IndexesEncountersAdd(m, s, c);
    } else {
      forall e | e != ""
        ensures EncounterCards(s + [c], e) == EncounterCards(s, e)
      {
        EncounterCardsSnoc(s, c, e);
      }
    }
  }

  /** A card with a code extends that code's list, creating it when new. */
  lemma IndexesEncountersAdd(m: map<string, seq<Card>>, s: seq<Card>, c: Card)
    requires IndexesEncounters(m, s) && Truthy(c.encounterCode)
    ensures var e := c.encounterCode.value;
            IndexesEncounters(m[e := (if e in m then m[e] else []) + [c]], s + [c])
  {
    var e0 := c.encounterCode.value;
    var m' := m[e0 := (if e0 in m then m[e0] else []) + [c]];
    forall e | e in m'
      ensures e != "" && m'[e] == EncounterCards(s + [c], e) && m'[e] != []
    {
      EncounterCardsSnoc(s, c, e);
    }
    forall e | e !in m' && e != ""
      ensures EncounterCards(s + [c], e) == []
    {
      EncounterCardsSnoc(s, c, e);
    }
  }

  /** `cardsByEncounter`, built by one pass over the corpus. */
  method IndexByEncounter(all: seq<Card>) returns (m: map<string, seq<Card>>)
    ensures forall e :: e in m ==> e != "" && m[e] == EncounterCards(all, e) && m[e] != []
    ensures forall e :: e !in m && e != "" ==> EncounterCards(all, e) == []
  {
    m := map[];
    var i := 0;
    while i < |all|
      invariant 0 <= i <= |all|
      invariant IndexesEncounters(m, all[..i])
    {
      var card := all[i];
      assert all[..i + 1] == all[..i] + [card];
      IndexesEncountersSnoc(m, all[..i], card);
      if Truthy(card.encounterCode) {
        var e := card.encounterCode.value;
        var list := if e in m then m[e] else [];
        m := m[e := list + [card]];
      }
      i := i + 1;
    }
    assert all[..i] == all;
  }

  /** No card is listed under two different encounter codes. */
  lemma EncounterCardsDisjoint(s: seq<Card>, e1: string, e2: string)
    requires e1 != e2
    ensures forall c :: c in EncounterCards(s, e1) ==> c !in EncounterCards(s, e2)
  {
  }

  /** The cards of the load: parse, index by code, write back-references. */
  method LoadCards(raws: seq<RawCard>) returns (all: array<Card>, byCode: map<string, nat>)
    ensures fresh(all) && all.Length == |raws|
    ensures byCode == CodeMap(MapParse(raws))
    ensures forall j :: 0 <= j < |raws| ==> all[j] == Linked(MapParse(raws), byCode, j)
  {
    var parsed := BuildAllCards(raws);
    assert parsed == MapParse(raws);
    all := new Card[|parsed|](i requires 0 <= i < |parsed| => parsed[i]);
    assert all[..] == parsed;
    byCode := IndexByCode(parsed);
    CodeMapSpec(parsed);
    LinkBackReferences(all, byCode);
  }

  /** The whole load: parse, index by code, write back-references, index by encounter. */
  method LoadCorpus(raws: seq<RawCard>) returns (all: array<Card>, byCode: map<string, nat>, byEncounter: map<string, seq<Card>>)
    ensures all.Length == |raws|
    ensures byCode == CodeMap(MapParse(raws))
    ensures forall j :: 0 <= j < |raws| ==> all[j] == Linked(MapParse(raws), byCode, j)
    ensures IndexesEncounters(byEncounter, all[..])
  {
    all, byCode := LoadCards(raws);
    byEncounter := IndexByEncounter(all[..]);
  }

  /** Every raw card parsed, in order. */
  function MapParse(raws: seq<RawCard>): (r: seq<Card>)
    ensures |r| == |raws| && forall i :: 0 <= i < |raws| ==> r[i] == ParseCard(raws[i])
  {
    seq(|raws|, i requires 0 <= i < |raws| => ParseCard(raws[i]))
  }
}
