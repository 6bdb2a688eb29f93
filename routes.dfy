/**
 * The page paths of the site: the base path (the configured base URL without
 * its trailing slash) followed by one segment per kind of page and the code
 * of the entity shown. The single-page app and the static site build them
 * the same way.
 */
module Routes {
  import opened Wrappers
  import Strs
  import Cards

  /** The base path: the configured base URL with at most one trailing `/` removed. */
  function Base(baseUrl: string): (r: string)
    ensures |baseUrl| - 1 <= |r| <= |baseUrl|
    ensures r + (if Strs.EndsWith(baseUrl, "/") then "/" else "") == baseUrl
  {
    if Strs.EndsWith(baseUrl, "/") then baseUrl[..|baseUrl| - 1] else baseUrl
  }

  /** Only one trailing slash goes: a base URL of `//` leaves `/`. */
  lemma BaseStripsOnce()
    ensures Base("//") == "/"
    ensures Base("/app/") == "/app"
    ensures Base("/app") == "/app"
  {
    assert Strs.EndsWith("//", "/");
    assert Strs.EndsWith("/app/", "/");
    assert !Strs.EndsWith("/app", "/") by {
      assert "/app"[3] == 'p';
    }
  }

  datatype Kind = Campaign | Scenario | Encounter | CardPage

  /** The path segment of each kind of page. */
  function Segment(k: Kind): string
  {
    match k
    case Campaign => "campaigns"
    case Scenario => "scenarios"
    case Encounter => "encounters"
    case CardPage => "cards"
  }

  /** `${base}/<kind>s/${code}` */
  function Route(base: string, k: Kind, code: string): string
  {
    base + "/" + Segment(k) + "/" + code
  }

  /** `${base}/icons/${code}.svg` */
  function Icon(base: string, code: string): string
  {
    base + "/icons/" + code + ".svg"
  }

  /** `${base}/` */
  function IndexPath(base: string): string
  {
    base + "/"
  }

  /** `${base}/search-index.json` */
  function SearchIndexPath(base: string): string
  {
    base + "/search-index.json"
  }

  /** The code a path of a kind shows, if it is such a path. */
  function CodeOf(base: string, k: Kind, path: string): (r: Option<string>)
    ensures r.Some? ==> Route(base, k, r.value) == path
  {
    var prefix := base + "/" + Segment(k) + "/";
    if Strs.StartsWith(path, prefix) then
      assert path == prefix + path[|prefix|..];
      Some(path[|prefix|..])
    else None
  }

  /** A route reads back as its kind and code. */
  lemma CodeOfRoute(base: string, k: Kind, code: string)
    ensures CodeOf(base, k, Route(base, k, code)) == Some(code)
  {
    var prefix := base + "/" + Segment(k) + "/";
    assert Route(base, k, code) == prefix + code;
    assert (prefix + code)[..|prefix|] == prefix;
    assert (prefix + code)[|prefix|..] == code;
  }

  /** Within a kind, distinct codes have distinct paths. */
  lemma RouteInjective(base: string, k: Kind, a: string, b: string)
    ensures Route(base, k, a) == Route(base, k, b) <==> a == b
  {
    if Route(base, k, a) == Route(base, k, b) {
      CodeOfRoute(base, k, a);
      CodeOfRoute(base, k, b);
    }
  }

  /** Where the segments of two different kinds first visibly differ. */
  function SegmentClash(k1: Kind, k2: Kind): nat
  {
    if (k1 == Campaign && k2 == CardPage) || (k1 == CardPage && k2 == Campaign) then 2 else 0
  }

  lemma SegmentsDiffer(k1: Kind, k2: Kind)
    requires k1 != k2
    ensures SegmentClash(k1, k2) < |Segment(k1)| && SegmentClash(k1, k2) < |Segment(k2)|
    ensures Segment(k1)[SegmentClash(k1, k2)] != Segment(k2)[SegmentClash(k1, k2)]
  {
  }

  /** Two strings with a common prefix, followed by parts that differ at `i`, differ. */
  lemma DifferAfterPrefix(p: string, x: string, y: string, u: string, v: string, i: nat)
    requires i < |x| && i < |y| && x[i] != y[i]
    ensures p + x + u != p + y + v
  {
    assert (p + x + u)[|p| + i] == x[i];
    assert (p + y + v)[|p| + i] == y[i];
  }

  /** Pages of different kinds never share a path, whatever the codes. */
  lemma KindsDisjoint(base: string, k1: Kind, k2: Kind, a: string, b: string)
    requires k1 != k2
    ensures Route(base, k1, a) != Route(base, k2, b)
  {
    SegmentsDiffer(k1, k2);
    DifferAfterPrefix(base + "/", Segment(k1), Segment(k2), "/" + a, "/" + b, SegmentClash(k1, k2));
    assert Route(base, k1, a) == (base + "/") + Segment(k1) + ("/" + a);
    assert Route(base, k2, b) == (base + "/") + Segment(k2) + ("/" + b);
  }

  /** Distinct codes have distinct icons, and every icon is an SVG file under `/icons/`. */
  lemma IconSpec(base: string, a: string, b: string)
    ensures Icon(base, a) == Icon(base, b) <==> a == b
    ensures Strs.EndsWith(Icon(base, a), ".svg")
    ensures Strs.StartsWith(Icon(base, a), base + "/icons/")
  {
    var p := base + "/icons/";
    assert Icon(base, a) == p + a + ".svg";
    assert (p + a + ".svg")[..|p|] == p;
    Strs.EndsWithConcat(p + a, ".svg");
    if Icon(base, a) == Icon(base, b) {
      assert |a| == |b|;
      assert (p + a + ".svg")[|p|..|p| + |a|] == a;
      assert (p + b + ".svg")[|p|..|p| + |b|] == b;
    }
  }

  /**
   * The page a card links to: the card it is linked to (its other face)
   * when there is one, else its own page. `cards` is the corpus the link
   * points into.
   */
  function CardRoute(base: string, cards: seq<Cards.Card>, card: Cards.Card): (r: string)
    requires card.linkedToCard.Some? ==> card.linkedToCard.value < |cards|
    ensures card.linkedToCard.None? ==> CodeOf(base, CardPage, r) == Some(card.code)
    ensures card.linkedToCard.Some? ==> CodeOf(base, CardPage, r) == Some(cards[card.linkedToCard.value].code)
  {
    if card.linkedToCard.Some? then
      var code := cards[card.linkedToCard.value].code;
      CodeOfRoute(base, CardPage, code);
      Route(base, CardPage, code)
    else
      CodeOfRoute(base, CardPage, card.code);
      Route(base, CardPage, card.code)
  }
}
