/**
 * The repository's trait tokenizers. ArkhamDB writes a card's traits as one
 * string, each trait followed by a dot (`"Humanoid. Cultist."`); each layer of
 * the system splits it its own way. Each reading is a split followed by a
 * per-piece clean-up that maps and then drops empty results.
 */
module Traits {
  import opened Wrappers
  import opened Strs
  import Seqs

  /** `s.replace(/\.$/, "")`: one trailing dot removed. */
  function StripOneDot(s: string): (r: string)
  {
    if |s| > 0 && s[|s| - 1] == '.' then s[..|s| - 1] else s
  }

  /** lodash `trimCharsEnd(".", s)`: every trailing dot removed. */
  function TrimDotsEnd(s: string): (r: string)
    ensures |r| <= |s| && r == s[..|r|]
    ensures r == [] || r[|r| - 1] != '.'
    decreases |s|
  {
    if |s| > 0 && s[|s| - 1] == '.' then TrimDotsEnd(s[..|s| - 1]) else s
  }

  /** Non-empty, without trailing dot or leading white space. */
  predicate CleanName(t: string)
  {
    t != [] && t[|t| - 1] != '.' && !IsSpace(Js, t[0])
  }

  /** Non-empty, with no white space at either end. */
  predicate Trimmed(t: string)
  {
    t != [] && !IsSpace(Js, t[0]) && !IsSpace(Js, t[|t| - 1])
  }

  /** A trait name as the data writes it: trimmed and without dots. */
  predicate PlainName(n: string)
  {
    Trimmed(n) && '.' !in n
  }

  /** The chart components' clean-up: strip one trailing dot, trim, drop empty pieces. */
  function ChartPieces(ps: seq<string>): (r: seq<string>)
    ensures |r| <= |ps|
    ensures forall i :: 0 <= i < |r| ==> Trimmed(r[i])
    decreases |ps|
  {
    if ps == [] then []
    else
      var t := Trim(Js, StripOneDot(ps[0]));
      var rest := ChartPieces(ps[1..]);
      if t != [] then
        assert Trimmed(t);
        [t] + rest
      else rest
  }

  /** The clean-up of one piece: nothing when it is empty once cleaned. */
  function ChartPiece(p: string): (r: seq<string>)
  {
    var t := Trim(Js, StripOneDot(p));
    if t != [] then [t] else []
  }

  /** Cleaning piece by piece, in order: the loop form of the clean-up. */
  lemma {:induction false} ChartPiecesSnoc(ps: seq<string>, p: string)
    ensures ChartPieces(ps + [p]) == ChartPieces(ps) + ChartPiece(p)
    decreases |ps|
  {
    if ps == [] {
      assert ([p])[1..] == [];
    } else {
      assert (ps + [p])[1..] == ps[1..] + [p];
      ChartPiecesSnoc(ps[1..], p);
    }
  }

  /** The clean-up of a prefix of the pieces grows one piece at a time. */
  lemma ChartPiecesPrefix(ps: seq<string>, j: int)
    requires 0 <= j < |ps|
    ensures ChartPieces(ps[..j + 1]) == ChartPieces(ps[..j]) + ChartPiece(ps[j])
  {
    assert ps[..j + 1] == ps[..j] + [ps[j]];
    ChartPiecesSnoc(ps[..j], ps[j]);
  }

  /** `traits.split(". ").map(s => s.replace(/\.$/, "").trim()).filter(Boolean)` */
  function ChartTraits(s: string): (r: seq<string>)
  {
    ChartPieces(Split(s, ". "))
  }

  lemma {:induction false} ChartPiecesOfNames(names: seq<string>, last: string)
    requires forall i :: 0 <= i < |names| ==> PlainName(names[i])
    requires PlainName(last)
    ensures ChartPieces(names + [last + "."]) == names + [last]
    decreases |names|
  {
    if names == [] {
      ChartPiecesLast(last);
      assert names + [last + "."] == [last + "."];
    } else {
      var n0 := names[0];
      Seqs.ConsAppend(names, [last + "."]);
      ChartPiecesCons(n0, names[1..] + [last + "."]);
      ChartPiecesOfNames(names[1..], last);
      Seqs.ConsAppend(names, [last]);
    }
  }

  /** A plain name in front survives the clean-up unchanged. */
  lemma ChartPiecesCons(n: string, ps: seq<string>)
    requires PlainName(n)
    ensures ChartPieces([n] + ps) == [n] + ChartPieces(ps)
  {
    assert StripOneDot(n) == n by {
      assert n[|n| - 1] in n;
    }
    TrimNoop(Js, n);
    assert ([n] + ps)[1..] == ps;
  }

  /** A plain name with the written final dot cleans up to the name. */
  lemma ChartPiecesLast(last: string)
    requires PlainName(last)
    ensures ChartPieces([last + "."]) == [last]
  {
    assert StripOneDot(last + ".") == last by {
      assert (last + ".")[..|last|] == last;
    }
    assert ChartPieces([last + "."][1..]) == [];
    TrimNoop(Js, last);
  }

  lemma SplitWrittenNames(names: seq<string>)
    requires |names| > 0
    requires forall i :: 0 <= i < |names| ==> PlainName(names[i])
    ensures Split(Join(names, ". ") + ".", ". ") == names[..|names| - 1] + [names[|names| - 1] + "."]
  {
    var sep := ". ";
    assert sep[0] == '.' && |sep| == 2;
    assert forall i :: 0 <= i < |names| ==> sep[0] !in names[i];
    SplitJoinTail(names, sep, ".");
  }

  lemma CleanWrittenNames(names: seq<string>)
    requires |names| > 0
    requires forall i :: 0 <= i < |names| ==> PlainName(names[i])
    ensures ChartPieces(names[..|names| - 1] + [names[|names| - 1] + "."]) == names
  {
    var n := |names|;
    var init := names[..n - 1];
    assert forall i :: 0 <= i < |init| ==> init[i] == names[i];
    assert forall i :: 0 <= i < |init| ==> PlainName(init[i]);
    assert PlainName(names[n - 1]);
    ChartPiecesOfNames(init, names[n - 1]);
    assert init + [names[n - 1]] == names;
  }

  /** Writing names in the data's format and reading them back gives the names. */
  lemma ChartTraitsRoundTrip(names: seq<string>)
    requires |names| > 0
    requires forall i :: 0 <= i < |names| ==> PlainName(names[i])
    ensures ChartTraits(Join(names, ". ") + ".") == names
  {
    SplitWrittenNames(names);
    CleanWrittenNames(names);
  }

  /** The trait names of a chart card; missing or empty text has none. */
  function ChartTraitsOf(traits: Option<string>): (r: seq<string>)
    ensures traits.None? || traits.value == "" ==> r == []
    ensures forall i :: 0 <= i < |r| ==> Trimmed(r[i])
  {
    if traits.None? || traits.value == "" then [] else ChartTraits(traits.value)
  }

  /**
   * The TypeScript loaders' clean-up, as written: trim, drop empty pieces,
   * then remove trailing dots (which can leave an empty name).
   */
  function LoaderPieces(ps: seq<string>): (r: seq<string>)
    ensures |r| <= |ps|
    decreases |ps|
  {
    if ps == [] then []
    else
      var t := Trim(Js, ps[0]);
      var rest := LoaderPieces(ps[1..]);
      if |t| > 0 then [TrimDotsEnd(t)] + rest else rest
  }

  /** The ingestion decoder's reading of the traits text: split on `" "`. */
  function DecoderTraits(s: string): (r: seq<string>)
  {
    LoaderPieces(Split(s, " "))
  }

  lemma SplitDotToken()
    ensures Split("Elite. .", " ") == ["Elite.", "."]
  {
    assert "Elite. ." == "Elite." + " .";
    SplitSkip("Elite.", " .", " ", "");
    assert "" + "Elite." == "Elite.";
    SplitDotTail();
  }

  lemma SplitDotTail()
    ensures Strs.SplitFrom(" .", " ", "Elite.") == ["Elite.", "."]
  {
    assert (" .")[..1] == " ";
    assert (" .")[1..] == ".";
    assert Strs.SplitFrom(" .", " ", "Elite.") == ["Elite."] + Strs.SplitFrom(".", " ", "");
    assert "." + "" == ".";
    SplitSkip(".", "", " ", "");
    assert "" + "." == ".";
  }

  /** A trait text with a token made only of dots decodes to an empty trait name. */
  lemma DecoderEmptyName()
    ensures DecoderTraits("Elite. .") == ["Elite", ""]
  {
    SplitDotToken();
    DotTokenPieces();
  }

  lemma DotTokenPieces()
    ensures LoaderPieces(["Elite.", "."]) == ["Elite", ""]
  {
    DotTokenTrims();
    assert LoaderPieces(["."]) == [""] + LoaderPieces([]);
    assert LoaderPieces(["Elite.", "."]) == ["Elite"] + LoaderPieces(["."]);
  }

  lemma DotTokenTrims()
    ensures Trim(Js, "Elite.") == "Elite." && Trim(Js, ".") == "."
    ensures TrimDotsEnd(".") == "" && TrimDotsEnd("Elite.") == "Elite"
  {
    assert !IsSpace(Js, 'E') && !IsSpace(Js, '.');
    TrimNoop(Js, "Elite.");
    TrimNoop(Js, ".");
    assert TrimDotsEnd(".") == "";
    assert TrimDotsEnd("Elite.") == "Elite";
  }

  /** The corrected clean-up: drop empty names after the dots are removed. */
  function LoaderPiecesFixed(ps: seq<string>): (r: seq<string>)
    ensures |r| <= |ps|
    decreases |ps|
  {
    if ps == [] then []
    else
      var t := TrimDotsEnd(Trim(Js, ps[0]));
      var rest := LoaderPiecesFixed(ps[1..]);
      if |t| > 0 then [t] + rest else rest
  }

  /** The corrected decoder: no empty name and no trailing dot. */
  function DecoderTraitsFixed(s: string): (r: seq<string>)
    ensures forall i :: 0 <= i < |r| ==> CleanName(r[i])
  {
    var r := LoaderPiecesFixed(Split(s, " "));
    FixedPiecesShape(Split(s, " "));
    r
  }

  lemma {:induction false} FixedPiecesShape(ps: seq<string>)
    ensures forall i :: 0 <= i < |LoaderPiecesFixed(ps)| ==> CleanName(LoaderPiecesFixed(ps)[i])
    decreases |ps|
  {
    if ps != [] {
      FixedPiecesShape(ps[1..]);
      var u := Trim(Js, ps[0]);
      var t := TrimDotsEnd(u);
      if |t| > 0 {
        assert t[0] == u[0];
        assert CleanName(t);
        var rest := LoaderPiecesFixed(ps[1..]);
        assert LoaderPiecesFixed(ps) == [t] + rest;
        assert forall i :: 1 <= i < |rest| + 1 ==> ([t] + rest)[i] == rest[i - 1];
      }
    }
  }

  function DropEmpty(ts: seq<string>): (r: seq<string>)
    decreases |ts|
  {
    if ts == [] then []
    else if ts[0] != [] then [ts[0]] + DropEmpty(ts[1..])
    else DropEmpty(ts[1..])
  }

  /** The correction removes exactly the empty names the decoder lets through. */
  lemma {:induction false} FixedDropsOnlyEmpty(ps: seq<string>)
    ensures LoaderPiecesFixed(ps) == DropEmpty(LoaderPieces(ps))
    decreases |ps|
  {
    if ps != [] {
      FixedDropsOnlyEmpty(ps[1..]);
      var t := Trim(Js, ps[0]);
      var head := if |t| > 0 then [TrimDotsEnd(t)] else [];
      DropEmptyAppend(head, LoaderPieces(ps[1..]));
    }
  }

  lemma {:induction false} DropEmptyAppend(a: seq<string>, b: seq<string>)
    ensures DropEmpty(a + b) == DropEmpty(a) + DropEmpty(b)
    decreases |a|
  {
    if a == [] {
      assert a + b == b;
    } else {
      assert (a + b)[1..] == a[1..] + b;
      DropEmptyAppend(a[1..], b);
    }
  }

  /**
   * The database loader's reading (`parseTraits` of the TypeScript loader):
   * missing or empty text has none; otherwise split on `"."`.
   */
  function DotTraits(raw: Option<string>): (r: seq<string>)
  {
    if raw.None? || raw.value == "" then [] else LoaderPieces(Split(raw.value, "."))
  }

  /** The Go seeder's clean-up: `strings.TrimSpace` and drop empty pieces. */
  function GoPieces(ps: seq<string>): (r: seq<string>)
    decreases |ps|
  {
    if ps == [] then []
    else
      var t := Trim(Go, ps[0]);
      var rest := GoPieces(ps[1..]);
      if t != "" then [t] + rest else rest
  }

  /** The Go seeder's `parseTraits`: nil or empty gives none; otherwise split on `"."`. */
  function GoDotTraits(raw: Option<string>): (r: seq<string>)
  {
    if raw.None? || raw.value == "" then [] else GoPieces(Split(raw.value, "."))
  }

  /** Pieces without dots clean up to names that are non-empty and still without dots. */
  lemma {:induction false} LoaderPiecesDotFree(ps: seq<string>)
    requires forall i :: 0 <= i < |ps| ==> '.' !in ps[i]
    ensures forall i :: 0 <= i < |LoaderPieces(ps)| ==> LoaderPieces(ps)[i] != "" && '.' !in LoaderPieces(ps)[i]
    decreases |ps|
  {
    if ps != [] {
      LoaderPiecesDotFree(ps[1..]);
      var t := Trim(Js, ps[0]);
      var o := TrimIsInfix(Js, ps[0]);
      if |t| > 0 {
        assert forall k :: 0 <= k < |t| ==> t[k] == ps[0][o + k];
        assert TrimDotsEnd(t) == t by {
          assert t[|t| - 1] in t;
        }
      }
    }
  }

  /** The same for the Go seeder's clean-up. */
  lemma {:induction false} GoPiecesDotFree(ps: seq<string>)
    requires forall i :: 0 <= i < |ps| ==> '.' !in ps[i]
    ensures forall i :: 0 <= i < |GoPieces(ps)| ==> GoPieces(ps)[i] != "" && '.' !in GoPieces(ps)[i]
    decreases |ps|
  {
    if ps != [] {
      GoPiecesDotFree(ps[1..]);
      var t := Trim(Go, ps[0]);
      var o := TrimIsInfix(Go, ps[0]);
      assert forall k :: 0 <= k < |t| ==> t[k] == ps[0][o + k];
    }
  }

  /**
   * Both readings that split on `"."` give names that are non-empty and have
   * no dot, and none for missing or empty text.
   */
  lemma DotTraitsShape(raw: Option<string>)
    ensures raw.None? || raw.value == "" ==> DotTraits(raw) == [] && GoDotTraits(raw) == []
    ensures forall i :: 0 <= i < |DotTraits(raw)| ==> DotTraits(raw)[i] != "" && '.' !in DotTraits(raw)[i]
    ensures forall i :: 0 <= i < |GoDotTraits(raw)| ==> GoDotTraits(raw)[i] != "" && '.' !in GoDotTraits(raw)[i]
  {
    if raw.Some? && raw.value != "" {
      SplitPiecesOmitSep(raw.value, '.', "");
      LoaderPiecesDotFree(Split(raw.value, "."));
      GoPiecesDotFree(Split(raw.value, "."));
    }
  }

  lemma {:induction false} LoaderGoPiecesAgree(ps: seq<string>)
    requires forall i :: 0 <= i < |ps| ==> '.' !in ps[i] && RuntimeNeutral(ps[i])
    ensures LoaderPieces(ps) == GoPieces(ps)
    decreases |ps|
  {
    if ps != [] {
      LoaderGoPiecesAgree(ps[1..]);
      TrimRuntimesAgree(ps[0]);
      var t := Trim(Js, ps[0]);
      var o := TrimIsInfix(Js, ps[0]);
      if |t| > 0 {
        assert '.' !in t by {
          assert forall k :: 0 <= k < |t| ==> t[k] == ps[0][o + k];
        }
        assert TrimDotsEnd(t) == t by {
          assert t[|t| - 1] in t;
        }
      }
    }
  }

  /**
   * The TypeScript loader and the Go seeder read the same traits from any
   * text without U+FEFF and U+0085 (the only characters whose white-space
   * status differs between the runtimes).
   */
  lemma DotTraitsAgree(raw: Option<string>)
    requires raw.Some? ==> RuntimeNeutral(raw.value)
    ensures DotTraits(raw) == GoDotTraits(raw)
  {
    if raw.Some? && raw.value != "" {
      var s := raw.value;
      SplitPiecesOmitSep(s, '.', "");
      SplitPiecesFromText(s, ".", "");
      var ps := Split(s, ".");
      assert "" + s == s;
      forall i | 0 <= i < |ps| ensures RuntimeNeutral(ps[i]) {
        assert forall k :: 0 <= k < |ps[i]| ==> ps[i][k] in s;
      }
      LoaderGoPiecesAgree(ps);
    }
  }
}
