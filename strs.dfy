/**
 * String primitives of the two runtimes the repository uses: JavaScript
 * (`trim`, `split`, `join`, `toLowerCase`) and Go (`strings.TrimSpace`,
 * `strings.Fields`, `strings.Join`). Strings are sequences of Unicode scalar
 * values.
 */
module Strs {
  /** Which runtime's notion of white space. */
  datatype Runtime = Js | Go

  /** Characters both runtimes treat as white space. */
  predicate IsCommonSpace(c: char)
  {
    c == ' ' || c == '\t' || c == '\n' || c == '\r' || c == '\U{000B}' || c == '\U{000C}'
    || c == '\U{00A0}' || c == '\U{1680}' || ('\U{2000}' <= c <= '\U{200A}')
    || c == '\U{2028}' || c == '\U{2029}' || c == '\U{202F}' || c == '\U{205F}' || c == '\U{3000}'
  }

  /**
   * ECMAScript WhiteSpace and LineTerminator (used by `trim` and `parseInt`)
   * include U+FEFF; Go's `unicode.IsSpace` includes U+0085 instead.
   */
  predicate IsSpace(w: Runtime, c: char)
  {
    IsCommonSpace(c) || (w == Js && c == '\U{FEFF}') || (w == Go && c == '\U{0085}')
  }

  predicate AllSpace(w: Runtime, s: string)
  {
    forall i :: 0 <= i < |s| ==> IsSpace(w, s[i])
  }

  /** JavaScript `trimStart`. */
  function TrimStart(w: Runtime, s: string): (r: string)
    ensures |r| <= |s|
    ensures r == [] || !IsSpace(w, r[0])
    decreases |s|
  {
    if |s| > 0 && IsSpace(w, s[0]) then TrimStart(w, s[1..]) else s
  }

  /** What trimStart removes is a white-space prefix. */
  lemma {:induction false} TrimStartSuffix(w: Runtime, s: string)
    ensures TrimStart(w, s) == s[|s| - |TrimStart(w, s)|..]
    ensures AllSpace(w, s[..|s| - |TrimStart(w, s)|])
    decreases |s|
  {
    if |s| > 0 && IsSpace(w, s[0]) {
      TrimStartSuffix(w, s[1..]);
      var k := |s| - |TrimStart(w, s)|;
      assert s[1..][..k - 1] == s[1..k];
      assert forall i :: 1 <= i < k ==> s[i] == s[1..k][i - 1];
    }
  }

  /** JavaScript `trimEnd`. */
  function TrimEnd(w: Runtime, s: string): (r: string)
    ensures |r| <= |s|
    ensures r == [] || !IsSpace(w, r[|r| - 1])
    decreases |s|
  {
    if |s| > 0 && IsSpace(w, s[|s| - 1]) then TrimEnd(w, s[..|s| - 1]) else s
  }

  /** What trimEnd removes is a white-space suffix. */
  lemma {:induction false} TrimEndPrefix(w: Runtime, s: string)
    ensures TrimEnd(w, s) == s[..|TrimEnd(w, s)|]
    ensures AllSpace(w, s[|TrimEnd(w, s)|..])
    decreases |s|
  {
    if |s| > 0 && IsSpace(w, s[|s| - 1]) {
      var t := s[..|s| - 1];
      TrimEndPrefix(w, t);
      var k := |TrimEnd(w, s)|;
      assert t[..k] == s[..k];
      assert forall i :: k <= i < |s| - 1 ==> s[i] == t[k..][i - k];
    }
  }

  /** JavaScript `trim` / Go `strings.TrimSpace`. */
  function Trim(w: Runtime, s: string): (r: string)
    ensures r == [] || (!IsSpace(w, r[0]) && !IsSpace(w, r[|r| - 1]))
  {
    var a := TrimStart(w, s);
    TrimEndPrefix(w, a);
    TrimEnd(w, a)
  }

  /** Text with no white space at either end trims to itself. */
  lemma TrimNoop(w: Runtime, s: string)
    requires s == [] || (!IsSpace(w, s[0]) && !IsSpace(w, s[|s| - 1]))
    ensures Trim(w, s) == s
  {
    assert TrimStart(w, s) == s;
  }

  /**
   * Trimming removes only white space, from both ends: the result is the
   * slice of `s` starting at the returned offset.
   */
  lemma TrimIsInfix(w: Runtime, s: string) returns (i: int)
    ensures 0 <= i <= |s| - |Trim(w, s)| && Trim(w, s) == s[i..i + |Trim(w, s)|]
    ensures AllSpace(w, s[..i]) && AllSpace(w, s[i + |Trim(w, s)|..])
  {
    var a := TrimStart(w, s);
    TrimStartSuffix(w, s);
    TrimEndPrefix(w, a);
    i := |s| - |a|;
    var r := Trim(w, s);
    assert r == TrimEnd(w, a) && a == s[i..];
    SuffixSlices(s, i, |r|);
  }

  /** Slicing a suffix of `s` is slicing `s` at shifted bounds. */
  lemma SuffixSlices(s: string, i: int, k: int)
    requires 0 <= i <= |s| && 0 <= k <= |s| - i
    ensures s[i..][..k] == s[i..i + k] && s[i..][k..] == s[i + k..]
  {
  }

  /** A string trims to nothing exactly when it is all white space. */
  lemma TrimEmptyIff(w: Runtime, s: string)
    ensures Trim(w, s) == [] <==> AllSpace(w, s)
  {
    var i := TrimIsInfix(w, s);
    var r := Trim(w, s);
    if r == [] {
      assert s == s[..i] + s[i..];
      AllSpaceConcat(w, s[..i], s[i..]);
    } else {
      assert r[0] == s[i];
    }
  }

  /** No character that only one of the runtimes counts as white space. */
  predicate RuntimeNeutral(s: string)
  {
    forall i :: 0 <= i < |s| ==> s[i] != '\U{FEFF}' && s[i] != '\U{0085}'
  }

  /** Go's and JavaScript's trimming agree on text without U+FEFF and U+0085. */
  lemma TrimRuntimesAgree(s: string)
    requires RuntimeNeutral(s)
    ensures Trim(Js, s) == Trim(Go, s)
  {
    TrimStartAgree(s);
    TrimStartSuffix(Js, s);
    var a := TrimStart(Js, s);
    assert forall i :: 0 <= i < |a| ==> a[i] == s[|s| - |a| + i];
    TrimEndAgree(a);
  }

  lemma {:induction false} TrimStartAgree(s: string)
    requires RuntimeNeutral(s)
    ensures TrimStart(Js, s) == TrimStart(Go, s)
    decreases |s|
  {
    if |s| > 0 {
      assert IsSpace(Js, s[0]) == IsSpace(Go, s[0]);
      if IsSpace(Js, s[0]) {
        assert forall i :: 0 <= i < |s| - 1 ==> s[1..][i] == s[i + 1];
        TrimStartAgree(s[1..]);
      }
    }
  }

  lemma {:induction false} TrimEndAgree(s: string)
    requires RuntimeNeutral(s)
    ensures TrimEnd(Js, s) == TrimEnd(Go, s)
    decreases |s|
  {
    if |s| > 0 {
      assert IsSpace(Js, s[|s| - 1]) == IsSpace(Go, s[|s| - 1]);
      if IsSpace(Js, s[|s| - 1]) {
        TrimEndAgree(s[..|s| - 1]);
      }
    }
  }

  /** `parts.join(sep)` / Go `strings.Join`. */
  function Join(parts: seq<string>, sep: string): (r: string)
    decreases |parts|
  {
    if |parts| == 0 then ""
    else if |parts| == 1 then parts[0]
    else parts[0] + sep + Join(parts[1..], sep)
  }

  /**
   * JavaScript `s.split(sep)` for a non-empty separator: the separator is
   * matched left to right without overlap; `cur` is the piece read so far.
   */
  function SplitFrom(s: string, sep: string, cur: string): (r: seq<string>)
    requires |sep| > 0
    ensures |r| > 0
    decreases |s|
  {
    if |s| == 0 then [cur]
    else if |sep| <= |s| && s[..|sep|] == sep then [cur] + SplitFrom(s[|sep|..], sep, "")
    else SplitFrom(s[1..], sep, cur + [s[0]])
  }

  function Split(s: string, sep: string): (r: seq<string>)
    requires |sep| > 0
  {
    SplitFrom(s, sep, "")
  }

  lemma {:induction false} JoinSplitFrom(s: string, sep: string, cur: string)
    requires |sep| > 0
    ensures Join(SplitFrom(s, sep, cur), sep) == cur + s
    decreases |s|
  {
    if |s| == 0 {
      assert cur + s == cur;
    } else if |sep| <= |s| && s[..|sep|] == sep {
      JoinSplitFrom(s[|sep|..], sep, "");
      var rest := SplitFrom(s[|sep|..], sep, "");
      assert SplitFrom(s, sep, cur) == [cur] + rest;
      assert ([cur] + rest)[1..] == rest;
      assert Join([cur] + rest, sep) == cur + sep + Join(rest, sep);
      assert s == sep + s[|sep|..];
    } else {
      JoinSplitFrom(s[1..], sep, cur + [s[0]]);
      assert (cur + [s[0]]) + s[1..] == cur + s;
    }
  }

  /** Joining the pieces of a split with the same separator restores the string. */
  lemma JoinSplit(s: string, sep: string)
    requires |sep| > 0
    ensures Join(Split(s, sep), sep) == s
  {
    JoinSplitFrom(s, sep, "");
  }

  /** Text without the separator's first character is read into the current piece. */
  lemma {:induction false} SplitSkip(p: string, rest: string, sep: string, cur: string)
    requires |sep| > 0 && sep[0] !in p
    ensures SplitFrom(p + rest, sep, cur) == SplitFrom(rest, sep, cur + p)
    decreases |p|
  {
    if p != [] {
      assert (p + rest)[0] == p[0];
      assert (p + rest)[1..] == p[1..] + rest;
      SplitSkip(p[1..], rest, sep, cur + [p[0]]);
      assert cur + [p[0]] + p[1..] == cur + p;
    } else {
      assert p + rest == rest;
      assert cur + p == cur;
    }
  }

  /** Text shorter than the separator cannot hold a match. */
  lemma {:induction false} SplitShort(t: string, sep: string, cur: string)
    requires 0 < |sep| && |t| < |sep|
    ensures SplitFrom(t, sep, cur) == [cur + t]
    decreases |t|
  {
    if t != [] {
      SplitShort(t[1..], sep, cur + [t[0]]);
      assert cur + [t[0]] + t[1..] == cur + t;
    } else {
      assert cur + t == cur;
    }
  }

  /**
   * Splitting a join (followed by a tail shorter than the separator) restores
   * the parts, the tail staying on the last one, when no part contains the
   * separator's first character.
   */
  lemma {:induction false} SplitJoinTail(parts: seq<string>, sep: string, tail: string)
    requires |parts| > 0 && 0 < |sep| && |tail| < |sep|
    requires forall i :: 0 <= i < |parts| ==> sep[0] !in parts[i]
    ensures Split(Join(parts, sep) + tail, sep) == parts[..|parts| - 1] + [parts[|parts| - 1] + tail]
    decreases |parts|
  {
    assert "" + parts[0] == parts[0];
    if |parts| == 1 {
      SplitSkip(parts[0], tail, sep, "");
      SplitShort(tail, sep, parts[0]);
    } else {
      var x := Join(parts[1..], sep) + tail;
      assert Join(parts, sep) + tail == parts[0] + (sep + x);
      SplitPartSep(parts[0], x, sep);
      SplitJoinTail(parts[1..], sep, tail);
      assert parts[1..][..|parts| - 2] == parts[1..|parts| - 1];
      assert parts[..|parts| - 1] == [parts[0]] + parts[1..|parts| - 1];
    }
  }

  /** A part free of the separator's first character, then the separator: the part splits off. */
  lemma SplitPartSep(p: string, x: string, sep: string)
    requires 0 < |sep| && sep[0] !in p
    ensures SplitFrom(p + (sep + x), sep, "") == [p] + SplitFrom(x, sep, "")
  {
    SplitSkip(p, sep + x, sep, "");
    assert "" + p == p;
    SplitAtSep(x, sep, p);
  }

  /** A separator at the front ends the current part. */
  lemma SplitAtSep(x: string, sep: string, cur: string)
    requires 0 < |sep|
    ensures SplitFrom(sep + x, sep, cur) == [cur] + SplitFrom(x, sep, "")
  {
    assert (sep + x)[..|sep|] == sep;
    assert (sep + x)[|sep|..] == x;
  }

  /**
   * Splitting a join on a one-character separator restores the parts when no
   * part contains that character.
   */
  lemma SplitJoin(parts: seq<string>, c: char)
    requires |parts| > 0
    requires forall i :: 0 <= i < |parts| ==> c !in parts[i]
    ensures Split(Join(parts, [c]), [c]) == parts
  {
    var n := |parts|;
    var j := Join(parts, [c]);
    assert forall i :: 0 <= i < n ==> [c][0] !in parts[i];
    SplitJoinTail(parts, [c], "");
    assert j + "" == j;
    assert parts[n - 1] + "" == parts[n - 1];
    assert parts[..n - 1] + [parts[n - 1]] == parts;
  }

  /** No piece of a split on one character contains that character. */
  lemma {:induction false} SplitPiecesOmitSep(s: string, c: char, cur: string)
    requires c !in cur
    ensures forall i :: 0 <= i < |SplitFrom(s, [c], cur)| ==> c !in SplitFrom(s, [c], cur)[i]
    decreases |s|
  {
    if |s| == 0 {
    } else if s[..1] == [c] {
      SplitPiecesOmitSep(s[1..], c, "");
      var rest := SplitFrom(s[1..], [c], "");
      assert forall i :: 1 <= i < |rest| + 1 ==> ([cur] + rest)[i] == rest[i - 1];
    } else {
      assert s[0] != c;
      SplitPiecesOmitSep(s[1..], c, cur + [s[0]]);
    }
  }

  /** Every character of a piece comes from the text split (or the current piece). */
  lemma {:induction false} SplitPiecesFromText(s: string, sep: string, cur: string)
    requires |sep| > 0
    ensures forall i, k :: 0 <= i < |SplitFrom(s, sep, cur)| && 0 <= k < |SplitFrom(s, sep, cur)[i]| ==>
      SplitFrom(s, sep, cur)[i][k] in cur + s
    decreases |s|
  {
    if |s| == 0 {
    } else if |sep| <= |s| && s[..|sep|] == sep {
      SplitPiecesFromText(s[|sep|..], sep, "");
      var rest := SplitFrom(s[|sep|..], sep, "");
      assert forall i :: 1 <= i < |rest| + 1 ==> ([cur] + rest)[i] == rest[i - 1];
      assert forall x :: x in s[|sep|..] ==> x in s;
    } else {
      SplitPiecesFromText(s[1..], sep, cur + [s[0]]);
      assert (cur + [s[0]]) + s[1..] == cur + s;
    }
  }

  lemma AllSpaceConcat(w: Runtime, a: string, b: string)
    ensures AllSpace(w, a + b) <==> AllSpace(w, a) && AllSpace(w, b)
  {
    assert forall i :: 0 <= i < |a| ==> (a + b)[i] == a[i];
    assert forall i :: 0 <= i < |b| ==> (a + b)[|a| + i] == b[i];
    if AllSpace(w, a) && AllSpace(w, b) {
      forall i | 0 <= i < |a + b| ensures IsSpace(w, (a + b)[i]) {
        if i >= |a| { assert (a + b)[i] == b[i - |a|]; }
      }
    }
  }

  /**
   * With a white-space separator, a join is all white space exactly when
   * every part is.
   */
  lemma {:induction false} JoinAllSpace(w: Runtime, parts: seq<string>, sep: string)
    requires AllSpace(w, sep)
    ensures AllSpace(w, Join(parts, sep)) <==> forall i :: 0 <= i < |parts| ==> AllSpace(w, parts[i])
    decreases |parts|
  {
    if |parts| > 1 {
      JoinAllSpace(w, parts[1..], sep);
      AllSpaceConcat(w, parts[0] + sep, Join(parts[1..], sep));
      AllSpaceConcat(w, parts[0], sep);
      assert forall i :: 1 <= i < |parts| ==> parts[i] == parts[1..][i - 1];
    }
  }

  /**
   * Go `strings.Fields`: the maximal runs of non-space characters; `cur` is
   * the run read so far.
   */
  function FieldsFrom(s: string, cur: string): (r: seq<string>)
    decreases |s|
  {
    if |s| == 0 then (if cur == [] then [] else [cur])
    else if IsSpace(Go, s[0]) then (if cur == [] then [] else [cur]) + FieldsFrom(s[1..], [])
    else FieldsFrom(s[1..], cur + [s[0]])
  }

  function Fields(s: string): (r: seq<string>)
  {
    FieldsFrom(s, [])
  }

  /** No field is empty or holds white space, and all-space text has none. */
  lemma {:induction false} FieldsFromShape(s: string, cur: string)
    requires forall k :: 0 <= k < |cur| ==> !IsSpace(Go, cur[k])
    ensures forall i :: 0 <= i < |FieldsFrom(s, cur)| ==>
      FieldsFrom(s, cur)[i] != [] && forall k :: 0 <= k < |FieldsFrom(s, cur)[i]| ==> !IsSpace(Go, FieldsFrom(s, cur)[i][k])
    ensures FieldsFrom(s, cur) == [] <==> cur == [] && AllSpace(Go, s)
    decreases |s|
  {
    if |s| == 0 {
    } else if IsSpace(Go, s[0]) {
      FieldsFromShape(s[1..], []);
      var rest := FieldsFrom(s[1..], []);
      if cur != [] {
        assert forall i :: 1 <= i < |rest| + 1 ==> ([cur] + rest)[i] == rest[i - 1];
      }
      assert AllSpace(Go, s) <==> AllSpace(Go, s[1..]) by {
        assert forall i :: 1 <= i < |s| ==> s[i] == s[1..][i - 1];
      }
    } else {
      FieldsFromShape(s[1..], cur + [s[0]]);
    }
  }

  lemma FieldsShape(s: string)
    ensures forall i :: 0 <= i < |Fields(s)| ==>
      Fields(s)[i] != [] && forall k :: 0 <= k < |Fields(s)[i]| ==> !IsSpace(Go, Fields(s)[i][k])
    ensures Fields(s) == [] <==> AllSpace(Go, s)
  {
    FieldsFromShape(s, []);
  }

  /** A join is empty only when every part is (or there are none). */
  lemma {:induction false} JoinEmpty(parts: seq<string>, sep: string)
    requires |sep| > 0
    ensures Join(parts, sep) == [] <==> |parts| == 0 || (|parts| == 1 && parts[0] == [])
    decreases |parts|
  {
    if |parts| > 1 {
      JoinEmpty(parts[1..], sep);
    }
  }

  /** A character in neither the parts nor the separator is not in their join. */
  lemma {:induction false} JoinAvoids(parts: seq<string>, sep: string, c: char)
    requires c !in sep
    requires forall i :: 0 <= i < |parts| ==> c !in parts[i]
    ensures c !in Join(parts, sep)
    decreases |parts|
  {
    if |parts| > 1 {
      JoinAvoids(parts[1..], sep, c);
      assert Join(parts, sep) == parts[0] + sep + Join(parts[1..], sep);
    }
  }

  /** `parts[k]` appears in `Join(parts, sep)` starting at `offset`. */
  lemma {:induction false} JoinContainsPart(parts: seq<string>, sep: string, k: int) returns (offset: int)
    requires 0 <= k < |parts|
    ensures 0 <= offset && offset + |parts[k]| <= |Join(parts, sep)|
    ensures Join(parts, sep)[offset..offset + |parts[k]|] == parts[k]
    decreases |parts|
  {
    if |parts| == 1 {
      offset := 0;
    } else if k == 0 {
      offset := 0;
      assert Join(parts, sep)[..|parts[0]|] == parts[0];
    } else {
      var o := JoinContainsPart(parts[1..], sep, k - 1);
      var j := Join(parts[1..], sep);
      offset := |parts[0]| + |sep| + o;
      assert Join(parts, sep) == parts[0] + sep + j;
      assert Join(parts, sep)[offset..offset + |parts[k]|] == j[o..o + |parts[k]|];
    }
  }

  /** JavaScript `toLowerCase` on ASCII letters. */
  function ToLowerAscii(s: string): (r: string)
    ensures |r| == |s|
    ensures forall i :: 0 <= i < |s| ==> if 'A' <= s[i] <= 'Z' then r[i] as int == s[i] as int + 32 else r[i] == s[i]
    decreases |s|
  {
    if s == [] then []
    else [if 'A' <= s[0] <= 'Z' then (s[0] as int + 32) as char else s[0]] + ToLowerAscii(s[1..])
  }

  predicate EndsWith(s: string, suffix: string)
  {
    |suffix| <= |s| && s[|s| - |suffix|..] == suffix
  }

  lemma EndsWithConcat(p: string, q: string)
    ensures EndsWith(p + q, q)
  {
    assert (p + q)[|p|..] == q;
  }

  predicate StartsWith(s: string, prefix: string)
  {
    |prefix| <= |s| && s[..|prefix|] == prefix
  }

  /** A common prefix can be cancelled: `p + a == p + b` only if `a == b`. */
  lemma PrefixCancel(p: string, a: string, b: string)
    requires p + a == p + b
    ensures a == b
  {
    assert a == (p + a)[|p|..];
    assert b == (p + b)[|p|..];
  }
}
