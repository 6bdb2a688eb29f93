/**
 * JavaScript `parseInt(s)` (no radix argument) and `String(n)` for integers.
 * `NaN` is `None`. Numbers are unbounded integers here; the floating-point
 * rounding of very long digit strings is not modelled.
 */
module JsNumbers {
  import opened Wrappers
  import Strs

  predicate IsDecDigit(c: char)
  {
    '0' <= c <= '9'
  }

  predicate IsHexDigit(c: char)
  {
    IsDecDigit(c) || 'a' <= c <= 'f' || 'A' <= c <= 'F'
  }

  predicate IsDigit(c: char, hex: bool)
  {
    if hex then IsHexDigit(c) else IsDecDigit(c)
  }

  function DigitValue(c: char): (r: nat)
    ensures IsDecDigit(c) ==> r < 10
    ensures IsHexDigit(c) ==> r < 16
  {
    if IsDecDigit(c) then (c - '0') as nat
    else if 'a' <= c <= 'f' then (c - 'a') as nat + 10
    else if 'A' <= c <= 'F' then (c - 'A') as nat + 10
    else 0
  }

  /** Length of the longest prefix of `s` made of digits of the radix. */
  function DigitRun(s: string, hex: bool): (n: nat)
    ensures n <= |s|
    ensures forall i :: 0 <= i < n ==> IsDigit(s[i], hex)
    ensures n < |s| ==> !IsDigit(s[n], hex)
    decreases |s|
  {
    if s != [] && IsDigit(s[0], hex) then 1 + DigitRun(s[1..], hex) else 0
  }

  /** The value of a digit string in base 10 or 16, most significant digit first. */
  function DigitsValue(d: string, base: nat): nat
    decreases |d|
  {
    if d == [] then 0 else DigitsValue(d[..|d| - 1], base) * base + DigitValue(d[|d| - 1])
  }

  /**
   * `parseInt(s)`: leading white space skipped, an optional sign, a `0x` /
   * `0X` prefix switching to base 16, then the longest run of digits; no
   * digit at all is `NaN`.
   */
  function ParseInt(s: string): (r: Option<int>)
    ensures r.Some? ==> exists d :: d in s && IsHexDigit(d)
  {
    var t := Strs.TrimStart(Strs.Js, s);
    Strs.TrimStartSuffix(Strs.Js, s);
    var neg := |t| > 0 && t[0] == '-';
    var u := if |t| > 0 && (t[0] == '-' || t[0] == '+') then t[1..] else t;
    var hex := |u| >= 2 && u[0] == '0' && (u[1] == 'x' || u[1] == 'X');
    var body := if hex then u[2..] else u;
    var n := DigitRun(body, hex);
    if n == 0 then None
    else
      assert body[0] in s;
      var v: int := DigitsValue(body[..n], if hex then 16 else 10);
      Some(if neg then -v else v)
  }

  function DigitChar(d: nat): (c: char)
    requires d < 10
    ensures IsDecDigit(c) && DigitValue(c) == d
  {
    '0' + d as char
  }

  /** The decimal digits of a natural number, without leading zeros. */
  function NatDigits(n: nat): (r: string)
    ensures |r| > 0
    ensures forall i :: 0 <= i < |r| ==> IsDecDigit(r[i])
    ensures r[0] == '0' ==> n == 0 && |r| == 1
    ensures DigitsValue(r, 10) == n
    decreases n
  {
    if n < 10 then [DigitChar(n)]
    else
      var init := NatDigits(n / 10);
      var r := init + [DigitChar(n % 10)];
      assert r[..|r| - 1] == init;
      r
  }

  /** `String(n)` for an integer `n`. */
  function DecimalString(n: int): (r: string)
    ensures |r| > 0
    ensures r[0] == '-' <==> n < 0
    ensures r[0] == '-' || IsDecDigit(r[0])
  {
    if n < 0 then "-" + NatDigits(-n) else NatDigits(n)
  }

  /** A run of digits followed by nothing is read whole. */
  lemma DigitRunAll(s: string, hex: bool)
    requires forall i :: 0 <= i < |s| ==> IsDigit(s[i], hex)
    ensures DigitRun(s, hex) == |s|
    decreases |s|
  {
    if s != [] {
      DigitRunAll(s[1..], hex);
    }
  }

  /** `parseInt(String(n))` is `n`: the numbers written into chips and cells read back. */
  lemma ParseDecimal(n: int)
    ensures ParseInt(DecimalString(n)) == Some(n)
  {
    var s := DecimalString(n);
    var m: nat := if n < 0 then -n else n;
    var d := NatDigits(m);
    assert !Strs.IsSpace(Strs.Js, s[0]);
    assert Strs.TrimStart(Strs.Js, s) == s;
    var u := if n < 0 then s[1..] else s;
    assert u == d;
    DigitRunAll(d, false);
    assert d[..|d|] == d;
  }

  /** Distinct numbers are written differently. */
  lemma DecimalInjective(a: int, b: int)
    ensures DecimalString(a) == DecimalString(b) <==> a == b
  {
    ParseDecimal(a);
    ParseDecimal(b);
  }
}
