/**
 * The JavaScript number/string conversions the screens rely on, for
 * integers only: `toString()`, `padStart`, `trim` and `parseInt(s, 10)`.
 * Numbers are unbounded integers here; JavaScript's doubles agree with
 * them below 2^53, and `toString` writes plain digits below 10^21.
 */
module Numbers {
  import opened Data

  predicate IsDigit(c: char) { '0' <= c <= '9' }

  predicate AllDigits(s: string) { forall i :: 0 <= i < |s| ==> IsDigit(s[i]) }

  function DigitChar(d: int): (c: char)
    requires 0 <= d <= 9
    ensures IsDigit(c)
  {
    ('0' as int + d) as char
  }

  function DigitValue(c: char): (d: int)
    requires IsDigit(c)
    ensures 0 <= d <= 9
  {
    c as int - '0' as int
  }

  /** The value of a string of decimal digits, read most significant first. */
  function DigitsValue(s: string): nat
    requires AllDigits(s)
  {
    if |s| == 0 then 0 else DigitsValue(s[..|s| - 1]) * 10 + DigitValue(s[|s| - 1])
  }

  /** Decimal digits of `n` without leading zeros: `n.toString()` for n >= 0. */
  function NatToString(n: nat): (r: string)
    ensures |r| >= 1 && AllDigits(r)
    ensures n < 10 ==> |r| == 1
    ensures 10 <= n < 100 ==> |r| == 2
  {
    if n < 10 then [DigitChar(n)] else NatToString(n / 10) + [DigitChar(n % 10)]
  }

  /** `n.toString()` for an integer `n` below 10^21 in magnitude: a minus sign, then the digits of |n|. */
  function NumberToString(n: int): string {
    if n < 0 then "-" + NatToString(-n) else NatToString(n)
  }

  /** `s.padStart(width, fill)` with a one-character fill. */
  function PadStart(s: string, width: nat, fill: char): (r: string)
    ensures |r| == if |s| >= width then |s| else width
    ensures r[|r| - |s|..] == s
    ensures forall i :: 0 <= i < |r| - |s| ==> r[i] == fill
  {
    if |s| >= width then s else seq(width - |s|, _ => fill) + s
  }

  /** JavaScript's `%`, which truncates toward zero; Dafny's `%` is Euclidean. */
  function JsRem(a: int, b: int): (r: int)
    requires b > 0
    ensures -b < r < b
    ensures a >= 0 ==> r == a % b
    ensures a < 0 ==> r <= 0
  {
    if a >= 0 then a % b else -((-a) % b)
  }

  /**
   * The truncating remainder is odd in the dividend: `-a % b` is
   * `-(a % b)`, so `-61 % 60` is -1.
   */
  lemma JsRemNegated(a: int, b: int)
    requires b > 0
    ensures JsRem(-a, b) == -JsRem(a, b)
    ensures JsRem(-61, 60) == -1
  {
  }

  /**
   * The white space `trim` and `parseInt` skip: tab, vertical tab, form
   * feed, the byte order mark, every space separator (Unicode category Zs)
   * and the four line terminators.
   */
  predicate IsWhitespace(c: char) {
    c == '\t' || c == '\U{000B}' || c == '\U{000C}' || c == '\U{FEFF}'
      || c == ' ' || c == '\U{00A0}' || c == '\U{1680}' || '\U{2000}' <= c <= '\U{200A}'
      || c == '\U{202F}' || c == '\U{205F}' || c == '\U{3000}'
      || c == '\n' || c == '\r' || c == '\U{2028}' || c == '\U{2029}'
  }

  function TrimStart(s: string): (r: string)
    ensures |r| <= |s| && r == s[|s| - |r|..]
    ensures |r| > 0 ==> !IsWhitespace(r[0])
  {
    if |s| > 0 && IsWhitespace(s[0]) then TrimStart(s[1..]) else s
  }

  function TrimEnd(s: string): (r: string)
    ensures |r| <= |s| && r == s[..|r|]
    ensures |r| > 0 ==> !IsWhitespace(r[|r| - 1])
  {
    if |s| > 0 && IsWhitespace(s[|s| - 1]) then TrimEnd(s[..|s| - 1]) else s
  }

  function Trim(s: string): string { TrimEnd(TrimStart(s)) }

  /** `s.trim() === ''` holds exactly when every character is white space. */
  lemma {:induction false} TrimEmptyIffBlank(s: string)
    ensures Trim(s) == "" <==> forall i :: 0 <= i < |s| ==> IsWhitespace(s[i])
  {
    TrimStartEmptyIffBlank(s);
    var t := TrimStart(s);
    if t != "" {
      assert !IsWhitespace(t[0]);
      assert TrimEnd(t) != "" by {
        if TrimEnd(t) == "" { TrimEndEmptyOnlyIfBlank(t); }
      }
    }
  }

  lemma {:induction false} TrimStartEmptyIffBlank(s: string)
    ensures TrimStart(s) == "" <==> forall i :: 0 <= i < |s| ==> IsWhitespace(s[i])
  {
    if |s| > 0 && IsWhitespace(s[0]) {
      TrimStartEmptyIffBlank(s[1..]);
      assert forall i :: 1 <= i < |s| ==> s[i] == s[1..][i - 1];
    }
  }

  lemma {:induction false} TrimEndEmptyOnlyIfBlank(s: string)
    requires TrimEnd(s) == ""
    ensures forall i :: 0 <= i < |s| ==> IsWhitespace(s[i])
  {
    if |s| > 0 {
      TrimEndEmptyOnlyIfBlank(s[..|s| - 1]);
      assert forall i :: 0 <= i < |s| - 1 ==> s[i] == s[..|s| - 1][i];
    }
  }

  /** The longest prefix of `s` made of digits. */
  function DigitPrefix(s: string): (r: string)
    ensures |r| <= |s| && AllDigits(r) && r == s[..|r|]
    ensures |r| < |s| ==> !IsDigit(s[|r|])
  {
    if |s| > 0 && IsDigit(s[0]) then [s[0]] + DigitPrefix(s[1..]) else []
  }

  /**
   * `parseInt(s, 10)`: leading white space, an optional sign, then as many
   * decimal digits as there are; no digit at all is NaN, here `None`.
   */
  function ParseInt(s: string): Option<int> {
    ParseSigned(TrimStart(s))
  }

  /** `parseInt` after the white space: an optional sign, then the digit prefix. */
  function ParseSigned(t: string): Option<int> {
    var negative := |t| > 0 && t[0] == '-';
    var unsigned := if |t| > 0 && (t[0] == '-' || t[0] == '+') then t[1..] else t;
    var digits := DigitPrefix(unsigned);
    if |digits| == 0 then None
    else
      var magnitude: int := DigitsValue(digits);
      Some(if negative then -magnitude else magnitude)
  }

  // ---------------------------------------------------------------------
  // Round trips

  lemma {:induction false} DigitsOfNatToString(n: nat)
    ensures DigitsValue(NatToString(n)) == n
  {
    if n >= 10 {
      DigitsOfNatToString(n / 10);
      var r := NatToString(n);
      assert r[..|r| - 1] == NatToString(n / 10);
    }
  }

  /** Leading zeros do not change the value of a digit string. */
  lemma {:induction false} LeadingZeros(z: string, s: string)
    requires forall i :: 0 <= i < |z| ==> z[i] == '0'
    requires AllDigits(s)
    ensures AllDigits(z + s) && DigitsValue(z + s) == DigitsValue(s)
  {
    if |s| == 0 {
      assert z + s == z;
      AllZeros(z);
    } else {
      LeadingZeros(z, s[..|s| - 1]);
      assert (z + s)[..|z + s| - 1] == z + s[..|s| - 1];
    }
  }

  lemma {:induction false} AllZeros(z: string)
    requires forall i :: 0 <= i < |z| ==> z[i] == '0'
    ensures AllDigits(z) && DigitsValue(z) == 0
  {
    if |z| > 0 {
      AllZeros(z[..|z| - 1]);
    }
  }

  lemma {:induction false} DigitPrefixOfDigits(s: string, rest: string)
    requires AllDigits(s)
    requires |rest| > 0 ==> !IsDigit(rest[0])
    ensures DigitPrefix(s + rest) == s
  {
    if |s| > 0 {
      DigitPrefixOfDigits(s[1..], rest);
      assert (s + rest)[1..] == s[1..] + rest;
    } else {
      assert s + rest == rest;
    }
  }

  /** A digit string, with or without a minus sign, parses to its value. */
  lemma {:induction false} ParseIntOfDigits(digits: string)
    requires |digits| > 0 && AllDigits(digits)
    ensures ParseInt(digits) == Some(DigitsValue(digits) as int)
    ensures ParseInt("-" + digits) == Some(-(DigitsValue(digits) as int))
  {
    DigitPrefixOfDigits(digits, "");
    assert digits + "" == digits;
    assert IsDigit(digits[0]);
    assert TrimStart(digits) == digits by { assert !IsWhitespace(digits[0]); }
    var minus := "-" + digits;
    assert minus[1..] == digits;
    assert TrimStart(minus) == minus by { assert minus[0] == '-'; }
  }

  /** Reading back what `toString()` wrote gives the number again. */
  lemma ParseIntOfNumberToString(n: int)
    ensures ParseInt(NumberToString(n)) == Some(n)
  {
    var m: nat := if n < 0 then -n else n;
    DigitsOfNatToString(m);
    ParseIntOfDigits(NatToString(m));
  }

  /** Text after the digits does not change what `parseInt` reads. */
  lemma ParseIntIgnoresTrailing(digits: string, rest: string)
    requires |digits| > 0 && AllDigits(digits)
    requires |rest| > 0 ==> !IsDigit(rest[0])
    ensures ParseInt(digits + rest) == Some(DigitsValue(digits) as int)
  {
    var t := digits + rest;
    assert t[0] == digits[0] && IsDigit(t[0]);
    assert TrimStart(t) == t by { assert !IsWhitespace(t[0]); }
    DigitPrefixOfDigits(digits, rest);
    assert DigitPrefix(t) == digits;
    assert t[0] != '-' && t[0] != '+';
    assert ParseSigned(t) == Some(DigitsValue(digits) as int);
  }

  /** White space in front does not change what `parseInt` reads. */
  lemma ParseIntSkipsLeadingSpace(ws: string, s: string)
    requires forall i :: 0 <= i < |ws| ==> IsWhitespace(ws[i])
    ensures ParseInt(ws + s) == ParseInt(s)
  {
    TrimStartSkips(ws, s);
  }

  lemma {:induction false} TrimStartSkips(ws: string, s: string)
    requires forall i :: 0 <= i < |ws| ==> IsWhitespace(ws[i])
    ensures TrimStart(ws + s) == TrimStart(s)
  {
    if |ws| == 0 {
      assert ws + s == s;
    } else {
      assert (ws + s)[0] == ws[0];
      assert (ws + s)[1..] == ws[1..] + s;
      TrimStartSkips(ws[1..], s);
    }
  }
}
