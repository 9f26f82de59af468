/**
 * The JavaScript string built-ins the front end relies on, on Dafny strings:
 * `trim`, `parseInt`, `String(n)` for integers, `includes`, the default
 * `Array.prototype.sort` comparison of strings and an ASCII `toLowerCase`.
 */
module JsText {
  import opened Wrappers

  /** WhiteSpace and LineTerminator code points of ECMAScript: what `trim` and `parseInt` skip. */
  predicate IsWhitespace(c: char) {
    var n := c as int;
    n == 0x09 || n == 0x0A || n == 0x0B || n == 0x0C || n == 0x0D || n == 0x20
    || n == 0xA0 || n == 0x1680 || (0x2000 <= n <= 0x200A) || n == 0x2028 || n == 0x2029
    || n == 0x202F || n == 0x205F || n == 0x3000 || n == 0xFEFF
  }

  predicate IsDigit(c: char) {
    '0' <= c <= '9'
  }

  predicate AllDigits(s: string) {
    forall i :: 0 <= i < |s| ==> IsDigit(s[i])
  }

  function DigitValue(c: char): nat
    requires IsDigit(c)
  {
    c as int - '0' as int
  }

  function DigitChar(d: nat): (c: char)
    requires d < 10
    ensures IsDigit(c) && DigitValue(c) == d
  {
    (d + '0' as int) as char
  }

  predicate IsHexDigit(c: char) {
    IsDigit(c) || 'a' <= c <= 'f' || 'A' <= c <= 'F'
  }

  function HexDigitValue(c: char): nat
    requires IsHexDigit(c)
  {
    if IsDigit(c) then DigitValue(c)
    else if 'a' <= c <= 'f' then c as int - 'a' as int + 10
    else c as int - 'A' as int + 10
  }

  // ---------------------------------------------------------------------
  // trim
  // ---------------------------------------------------------------------

  /** `s.trimStart()`: drops the leading white space and nothing else. */
  function TrimStart(s: string): (t: string)
    ensures |t| <= |s| && t == s[|s| - |t|..]
    ensures forall i :: 0 <= i < |s| - |t| ==> IsWhitespace(s[i])
    ensures t != [] ==> !IsWhitespace(t[0])
  {
    if s != [] && IsWhitespace(s[0]) then TrimStart(s[1..]) else s
  }

  /** `s.trimEnd()`: drops the trailing white space and nothing else. */
  function TrimEnd(s: string): (t: string)
    ensures |t| <= |s| && t == s[..|t|]
    ensures forall i :: |t| <= i < |s| ==> IsWhitespace(s[i])
    ensures t != [] ==> !IsWhitespace(t[|t| - 1])
  {
    if s != [] && IsWhitespace(s[|s| - 1]) then TrimEnd(s[..|s| - 1]) else s
  }

  /** `s.trim()`. */
  function Trim(s: string): (t: string)
    ensures |t| <= |s|
  {
    TrimEnd(TrimStart(s))
  }

  /** `s.trim()` is a slice of `s`, and it is empty exactly when `s` is all white space. */
  lemma TrimSpec(s: string)
    ensures exists k {:trigger s[k..]} :: 0 <= k <= |s| - |Trim(s)| && Trim(s) == s[k..k + |Trim(s)|]
    ensures Trim(s) == [] <==> forall i :: 0 <= i < |s| ==> IsWhitespace(s[i])
  {
    var u := TrimStart(s);
    var t := TrimEnd(u);
    assert t == s[|s| - |u|..][..|t|];
    assert u != [] ==> !IsWhitespace(u[0]);
  }

  // ---------------------------------------------------------------------
  // Integers as decimal text
  // ---------------------------------------------------------------------

  /** `String(n)` for `n >= 0`: decimal digits without a leading zero. */
  function NatToDecimal(n: nat): (s: string)
    ensures |s| >= 1 && AllDigits(s)
    ensures s[0] == '0' ==> n == 0 && s == "0"
    decreases n
  {
    if n < 10 then [DigitChar(n)] else NatToDecimal(n / 10) + [DigitChar(n % 10)]
  }

  /** `String(n)` for any integer: a minus sign before the decimal digits of `-n`. */
  function IntToDecimal(n: int): (s: string)
    ensures |s| >= 1
  {
    if n < 0 then "-" + NatToDecimal(-n) else NatToDecimal(n)
  }

  /** The number a run of decimal digits denotes. */
  function DecimalValue(s: string): nat
    requires AllDigits(s)
  {
    if s == [] then 0 else 10 * DecimalValue(s[..|s| - 1]) + DigitValue(s[|s| - 1])
  }

  /** The number a run of hexadecimal digits denotes. */
  function HexValue(s: string): nat
    requires forall i :: 0 <= i < |s| ==> IsHexDigit(s[i])
  {
    if s == [] then 0 else 16 * HexValue(s[..|s| - 1]) + HexDigitValue(s[|s| - 1])
  }

  /** The longest prefix of `s` made of decimal digits. */
  function LeadingDigits(s: string): (d: string)
    ensures d <= s && AllDigits(d)
    ensures |d| < |s| ==> !IsDigit(s[|d|])
  {
    if s != [] && IsDigit(s[0]) then [s[0]] + LeadingDigits(s[1..]) else []
  }

  /** The longest prefix of `s` made of hexadecimal digits. */
  function LeadingHexDigits(s: string): (d: string)
    ensures d <= s && forall i :: 0 <= i < |d| ==> IsHexDigit(d[i])
    ensures |d| < |s| ==> !IsHexDigit(s[|d|])
  {
    if s != [] && IsHexDigit(s[0]) then [s[0]] + LeadingHexDigits(s[1..]) else []
  }

  /**
   * `parseInt(s)` without a radix: skip leading white space, read one sign,
   * read hexadecimal digits after a `0x`/`0X` prefix and decimal digits
   * otherwise, stop at the first character that is not a digit. `None` is NaN.
   */
  function ParseInt(s: string): (r: Option<int>)
    ensures TrimStart(s) == [] ==> r == None
    ensures r.Some? && r.value < 0 ==> TrimStart(s) != [] && TrimStart(s)[0] == '-'
  {
    ParseSigned(TrimStart(s))
  }

  /** `parseInt` after the white space: one optional sign, then the unsigned part. */
  function ParseSigned(t: string): (r: Option<int>)
    ensures t == [] ==> r == None
    ensures r.Some? && r.value < 0 ==> t != [] && t[0] == '-'
  {
    var negative := t != [] && t[0] == '-';
    match ParseMagnitude(SkipSign(t))
    case None => None
    case Some(v) => Some(if negative then -(v as int) else v)
  }

  function SkipSign(t: string): string {
    if t != [] && (t[0] == '-' || t[0] == '+') then t[1..] else t
  }

  /** The unsigned part of `parseInt`: a `0x`/`0X` prefix selects base 16, otherwise base 10. */
  function ParseMagnitude(u: string): Option<nat> {
    if |u| >= 2 && u[0] == '0' && (u[1] == 'x' || u[1] == 'X') then
      var h := LeadingHexDigits(u[2..]);
      if h == [] then None else Some(HexValue(h))
    else
      var d := LeadingDigits(u);
      if d == [] then None else Some(DecimalValue(d))
  }

  lemma {:induction false} DecimalRoundTrip(n: nat)
    ensures DecimalValue(NatToDecimal(n)) == n
    decreases n
  {
    if n >= 10 {
      var s := NatToDecimal(n);
      assert s[..|s| - 1] == NatToDecimal(n / 10);
      DecimalRoundTrip(n / 10);
    }
  }

  lemma {:induction false} LeadingDigitsOfDigits(d: string, rest: string)
    requires AllDigits(d)
    requires rest == [] || !IsDigit(rest[0])
    ensures LeadingDigits(d + rest) == d
    decreases |d|
  {
    if d != [] {
      assert (d + rest)[1..] == d[1..] + rest;
      LeadingDigitsOfDigits(d[1..], rest);
    }
  }

  /**
   * `parseInt` reads back what `String(n)` wrote, also when other text follows
   * that cannot continue the number (as in the counter text "12/500").
   */
  lemma ParseIntOfDecimalPrefix(n: int, rest: string)
    requires rest == [] || (!IsDigit(rest[0]) && rest[0] != 'x' && rest[0] != 'X')
    ensures ParseInt(IntToDecimal(n) + rest) == Some(n)
  {
    if n < 0 {
      var u := NatToDecimal(-n) + rest;
      MagnitudeOfDecimal(-n, rest);
      assert IntToDecimal(n) + rest == ['-'] + u;
      NegativeParse(u, -n);
    } else {
      var u := NatToDecimal(n) + rest;
      MagnitudeOfDecimal(n, rest);
      assert IntToDecimal(n) + rest == u;
      UnsignedParse(u, n);
    }
  }

  /** The unsigned part reads back the digits `String(m)` wrote. */
  lemma MagnitudeOfDecimal(m: nat, rest: string)
    requires rest == [] || (!IsDigit(rest[0]) && rest[0] != 'x' && rest[0] != 'X')
    ensures NatToDecimal(m) + rest != [] && IsDigit((NatToDecimal(m) + rest)[0])
    ensures ParseMagnitude(NatToDecimal(m) + rest) == Some(m)
  {
    var digits := NatToDecimal(m);
    assert (digits + rest)[0] == digits[0];
    DecimalRoundTrip(m);
    MagnitudeOfDigits(digits, rest);
  }

  /** `parseInt` on a minus sign followed by text negates what the text reads as. */
  lemma NegativeParse(u: string, v: nat)
    requires ParseMagnitude(u) == Some(v)
    ensures ParseInt(['-'] + u) == Some(-(v as int))
  {
    var s := ['-'] + u;
    assert s[0] == '-' && !IsWhitespace('-');
    TrimStartNoSpace(s);
    assert s[1..] == u;
    assert SkipSign(s) == u;
  }

  /** `parseInt` on text that starts with a digit is what its unsigned part reads. */
  lemma UnsignedParse(u: string, v: nat)
    requires u != [] && IsDigit(u[0])
    requires ParseMagnitude(u) == Some(v)
    ensures ParseInt(u) == Some(v)
  {
    DigitNotSpace(u[0]);
    TrimStartNoSpace(u);
    assert SkipSign(u) == u;
  }

  lemma DigitNotSpace(c: char)
    requires IsDigit(c)
    ensures !IsWhitespace(c) && c != '-' && c != '+'
  {
  }

  /** Text that does not start with white space is left alone by `trimStart`. */
  lemma TrimStartNoSpace(s: string)
    requires s == [] || !IsWhitespace(s[0])
    ensures TrimStart(s) == s
  {
  }

  /** The unsigned part reads a run of digits without a superfluous leading zero. */
  lemma MagnitudeOfDigits(digits: string, rest: string)
    requires digits != [] && AllDigits(digits) && (digits[0] == '0' ==> digits == "0")
    requires rest == [] || (!IsDigit(rest[0]) && rest[0] != 'x' && rest[0] != 'X')
    ensures ParseMagnitude(digits + rest) == Some(DecimalValue(digits))
  {
    var u := digits + rest;
    assert u[0] == digits[0];
    assert |u| >= 2 && u[0] == '0' ==> u[1] == rest[0] by {
      if |u| >= 2 && u[0] == '0' {
        assert digits == "0";
      }
    }
    LeadingDigitsOfDigits(digits, rest);
  }

  lemma ParseIntRoundTrip(n: int)
    ensures ParseInt(IntToDecimal(n)) == Some(n)
  {
    assert IntToDecimal(n) + [] == IntToDecimal(n);
    ParseIntOfDecimalPrefix(n, []);
  }

  /** Two integers print alike only when they are equal. */
  lemma IntToDecimalInjective(a: int, b: int)
    ensures IntToDecimal(a) == IntToDecimal(b) ==> a == b
  {
    ParseIntRoundTrip(a);
    ParseIntRoundTrip(b);
  }

  // ---------------------------------------------------------------------
  // Ordering, search and case
  // ---------------------------------------------------------------------

  /**
   * `a <= b` as the default `Array.prototype.sort` compares strings: code unit
   * by code unit, a proper prefix coming first.
   */
  predicate StrLe(a: string, b: string) {
    if a == [] then true
    else if b == [] then false
    else if a[0] != b[0] then a[0] < b[0]
    else StrLe(a[1..], b[1..])
  }

  lemma {:induction false} StrLeTotal(a: string, b: string)
    ensures StrLe(a, b) || StrLe(b, a)
    decreases |a|
  {
    if a != [] && b != [] && a[0] == b[0] {
      StrLeTotal(a[1..], b[1..]);
    }
  }

  lemma {:induction false} StrLeAntisymmetric(a: string, b: string)
    ensures StrLe(a, b) && StrLe(b, a) ==> a == b
    decreases |a|
  {
    if a != [] && b != [] && a[0] == b[0] {
      StrLeAntisymmetric(a[1..], b[1..]);
      assert a == [a[0]] + a[1..] && b == [b[0]] + b[1..];
    }
  }

  lemma {:induction false} StrLeTransitive(a: string, b: string, c: string)
    ensures StrLe(a, b) && StrLe(b, c) ==> StrLe(a, c)
    decreases |a|
  {
    if a != [] && b != [] && c != [] && a[0] == b[0] && b[0] == c[0] {
      StrLeTransitive(a[1..], b[1..], c[1..]);
    }
  }

  /** `s.includes(sub)`; every string includes the empty string. */
  predicate Contains(s: string, sub: string) {
    sub <= s || (s != [] && Contains(s[1..], sub))
  }

  function LowerChar(c: char): char {
    if 'A' <= c <= 'Z' then (c as int + 32) as char else c
  }

  /** `s.toLowerCase()`, restricted to the ASCII letters. */
  function Lower(s: string): (r: string)
    ensures |r| == |s|
    ensures forall i :: 0 <= i < |s| ==> r[i] == LowerChar(s[i])
  {
    if s == [] then [] else [LowerChar(s[0])] + Lower(s[1..])
  }
}
