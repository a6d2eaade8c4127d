/** Integers as the JavaScript code reads them: `parseInt(s, 10)` and `parseInt(s)`
    without a radix, as defined in section 19.2.5 of ECMA-262, and the decimal digits of
    a natural number. `NaN` is `None`. */
module Decimal {
  import opened Wrappers
  import Text

  predicate IsDigit(c: char) {
    '0' <= c <= '9'
  }

  predicate AllDigits(s: string) {
    forall i :: 0 <= i < |s| ==> IsDigit(s[i])
  }

  function DigitValue(c: char): nat
    requires IsDigit(c)
  {
    c as int - '0' as int
  }

  function DigitChar(d: nat): (c: char)
    requires d < 10
    ensures IsDigit(c) && DigitValue(c) == d
  {
    ('0' as int + d) as char
  }

  /** The longest prefix of `s` made of decimal digits. */
  function DigitPrefix(s: string): (r: string)
    ensures r <= s && AllDigits(r)
    ensures |r| < |s| ==> !IsDigit(s[|r|])
  {
    if s != [] && IsDigit(s[0]) then [s[0]] + DigitPrefix(s[1..]) else []
  }

  /** The value of a string of decimal digits, most significant first. */
  function DigitsValue(d: string): nat
    requires AllDigits(d)
  {
    if d == [] then 0 else DigitsValue(d[..|d| - 1]) * 10 + DigitValue(d[|d| - 1])
  }

  /** The decimal representation of `n`, without leading zeros. */
  function NatToString(n: nat): (r: string)
    ensures r != [] && AllDigits(r)
    ensures r[0] == '0' ==> n == 0
  {
    if n < 10 then [DigitChar(n)] else NatToString(n / 10) + [DigitChar(n % 10)]
  }

  /** `parseInt(s, 10)`: skip leading white space, then read a signed decimal. */
  function ParseInt(s: string): Option<int> {
    ParseSigned(Text.TrimStart(s))
  }

  /** An optional sign, then the longest run of decimal digits; no digits at all gives
      `NaN`. The sign of a zero result is not kept. */
  function ParseSigned(t: string): Option<int> {
    var negative := t != [] && t[0] == '-';
    var digits := DigitPrefix(Unsigned(t));
    if digits == [] then None
    else
      var v: int := DigitsValue(digits);
      Some(if negative then -v else v)
  }

  /** `t` without its leading sign, if it has one. */
  function Unsigned(t: string): string {
    if t != [] && (t[0] == '-' || t[0] == '+') then t[1..] else t
  }

  predicate IsHexDigit(c: char) {
    IsDigit(c) || 'a' <= c <= 'f' || 'A' <= c <= 'F'
  }

  predicate AllHexDigits(s: string) {
    forall i :: 0 <= i < |s| ==> IsHexDigit(s[i])
  }

  function HexDigitValue(c: char): (v: nat)
    requires IsHexDigit(c)
    ensures v < 16
  {
    if IsDigit(c) then DigitValue(c)
    else if 'a' <= c <= 'f' then c as int - 'a' as int + 10
    else c as int - 'A' as int + 10
  }

  /** The longest prefix of `s` made of hexadecimal digits. */
  function HexDigitPrefix(s: string): (r: string)
    ensures r <= s && AllHexDigits(r)
    ensures |r| < |s| ==> !IsHexDigit(s[|r|])
  {
    if s != [] && IsHexDigit(s[0]) then [s[0]] + HexDigitPrefix(s[1..]) else []
  }

  /** The value of a string of hexadecimal digits, most significant first. */
  function HexDigitsValue(d: string): nat
    requires AllHexDigits(d)
  {
    if d == [] then 0 else HexDigitsValue(d[..|d| - 1]) * 16 + HexDigitValue(d[|d| - 1])
  }

  /** "0x" or "0X": the prefix that switches a radix-less `parseInt` to base 16. */
  predicate HasHexPrefix(t: string) {
    |t| >= 2 && t[0] == '0' && (t[1] == 'x' || t[1] == 'X')
  }

  /** `parseInt(s)` without a radix: skip leading white space and a sign; after them a
      "0x" or "0X" prefix is dropped and the longest run of hexadecimal digits is read,
      otherwise the input is read as `parseInt(s, 10)` reads it. No digit after the
      prefix gives `NaN`. */
  function ParseIntDefaultRadix(s: string): Option<int> {
    var t := Text.TrimStart(s);
    var body := Unsigned(t);
    if HasHexPrefix(body) then ParseHex(t[0] == '-', body[2..]) else ParseInt(s)
  }

  /** The hexadecimal number `rest` starts with, negated after a minus sign; `NaN` when
      it does not start with a hexadecimal digit. */
  function ParseHex(negative: bool, rest: string): Option<int> {
    var digits := HexDigitPrefix(rest);
    if digits == [] then None
    else
      var v: int := HexDigitsValue(digits);
      Some(if negative then -v else v)
  }

  lemma {:induction false} HexDigitPrefixStopsAtNonDigit(d: string, t: string)
    requires AllHexDigits(d)
    requires t == [] || !IsHexDigit(t[0])
    ensures HexDigitPrefix(d + t) == d
  {
    if d == [] {
      assert d + t == t;
    } else {
      assert (d + t)[1..] == d[1..] + t;
      HexDigitPrefixStopsAtNonDigit(d[1..], t);
    }
  }

  /** Unless a "0x" or "0X" prefix follows the white space and the sign, `parseInt`
      reads the same with or without a radix. */
  lemma DefaultRadixAgreesWithDecimal(s: string)
    requires !HasHexPrefix(Unsigned(Text.TrimStart(s)))
    ensures ParseIntDefaultRadix(s) == ParseInt(s)
  {
  }

  /** Without leading white space and without the prefix, a radix-less `parseInt` reads
      as `parseInt(s, 10)` does. */
  lemma NoHexPrefixIsDecimal(s: string)
    requires s != [] && !Text.IsWhiteSpace(s[0]) && !HasHexPrefix(Unsigned(s))
    ensures ParseIntDefaultRadix(s) == ParseInt(s)
  {
    Text.TrimStartNonBlank(s);
  }

  /** In particular a string that starts with a digit other than a "0x" prefix reads
      the same with or without a radix. */
  lemma DigitStartIsDecimal(s: string)
    requires s != [] && IsDigit(s[0])
    requires |s| < 2 || (s[1] != 'x' && s[1] != 'X')
    ensures ParseIntDefaultRadix(s) == ParseInt(s)
  {
    assert Unsigned(s) == s;
    NoHexPrefixIsDecimal(s);
  }

  lemma UnsignedDropsSign(sign: string, u: string)
    requires sign == "" || sign == "-" || sign == "+"
    requires u != [] && u[0] == '0'
    ensures Unsigned(sign + u) == u
  {
    if sign == "" {
      assert sign + u == u;
    } else {
      assert (sign + u)[1..] == u;
    }
  }

  lemma ParseHexOfDigits(negative: bool, d: string, t: string)
    requires AllHexDigits(d)
    requires t == [] || !IsHexDigit(t[0])
    ensures d == [] ==> ParseHex(negative, d + t) == None
    ensures d != [] ==> ParseHex(negative, d + t) == Some(if negative then -(HexDigitsValue(d) as int) else HexDigitsValue(d))
  {
    HexDigitPrefixStopsAtNonDigit(d, t);
    ParseHexOfPrefix(negative, d + t, d);
  }

  lemma ParseHexOfPrefix(negative: bool, rest: string, d: string)
    requires AllHexDigits(d) && HexDigitPrefix(rest) == d
    ensures d == [] ==> ParseHex(negative, rest) == None
    ensures d != [] ==> ParseHex(negative, rest) == Some(if negative then -(HexDigitsValue(d) as int) else HexDigitsValue(d))
  {
  }

  /** Without leading white space, a radix-less `parseInt` of a hexadecimal literal
      reads the digits after the prefix. */
  lemma ParseIntDefaultRadixNonBlank(s: string)
    requires s != [] && !Text.IsWhiteSpace(s[0]) && HasHexPrefix(Unsigned(s))
    ensures ParseIntDefaultRadix(s) == ParseHex(s[0] == '-', Unsigned(s)[2..])
  {
    Text.TrimStartNonBlank(s);
  }

  /** A radix-less `parseInt` reads "0x" or "0X", after an optional sign, as the start of
      a hexadecimal number, and stops at the first character that is not a hexadecimal
      digit; with no digit after the prefix it gives `NaN`. */
  lemma ParseIntOfHex(sign: string, x: char, d: string, t: string)
    requires sign == "" || sign == "-" || sign == "+"
    requires x == 'x' || x == 'X'
    requires AllHexDigits(d)
    requires t == [] || !IsHexDigit(t[0])
    ensures d == [] ==> ParseIntDefaultRadix(sign + (['0', x] + d + t)) == None
    ensures d != [] ==> ParseIntDefaultRadix(sign + (['0', x] + d + t)) ==
                          Some(if sign == "-" then -(HexDigitsValue(d) as int) else HexDigitsValue(d))
  {
    assert ['0', x] + d + t == ['0', x] + (d + t);
    ParseIntAfterHexPrefix(sign, x, d + t);
    ParseHexOfDigits(sign == "-", d, t);
  }

  /** After an optional sign and the prefix, the rest is read in base 16. */
  lemma ParseIntAfterHexPrefix(sign: string, x: char, rest: string)
    requires sign == "" || sign == "-" || sign == "+"
    requires x == 'x' || x == 'X'
    ensures ParseIntDefaultRadix(sign + (['0', x] + rest)) == ParseHex(sign == "-", rest)
  {
    var u := ['0', x] + rest;
    var s := sign + u;
    UnsignedDropsSign(sign, u);
    assert s[0] == (if sign == "" then '0' else sign[0]);
    ParseIntDefaultRadixNonBlank(s);
    assert u[2..] == rest;
    assert (s[0] == '-') == (sign == "-");
  }

  /** `parseInt("0x1A hours")` is 26, where `parseInt(s, 10)` stops at the "x" and
      reads 0. */
  lemma HexDuration(s: string)
    requires s == "0x1A hours"
    ensures ParseIntDefaultRadix(s) == Some(26) && ParseInt(s) == Some(0)
  {
    assert HexDigitsValue("1A") == 26 by {
      assert "1A"[..1] == "1";
    }
    HexDurationSpelling(s);
    ParseIntOfHex("", 'x', "1A", " hours");
    DecimalReadsHexAsZero("", 'x', "1A hours");
  }

  lemma HexDurationSpelling(s: string)
    requires s == "0x1A hours"
    ensures s == "" + (['0', 'x'] + "1A" + " hours")
    ensures s == "" + (['0', 'x'] + "1A hours")
  {
  }

  /** `parseInt("0xg")` and the like are `NaN`: no hexadecimal digit follows the
      prefix. */
  lemma HexPrefixWithoutDigits(sign: string, x: char, t: string)
    requires sign == "" || sign == "-" || sign == "+"
    requires x == 'x' || x == 'X'
    requires t == [] || !IsHexDigit(t[0])
    ensures ParseIntDefaultRadix(sign + (['0', x] + t)) == None
  {
    ParseIntAfterHexPrefix(sign, x, t);
  }

  /** `parseInt(s, 10)` reads any such literal as 0: it stops at the "x". */
  lemma DecimalReadsHexAsZero(sign: string, x: char, rest: string)
    requires sign == "" || sign == "-" || sign == "+"
    requires x == 'x' || x == 'X'
    ensures ParseInt(sign + (['0', x] + rest)) == Some(0)
  {
    var u := ['0', x] + rest;
    var s := sign + u;
    UnsignedDropsSign(sign, u);
    assert s[0] == (if sign == "" then '0' else sign[0]);
    Text.TrimStartNonBlank(s);
    DigitPrefixOfHex(x, rest);
    assert DigitsValue("0") == 0;
  }

  lemma DigitPrefixOfHex(x: char, rest: string)
    requires x == 'x' || x == 'X'
    ensures DigitPrefix(['0', x] + rest) == "0"
  {
    assert ['0', x] + rest == "0" + ([x] + rest);
    DigitPrefixStopsAtNonDigit("0", [x] + rest);
  }

  /** `parseInt("-0x10")` is -16: the sign comes before the prefix. */
  lemma NegativeHex(s: string)
    requires s == "-0x10"
    ensures ParseIntDefaultRadix(s) == Some(-16)
  {
    assert HexDigitsValue("10") == 16 by {
      assert "10"[..1] == "1";
    }
    NegativeHexSpelling(s);
    ParseIntOfHex("-", 'x', "10", "");
  }

  lemma NegativeHexSpelling(s: string)
    requires s == "-0x10"
    ensures s == "-" + (['0', 'x'] + "10" + "")
  {
  }

  lemma {:induction false} DigitsValueOfNatToString(n: nat)
    ensures DigitsValue(NatToString(n)) == n
  {
    if n >= 10 {
      var d := NatToString(n / 10);
      var r := d + [DigitChar(n % 10)];
      assert r[..|r| - 1] == d;
      DigitsValueOfNatToString(n / 10);
    }
  }

  /** The digit prefix of a digit string followed by anything that does not start with a
      digit is that digit string. */
  lemma {:induction false} DigitPrefixStopsAtNonDigit(d: string, t: string)
    requires AllDigits(d)
    requires t == [] || !IsDigit(t[0])
    ensures DigitPrefix(d + t) == d
  {
    if d == [] {
      assert d + t == t;
    } else {
      assert (d + t)[1..] == d[1..] + t;
      DigitPrefixStopsAtNonDigit(d[1..], t);
    }
  }

  /** Leading white space does not change what `parseInt` reads. */
  lemma {:induction false} ParseIntSkipsWhiteSpace(w: string, s: string)
    requires Text.AllWhiteSpace(w)
    ensures ParseInt(w + s) == ParseInt(s)
  {
    TrimStartSkips(w, s);
  }

  lemma {:induction false} TrimStartSkips(w: string, s: string)
    requires Text.AllWhiteSpace(w)
    ensures Text.TrimStart(w + s) == Text.TrimStart(s)
  {
    if w != [] {
      assert (w + s)[1..] == w[1..] + s;
      TrimStartSkips(w[1..], s);
    } else {
      assert w + s == s;
    }
  }

  /** Without leading white space, `parseInt` reads the sign and digits directly. */
  lemma ParseIntNonBlank(s: string)
    requires s != [] && !Text.IsWhiteSpace(s[0])
    ensures ParseInt(s) == ParseSigned(s)
  {
    Text.TrimStartNonBlank(s);
  }

  /** A run of digits followed by anything that does not start with a digit parses to
      the value of the digits. */
  lemma ParseIntOfDigits(d: string, t: string)
    requires d != [] && AllDigits(d)
    requires t == [] || !IsDigit(t[0])
    ensures ParseInt(d + t) == Some(DigitsValue(d))
  {
    var u := d + t;
    assert ParseSigned(u) == Some(DigitsValue(d)) by {
      assert u[0] == d[0];
      DigitPrefixStopsAtNonDigit(d, t);
    }
    assert u[0] == d[0];
    ParseIntNonBlank(u);
  }

  lemma DropSign(d: string, t: string)
    ensures ("-" + d + t)[1..] == d + t
  {
  }

  /** The same after a minus sign. */
  lemma ParseIntOfNegativeDigits(s: string, d: string, t: string)
    requires d != [] && AllDigits(d)
    requires t == [] || !IsDigit(t[0])
    requires s != [] && s[0] == '-' && s[1..] == d + t
    ensures ParseInt(s) == Some(-(DigitsValue(d) as int))
  {
    assert Unsigned(s) == d + t;
    DigitPrefixStopsAtNonDigit(d, t);
    ParseNegativeOfPrefix(s, d);
    ParseIntNonBlank(s);
  }

  lemma ParseNegativeOfPrefix(s: string, d: string)
    requires s != [] && s[0] == '-'
    requires d != [] && AllDigits(d) && DigitPrefix(Unsigned(s)) == d
    ensures ParseSigned(s) == Some(-(DigitsValue(d) as int))
  {
  }

  /** `parseInt` reads back the decimal form of `n`, and stops at the first character
      that is not a digit: `parseInt("3001abc")` is 3001. */
  lemma ParseIntOfDecimal(n: nat, t: string)
    requires t == [] || !IsDigit(t[0])
    ensures ParseInt(NatToString(n) + t) == Some(n)
  {
    ParseIntOfDigits(NatToString(n), t);
    DigitsValueOfNatToString(n);
  }

  /** The same after a minus sign: `parseInt("-" + n)` is `-n`. */
  lemma ParseIntOfNegativeDecimal(n: nat, t: string)
    requires t == [] || !IsDigit(t[0])
    ensures ParseInt("-" + NatToString(n) + t) == Some(-(n as int))
  {
    DropSign(NatToString(n), t);
    ParseIntOfNegativeDigits("-" + NatToString(n) + t, NatToString(n), t);
    DigitsValueOfNatToString(n);
  }

  /** A string whose first non-blank character is neither a sign nor a digit parses to
      `NaN`, as does a blank string. */
  lemma ParseIntNaN(w: string, t: string)
    requires Text.AllWhiteSpace(w)
    requires t == [] || (!Text.IsWhiteSpace(t[0]) && !IsDigit(t[0]) && t[0] != '-' && t[0] != '+')
    ensures ParseInt(w + t) == None
  {
    ParseIntSkipsWhiteSpace(w, t);
  }
}
