/** The pieces of JavaScript's string and number handling that the routes rely
    on when they build and read identifiers: decimal rendering of numbers
    (`String(n)`, `n.toString()`), `padStart`, `parseInt(s, 10)` and
    `parseInt(s)` without a radix, `trim` and a "starts with" test (the `^prefix` regular expressions of the queries).
    Numbers are unbounded integers here; the floating-point representation of
    JavaScript numbers is not modelled. */
module Text {
  import opened Wrappers

  /** A string that is present and not empty: JavaScript's truthiness of a
      string that may be `undefined`, and what Mongoose's `required` accepts
      for a string path. */
  predicate Given(s: Option<string>) {
    s.Some? && s.value != ""
  }

  predicate IsDigit(c: char) {
    '0' <= c <= '9'
  }

  predicate AllDigits(s: string) {
    forall i :: 0 <= i < |s| ==> IsDigit(s[i])
  }

  function DigitValue(c: char): nat
    requires IsDigit(c)
  {
    c as int - '0' as int
  }

  function DigitChar(d: nat): (c: char)
    requires d < 10
    ensures IsDigit(c) && DigitValue(c) == d
  {
    (d + '0' as int) as char
  }

  /** The value of a string of decimal digits, most significant first. */
  function DigitsValue(s: string): nat
    requires AllDigits(s)
  {
    if |s| == 0 then 0 else DigitsValue(s[..|s| - 1]) * 10 + DigitValue(s[|s| - 1])
  }

  /** `n.toString()` for a non-negative integer: its decimal digits without
      leading zeros. Reading the digits back gives `n`. */
  function NatToString(n: nat): (s: string)
    ensures 1 <= |s| && AllDigits(s)
    ensures DigitsValue(s) == n
    ensures s[0] == '0' ==> n == 0
    decreases n
  {
    if n < 10 then [DigitChar(n)]
    else
      var front := NatToString(n / 10);
      var s := front + [DigitChar(n % 10)];
      assert s[..|s| - 1] == front;
      s
  }

  /** `String(i)` for an integer: a minus sign before the digits of a negative one. */
  function IntToString(i: int): (s: string)
    ensures i < 0 <==> (|s| > 0 && s[0] == '-')
    ensures i >= 0 ==> s == NatToString(i)
  {
    if i < 0 then "-" + NatToString(-i) else NatToString(i)
  }

  /** Different numbers render differently. */
  lemma NatToStringInjective(a: nat, b: nat)
    requires NatToString(a) == NatToString(b)
    ensures a == b
  {
  }

  function Repeat(c: char, k: nat): (r: string)
    ensures |r| == k
    ensures forall i :: 0 <= i < k ==> r[i] == c
  {
    seq(k, _ => c)
  }

  /** `s.padStart(width, fill)`: `fill` characters in front of `s` up to
      `width` characters; a string already that long is returned whole, never
      truncated. */
  function PadStart(s: string, width: nat, fill: char): (r: string)
    ensures |r| == if |s| < width then width else |s|
    ensures r[|r| - |s|..] == s
    ensures forall i :: 0 <= i < |r| - |s| ==> r[i] == fill
  {
    if |s| < width then Repeat(fill, width - |s|) + s else s
  }

  lemma {:induction false} ZerosValue(k: nat)
    ensures AllDigits(Repeat('0', k)) && DigitsValue(Repeat('0', k)) == 0
  {
    if k > 0 {
      assert Repeat('0', k)[..k - 1] == Repeat('0', k - 1);
      ZerosValue(k - 1);
    }
  }

  /** Leading zeros do not change the value of a digit string. */
  lemma {:induction false} LeadingZerosIgnored(k: nat, s: string)
    requires AllDigits(s)
    ensures AllDigits(Repeat('0', k) + s)
    ensures DigitsValue(Repeat('0', k) + s) == DigitsValue(s)
    decreases |s|
  {
    var t := Repeat('0', k) + s;
    if |s| == 0 {
      assert t == Repeat('0', k);
      ZerosValue(k);
    } else {
      assert t[..|t| - 1] == Repeat('0', k) + s[..|s| - 1];
      LeadingZerosIgnored(k, s[..|s| - 1]);
    }
  }

  /** `s` begins with `prefix` (the query `{ $regex: "^" + prefix }` for a
      prefix without regular-expression metacharacters). */
  predicate StartsWith(s: string, prefix: string) {
    |prefix| <= |s| && s[..|prefix|] == prefix
  }

  /** The characters JavaScript's `trim` and `parseInt` skip: the WhiteSpace
      and LineTerminator code points of the ECMAScript grammar. */
  predicate IsJsSpace(c: char) {
    || c == '\t' || c == '\n' || c == '\U{000B}' || c == '\U{000C}' || c == '\r'
    || c == ' ' || c == '\U{00A0}' || c == '\U{1680}'
    || ('\U{2000}' <= c <= '\U{200A}')
    || c == '\U{2028}' || c == '\U{2029}' || c == '\U{202F}' || c == '\U{205F}'
    || c == '\U{3000}' || c == '\U{FEFF}'
  }

  /** `s` without its leading white space. */
  function TrimStart(s: string): string {
    if |s| > 0 && IsJsSpace(s[0]) then TrimStart(s[1..]) else s
  }

  /** `s` without its trailing white space. */
  function TrimEnd(s: string): (r: string)
    ensures |r| <= |s| && r == s[..|r|]
    ensures forall i :: |r| <= i < |s| ==> IsJsSpace(s[i])
    ensures |r| == 0 || !IsJsSpace(r[|r| - 1])
  {
    if |s| > 0 && IsJsSpace(s[|s| - 1]) then TrimEnd(s[..|s| - 1]) else s
  }

  /** `s.trim()`. */
  function Trim(s: string): string {
    TrimEnd(TrimStart(s))
  }

  /** A string that neither starts nor ends with white space is its own trim. */
  lemma TrimKeeps(s: string)
    requires |s| == 0 || (!IsJsSpace(s[0]) && !IsJsSpace(s[|s| - 1]))
    ensures Trim(s) == s
  {
    assert TrimStart(s) == s;
  }

  /** The longest prefix of `s` made of decimal digits. */
  function LeadingDigits(s: string): (r: string)
    ensures AllDigits(r)
  {
    if |s| > 0 && IsDigit(s[0]) then [s[0]] + LeadingDigits(s[1..]) else []
  }

  /** A JavaScript number as the routes see it: NaN, or an integer. */
  datatype JsNumber = NaN | Finite(value: int)

  /** `parseInt(s, 10)`: white space is skipped, then an optional sign, then
      the longest run of digits is read; anything after it is ignored, and
      no digit at all gives NaN. */
  function ParseInt(s: string): JsNumber {
    var t := TrimStart(s);
    var signed := |t| > 0 && (t[0] == '-' || t[0] == '+');
    var digits := LeadingDigits(if signed then t[1..] else t);
    if |digits| == 0 then NaN
    else if signed && t[0] == '-' then Finite(-(DigitsValue(digits) as int))
    else Finite(DigitsValue(digits))
  }

  predicate IsHexDigit(c: char) {
    IsDigit(c) || 'a' <= c <= 'f' || 'A' <= c <= 'F'
  }

  function HexDigitValue(c: char): (d: nat)
    requires IsHexDigit(c)
    ensures d < 16
  {
    if IsDigit(c) then DigitValue(c)
    else if 'a' <= c <= 'f' then c as int - 'a' as int + 10
    else c as int - 'A' as int + 10
  }

  /** The value of a string of hexadecimal digits, most significant first. */
  function HexValue(s: string): nat
    requires forall i :: 0 <= i < |s| ==> IsHexDigit(s[i])
  {
    if |s| == 0 then 0 else HexValue(s[..|s| - 1]) * 16 + HexDigitValue(s[|s| - 1])
  }

  /** The longest prefix of `s` made of hexadecimal digits. */
  function LeadingHexDigits(s: string): (r: string)
    ensures |r| <= |s|
    ensures forall i :: 0 <= i < |r| ==> IsHexDigit(r[i])
  {
    if |s| > 0 && IsHexDigit(s[0]) then [s[0]] + LeadingHexDigits(s[1..]) else []
  }

  /** After the leading white space and the optional sign, `s` starts with
      "0x" or "0X". */
  predicate HexPrefixed(s: string) {
    var t := TrimStart(s);
    var u := if |t| > 0 && (t[0] == '-' || t[0] == '+') then t[1..] else t;
    |u| >= 2 && u[0] == '0' && (u[1] == 'x' || u[1] == 'X')
  }

  /** `parseInt(s)` with no radix: as `parseInt(s, 10)`, except that after the
      white space and the sign a "0x" or "0X" switches to hexadecimal, and
      then no hexadecimal digit after it gives NaN. */
  function ParseIntNoRadix(s: string): (r: JsNumber)
    ensures !HexPrefixed(s) ==> r == ParseInt(s)
  {
    if !HexPrefixed(s) then ParseInt(s)
    else
      var t := TrimStart(s);
      var negative := t[0] == '-';
      var u := if t[0] == '-' || t[0] == '+' then t[1..] else t;
      var digits := LeadingHexDigits(u[2..]);
      if |digits| == 0 then NaN
      else if negative then Finite(-(HexValue(digits) as int))
      else Finite(HexValue(digits))
  }

  /** A number written in decimal digits reads the same with or without the
      radix. */
  lemma ParseIntNoRadixOfDigits(s: string)
    requires |s| > 0 && AllDigits(s)
    ensures ParseIntNoRadix(s) == ParseInt(s) == Finite(DigitsValue(s))
  {
    ParseIntOfDigits(s);
    DigitsNotHexPrefixed(s);
  }

  lemma DigitsNotHexPrefixed(s: string)
    requires |s| > 0 && AllDigits(s)
    ensures !HexPrefixed(s)
  {
    assert IsDigit(s[0]);
    assert TrimStart(s) == s;
    if |s| >= 2 {
      assert IsDigit(s[1]);
    }
  }

  /** A hexadecimal number does not: without the radix "0x7E8" is 2024, with
      radix 10 it is 0. */
  lemma HexYear()
    ensures ParseIntNoRadix("0x7E8") == Finite(2024)
    ensures ParseInt("0x7E8") == Finite(0)
  {
    var s := "0x7E8";
    assert TrimStart(s) == s;
    assert s[2..] == "7E8";
    assert LeadingHexDigits("7E8") == "7E8";
    assert "7E8"[..2] == "7E" && "7E"[..1] == "7";
    assert HexValue("7E8") == 2024;
    assert LeadingDigits(s) == "0";
    assert DigitsValue("0") == 0;
  }

  /** `TrimStart` removes exactly the leading white space. */
  lemma {:induction false} TrimStartSpec(s: string)
    ensures |TrimStart(s)| <= |s| && TrimStart(s) == s[|s| - |TrimStart(s)|..]
    ensures forall i :: 0 <= i < |s| - |TrimStart(s)| ==> IsJsSpace(s[i])
    ensures |TrimStart(s)| == 0 || !IsJsSpace(TrimStart(s)[0])
  {
    if |s| > 0 && IsJsSpace(s[0]) {
      TrimStartSpec(s[1..]);
    }
  }

  /** `LeadingDigits` is the longest digit prefix. */
  lemma {:induction false} LeadingDigitsSpec(s: string)
    ensures |LeadingDigits(s)| <= |s| && LeadingDigits(s) == s[..|LeadingDigits(s)|]
    ensures |LeadingDigits(s)| == |s| || !IsDigit(s[|LeadingDigits(s)|])
  {
    if |s| > 0 && IsDigit(s[0]) {
      LeadingDigitsSpec(s[1..]);
    }
  }

  /** A non-empty digit string parses to its value. */
  lemma ParseIntOfDigits(s: string)
    requires |s| > 0 && AllDigits(s)
    ensures ParseInt(s) == Finite(DigitsValue(s))
  {
    assert !IsJsSpace(s[0]);
    assert TrimStart(s) == s;
    assert s[0] != '-' && s[0] != '+';
    LeadingDigitsSpec(s);
    var r := LeadingDigits(s);
    assert |r| == |s|;
    assert r == s;
  }

  /** The zero-padded rendering of `n` parses back to `n`, whatever the width. */
  lemma ParseIntOfPadded(n: nat, width: nat)
    ensures ParseInt(PadStart(NatToString(n), width, '0')) == Finite(n)
  {
    var s := NatToString(n);
    var k := if |s| < width then width - |s| else 0;
    assert PadStart(s, width, '0') == Repeat('0', k) + s;
    LeadingZerosIgnored(k, s);
    ParseIntOfDigits(Repeat('0', k) + s);
  }
}
