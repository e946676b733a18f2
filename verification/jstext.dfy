/**
 * The few JavaScript and Node.js primitives on text that the server relies on:
 * the `\w` character class, `parseInt` with no radix, `String(n)` for an
 * integer, `Array.prototype.join` and `path.extname`.
 * JavaScript numbers are modelled as unbounded integers.
 */
module JsText {
  import opened Options

  /** `\w` of a regular expression without the `u` flag: `[A-Za-z0-9_]`. */
  predicate IsWordChar(c: char) {
    ('a' <= c <= 'z') || ('A' <= c <= 'Z') || ('0' <= c <= '9') || c == '_'
  }

  predicate IsDigit(c: char) {
    '0' <= c <= '9'
  }

  predicate IsHexDigit(c: char) {
    IsDigit(c) || ('a' <= c <= 'f') || ('A' <= c <= 'F')
  }

  /** StrWhiteSpaceChar of ECMAScript: the WhiteSpace and LineTerminator code points. */
  predicate IsStrWhiteSpace(c: char) {
    c == '\t' || c == '\n' || c == '\U{B}' || c == '\U{C}' || c == '\r' || c == ' '
    || c == '\U{A0}' || c == '\U{1680}' || ('\U{2000}' <= c <= '\U{200A}')
    || c == '\U{2028}' || c == '\U{2029}' || c == '\U{202F}' || c == '\U{205F}'
    || c == '\U{3000}' || c == '\U{FEFF}'
  }

  /** The value of a decimal or hexadecimal digit (0 for any other character). */
  function DigitValue(c: char): (v: nat)
    ensures v < 16
  {
    if IsDigit(c) then c as int - '0' as int
    else if 'a' <= c <= 'f' then c as int - 'a' as int + 10
    else if 'A' <= c <= 'F' then c as int - 'A' as int + 10
    else 0
  }

  function DecimalValue(s: string): nat {
    if s == [] then 0 else DecimalValue(s[..|s| - 1]) * 10 + DigitValue(s[|s| - 1])
  }

  function HexValue(s: string): nat {
    if s == [] then 0 else HexValue(s[..|s| - 1]) * 16 + DigitValue(s[|s| - 1])
  }

  /** The longest prefix of `s` made of decimal digits. */
  function DecimalPrefix(s: string): (r: string)
    ensures r <= s
    ensures forall i :: 0 <= i < |r| ==> IsDigit(r[i])
    ensures |r| < |s| ==> !IsDigit(s[|r|])
  {
    if s != [] && IsDigit(s[0]) then [s[0]] + DecimalPrefix(s[1..]) else []
  }

  /** The longest prefix of `s` made of hexadecimal digits. */
  function HexPrefix(s: string): (r: string)
    ensures r <= s
    ensures forall i :: 0 <= i < |r| ==> IsHexDigit(r[i])
    ensures |r| < |s| ==> !IsHexDigit(s[|r|])
  {
    if s != [] && IsHexDigit(s[0]) then [s[0]] + HexPrefix(s[1..]) else []
  }

  /** `s` without its leading white space. */
  function TrimStart(s: string): (r: string)
    ensures |r| <= |s| && r == s[|s| - |r|..]
    ensures r == [] || !IsStrWhiteSpace(r[0])
    ensures forall i :: 0 <= i < |s| - |r| ==> IsStrWhiteSpace(s[i])
  {
    if s != [] && IsStrWhiteSpace(s[0]) then
      var r := TrimStart(s[1..]);
      assert s[1..][|s| - 1 - |r|..] == s[|s| - |r|..];
      r
    else s
  }

  /**
   * `parseInt(s)` with no radix: leading white space is skipped, one sign is
   * allowed, a `0x`/`0X` prefix selects base 16, and the longest run of digits
   * that follows is read; `None` is `NaN` (no digit at all).
   */
  function ParseInt(s: string): Option<int> {
    var t := TrimStart(s);
    if t != [] && t[0] == '-' then
      match ParseMagnitude(t[1..])
      case None => None
      case Some(m) => Some(-(m as int))
    else if t != [] && t[0] == '+' then ParseMagnitude(t[1..])
    else ParseMagnitude(t)
  }

  /** The unsigned part of `parseInt`: a `0x`/`0X` prefix selects base 16. */
  function ParseMagnitude(u: string): Option<nat> {
    if |u| >= 2 && u[0] == '0' && (u[1] == 'x' || u[1] == 'X') then
      var h := HexPrefix(u[2..]);
      if h == [] then None else Some(HexValue(h))
    else
      var d := DecimalPrefix(u);
      if d == [] then None else Some(DecimalValue(d))
  }

  function DigitChar(d: nat): (c: char)
    requires d < 10
    ensures IsDigit(c) && DigitValue(c) == d
  {
    ('0' as int + d) as char
  }

  /** `String(n)` for a natural number: its decimal numeral, without leading zeros. */
  function NatToString(n: nat): (r: string)
    ensures |r| > 0
    ensures forall i :: 0 <= i < |r| ==> IsDigit(r[i])
    ensures r[0] == '0' ==> n == 0 && r == "0"
  {
    if n < 10 then [DigitChar(n)] else NatToString(n / 10) + [DigitChar(n % 10)]
  }

  /** `String(n)` for an integer. */
  function IntToString(n: int): (r: string)
    ensures |r| > 0 && (r[0] == '-' || IsDigit(r[0]))
  {
    if n < 0 then "-" + NatToString(-n) else NatToString(n)
  }

  lemma {:induction false} DecimalValueOfNatToString(n: nat)
    ensures DecimalValue(NatToString(n)) == n
  {
    if n >= 10 {
      DecimalValueOfNatToString(n / 10);
      var s := NatToString(n);
      assert s[..|s| - 1] == NatToString(n / 10);
    }
  }

  lemma {:induction false} DecimalPrefixOfDigits(digits: string, rest: string)
    requires forall i :: 0 <= i < |digits| ==> IsDigit(digits[i])
    requires rest == [] || !IsDigit(rest[0])
    ensures DecimalPrefix(digits + rest) == digits
  {
    if digits != [] {
      assert (digits + rest)[1..] == digits[1..] + rest;
      DecimalPrefixOfDigits(digits[1..], rest);
    }
  }

  /**
   * `parseInt` reads back the numeral `String(n)` wrote, also when text that
   * cannot continue a numeral follows it (a file extension, say).
   */
  lemma ParseIntOfIntToString(n: int, rest: string)
    requires rest == [] || (!IsDigit(rest[0]) && rest[0] != 'x' && rest[0] != 'X')
    ensures ParseInt(IntToString(n) + rest) == Some(n)
  {
    if n < 0 {
      ParseIntOfNegative(-n, rest);
    } else {
      ParseIntOfNatural(n, rest);
    }
  }

  lemma ParseIntOfNegative(m: nat, rest: string)
    requires m > 0
    requires rest == [] || (!IsDigit(rest[0]) && rest[0] != 'x' && rest[0] != 'X')
    ensures ParseInt("-" + NatToString(m) + rest) == Some(-(m as int))
  {
    var u := NatToString(m) + rest;
    ParseMagnitudeOfNatToString(m, rest);
    var s := "-" + u;
    assert "-" + NatToString(m) + rest == s;
    assert s[0] == '-' && s[1..] == u;
    assert TrimStart(s) == s;
  }

  lemma ParseIntOfNatural(m: nat, rest: string)
    requires rest == [] || (!IsDigit(rest[0]) && rest[0] != 'x' && rest[0] != 'X')
    ensures ParseInt(NatToString(m) + rest) == Some(m)
  {
    var s := NatToString(m) + rest;
    assert IsDigit(s[0]) && TrimStart(s) == s;
    ParseMagnitudeOfNatToString(m, rest);
  }

  lemma ParseMagnitudeOfNatToString(m: nat, rest: string)
    requires rest == [] || (!IsDigit(rest[0]) && rest[0] != 'x' && rest[0] != 'X')
    ensures ParseMagnitude(NatToString(m) + rest) == Some(m)
  {
    var digits := NatToString(m);
    var u := digits + rest;
    if digits[0] == '0' {
      assert |u| >= 2 ==> u[1] == rest[0];
    }
    DecimalPrefixOfDigits(digits, rest);
    DecimalValueOfNatToString(m);
  }

  /** `parts.join(sep)`. */
  function Join(parts: seq<string>, sep: string): string {
    if parts == [] then ""
    else if |parts| == 1 then parts[0]
    else parts[0] + sep + Join(parts[1..], sep)
  }

  /** `p` without the `/` characters that end it. */
  function StripTrailingSlashes(p: string): (r: string)
    ensures r <= p
    ensures r == [] || r[|r| - 1] != '/'
  {
    if p != [] && p[|p| - 1] == '/' then StripTrailingSlashes(p[..|p| - 1]) else p
  }

  /** What follows the last `/` of `q`. */
  function Basename(q: string): (r: string)
    ensures |r| <= |q| && r == q[|q| - |r|..]
    ensures forall i :: 0 <= i < |r| ==> r[i] != '/'
  {
    if q == [] || q[|q| - 1] == '/' then [] else Basename(q[..|q| - 1]) + [q[|q| - 1]]
  }

  /** The index of the last `.` of `b`, or -1 when there is none. */
  function LastDot(b: string): (k: int)
    ensures -1 <= k < |b|
    ensures k >= 0 ==> b[k] == '.'
    ensures forall i :: k < i < |b| ==> b[i] != '.'
  {
    if b == [] then -1
    else if b[|b| - 1] == '.' then |b| - 1
    else LastDot(b[..|b| - 1])
  }

  /**
   * Node's `path.extname` (POSIX): the last component, trailing slashes
   * ignored, from its last `.` on; empty when that component has no `.`,
   * starts with its only leading `.`, or is `..`.
   */
  function ExtName(p: string): (r: string)
    ensures r == [] || r[0] == '.'
    ensures forall i :: 0 < i < |r| ==> r[i] != '.' && r[i] != '/'
    ensures |r| <= |StripTrailingSlashes(p)|
    ensures r == StripTrailingSlashes(p)[|StripTrailingSlashes(p)| - |r|..]
  {
    var b := Basename(StripTrailingSlashes(p));
    var k := LastDot(b);
    if k < 1 || b == ".." then "" else b[k..]
  }
}
