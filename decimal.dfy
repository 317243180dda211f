/** Decimal digit strings: the printer used for array indices as property keys, and
    JavaScript's parseInt with radix 10. */
module Decimal {

  predicate IsDigit(c: char) { '0' <= c <= '9' }

  predicate AllDigits(s: string) { forall i :: 0 <= i < |s| ==> IsDigit(s[i]) }

  function DigitChar(d: nat): (c: char)
    requires d < 10
    ensures IsDigit(c)
  {
    ('0' as int + d) as char
  }

  function DigitValue(c: char): (d: nat)
    requires IsDigit(c)
    ensures d < 10
  {
    c as int - '0' as int
  }

  /** The number a digit string denotes, read left to right. */
  function ValueOf(s: string): nat
    requires AllDigits(s)
    decreases |s|
  {
    if s == [] then 0 else 10 * ValueOf(s[..|s| - 1]) + DigitValue(s[|s| - 1])
  }

  /** The decimal spelling of `n` without leading zeros (String(n) for a natural number). */
  function FromNat(n: nat): (s: string)
    ensures |s| >= 1 && AllDigits(s)
    ensures ValueOf(s) == n
    decreases n
  {
    if n < 10 then [DigitChar(n)]
    else
      var init := FromNat(n / 10);
      var s := init + [DigitChar(n % 10)];
      assert s[..|s| - 1] == init;
      s
  }

  lemma {:induction false} FromNatInjective(m: nat, n: nat)
    requires FromNat(m) == FromNat(n)
    ensures m == n
  {
  }

  /** The characters parseInt skips before the number: the WhiteSpace and LineTerminator
      code points of ECMAScript (StrWhiteSpaceChar). */
  predicate IsStrWhiteSpace(c: char) {
    var x := c as int;
    x == 0x09 || x == 0x0A || x == 0x0B || x == 0x0C || x == 0x0D || x == 0x20 ||
    x == 0xA0 || x == 0x1680 || (0x2000 <= x <= 0x200A) || x == 0x2028 ||
    x == 0x2029 || x == 0x202F || x == 0x205F || x == 0x3000 || x == 0xFEFF
  }

  predicate AllWhiteSpace(s: string) { forall i :: 0 <= i < |s| ==> IsStrWhiteSpace(s[i]) }

  lemma WhiteSpaceCons(c: char, x: string)
    requires IsStrWhiteSpace(c) && AllWhiteSpace(x)
    ensures AllWhiteSpace([c] + x)
  {
  }

  /** `s` without its leading white space. */
  function TrimStart(s: string): (r: string)
    ensures |r| <= |s| && r == s[|s| - |r|..]
    ensures AllWhiteSpace(s[..|s| - |r|])
    ensures r == [] || !IsStrWhiteSpace(r[0])
    decreases |s|
  {
    if s != [] && IsStrWhiteSpace(s[0]) then
      var r := TrimStart(s[1..]);
      assert s[1..][|s| - 1 - |r|..] == s[|s| - |r|..];
      assert s[..|s| - |r|] == [s[0]] + s[1..][..|s| - 1 - |r|];
      WhiteSpaceCons(s[0], s[1..][..|s| - 1 - |r|]);
      r
    else s
  }

  /** Length of the longest all-digit prefix of `s`. */
  function DigitRun(s: string): (n: nat)
    ensures n <= |s| && AllDigits(s[..n])
    ensures n < |s| ==> !IsDigit(s[n])
    decreases |s|
  {
    if s != [] && IsDigit(s[0]) then
      var k := DigitRun(s[1..]);
      assert s[..k + 1] == [s[0]] + s[1..][..k];
      k + 1
    else 0
  }

  /** A parseInt result: NaN, or an integer. */
  datatype ParsedInt = NaN | Number(value: int)

  /** parseInt(s, 10): optional leading white space, an optional sign, then the longest
      digit prefix; anything after it is ignored, and no digit at all gives NaN. */
  function ParseInt(s: string): ParsedInt {
    ParseSigned(TrimStart(s))
  }

  /** parseInt after the leading white space is gone: an optional sign, then digits. */
  function ParseSigned(t: string): ParsedInt {
    if t != [] && t[0] == '-' then Negate(ParseDigits(t[1..]))
    else if t != [] && t[0] == '+' then ParseDigits(t[1..])
    else ParseDigits(t)
  }

  /** The value of the longest digit prefix, NaN when there is none. */
  function ParseDigits(u: string): ParsedInt {
    var n := DigitRun(u);
    if n == 0 then NaN else Number(ValueOf(u[..n]))
  }

  function Negate(p: ParsedInt): ParsedInt {
    match p
    case NaN => NaN
    case Number(v) => Number(-v)
  }

  lemma {:induction false} TrimWhiteSpacePrefix(ws: string, x: string)
    requires AllWhiteSpace(ws)
    requires x == [] || !IsStrWhiteSpace(x[0])
    ensures TrimStart(ws + x) == x
    decreases |ws|
  {
    if ws != [] {
      assert (ws + x)[1..] == ws[1..] + x;
      TrimWhiteSpacePrefix(ws[1..], x);
    }
  }

  lemma {:induction false} DigitRunOfDigits(d: string, rest: string)
    requires AllDigits(d)
    requires rest == [] || !IsDigit(rest[0])
    ensures DigitRun(d + rest) == |d|
    decreases |d|
  {
    if d != [] {
      assert (d + rest)[1..] == d[1..] + rest;
      DigitRunOfDigits(d[1..], rest);
    }
  }

  lemma {:induction false} DigitIsNotSpaceOrSign(c: char)
    requires IsDigit(c)
    ensures !IsStrWhiteSpace(c) && c != '-' && c != '+'
  {
  }

  lemma {:induction false} ParseDigitsPrefix(d: string, rest: string)
    requires |d| >= 1 && AllDigits(d)
    requires rest == [] || !IsDigit(rest[0])
    ensures ParseDigits(d + rest) == Number(ValueOf(d))
  {
    DigitRunOfDigits(d, rest);
    assert (d + rest)[..|d|] == d;
  }

  lemma {:induction false} ParseSignedDigits(d: string, rest: string)
    requires |d| >= 1 && AllDigits(d)
    requires rest == [] || !IsDigit(rest[0])
    ensures ParseSigned(d + rest) == Number(ValueOf(d))
  {
    ParseDigitsPrefix(d, rest);
    DigitIsNotSpaceOrSign(d[0]);
    assert (d + rest)[0] == d[0];
  }

  lemma {:induction false} ParseSignedWithSign(sign: char, d: string, rest: string)
    requires sign == '+' || sign == '-'
    requires |d| >= 1 && AllDigits(d)
    requires rest == [] || !IsDigit(rest[0])
    ensures ParseSigned([sign] + d + rest) == Number(if sign == '-' then -(ValueOf(d) as int) else ValueOf(d))
  {
    var t := [sign] + d + rest;
    assert t[0] == sign && t[1..] == d + rest;
    ParseDigitsPrefix(d, rest);
  }

  lemma {:induction false} ParseIntAfterWhiteSpace(ws: string, t: string)
    requires AllWhiteSpace(ws)
    requires t != [] && !IsStrWhiteSpace(t[0])
    ensures ParseInt(ws + t) == ParseSigned(t)
  {
    TrimWhiteSpacePrefix(ws, t);
  }

  lemma {:induction false} Associative(a: string, b: string, c: string, e: string)
    ensures a + b + c + e == a + (b + c + e)
  {
    assert a + b + c + e == a + (b + (c + e));
    assert b + c + e == b + (c + e);
  }

  lemma {:induction false} ParseIntUnsigned(ws: string, n: nat, rest: string)
    requires AllWhiteSpace(ws)
    requires rest == [] || !IsDigit(rest[0])
    ensures ParseInt(ws + FromNat(n) + rest) == Number(n)
  {
    var d := FromNat(n);
    var t := d + rest;
    assert ws + d + rest == ws + t;
    ParseSignedDigits(d, rest);
    assert ParseSigned(t) == Number(n);
    DigitIsNotSpaceOrSign(d[0]);
    assert t[0] == d[0];
    ParseIntAfterWhiteSpace(ws, t);
  }

  lemma {:induction false} ParseIntSigned(ws: string, sign: char, n: nat, rest: string)
    requires AllWhiteSpace(ws)
    requires sign == '+' || sign == '-'
    requires rest == [] || !IsDigit(rest[0])
    ensures ParseInt(ws + [sign] + FromNat(n) + rest) == Number(if sign == '-' then -(n as int) else n)
  {
    var d := FromNat(n);
    var t := [sign] + d + rest;
    ParseSignedWithSign(sign, d, rest);
    ParseIntAfterWhiteSpace(ws, t);
    Associative(ws, [sign], d, rest);
  }

  /** parseInt reads back what FromNat prints, after any leading white space and with an
      optional sign, whatever non-digit text follows. */
  lemma {:induction false} ParseIntOfDecimal(ws: string, n: nat, rest: string)
    requires AllWhiteSpace(ws)
    requires rest == [] || !IsDigit(rest[0])
    ensures ParseInt(ws + FromNat(n) + rest) == Number(n)
    ensures ParseInt(ws + "+" + FromNat(n) + rest) == Number(n)
    ensures ParseInt(ws + "-" + FromNat(n) + rest) == Number(-(n as int))
  {
    ParseIntUnsigned(ws, n, rest);
    ParseIntSigned(ws, '+', n, rest);
    ParseIntSigned(ws, '-', n, rest);
  }

  /** Text with no digit after the white space and the optional sign parses to NaN. */
  lemma {:induction false} ParseIntNoDigits(ws: string, sign: string, rest: string)
    requires AllWhiteSpace(ws)
    requires sign == "" || sign == "+" || sign == "-"
    requires rest == [] || (!IsDigit(rest[0]) && (sign == "" ==> !IsStrWhiteSpace(rest[0]) && rest[0] != '-' && rest[0] != '+'))
    ensures ParseInt(ws + sign + rest) == NaN
  {
    if sign == "" {
      assert ws + sign + rest == ws + rest;
      TrimWhiteSpacePrefix(ws, rest);
    } else {
      var t := sign + rest;
      assert ws + sign + rest == ws + t;
      assert t[0] == sign[0] && t[1..] == rest;
      ParseIntAfterWhiteSpace(ws, t);
    }
  }
}
