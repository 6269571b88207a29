/**
 * The C-library pieces the option engine relies on, pinned down exactly:
 * isdigit and isspace in the C locale, strtol(arg, &end, 10) on an LP64
 * platform, and the conversion of its `long` result to `int`.
 */
module Decimal {

  predicate IsDigit(c: char) { '0' <= c <= '9' }

  /** isspace in the C locale: space, \t, \n, \v, \f, \r. */
  predicate IsSpace(c: char) { c == ' ' || '\t' <= c <= '\r' }

  predicate AllDigits(s: string) { forall k :: 0 <= k < |s| ==> IsDigit(s[k]) }

  /** The length of the longest prefix of s made of decimal digits. */
  function DigitRun(s: string): (n: nat)
    ensures n <= |s|
    ensures forall k :: 0 <= k < n ==> IsDigit(s[k])
    ensures n < |s| ==> !IsDigit(s[n])
  {
    if |s| == 0 || !IsDigit(s[0]) then 0 else 1 + DigitRun(s[1..])
  }

  /** The length of the longest prefix of s made of white space. */
  function SpaceRun(s: string): (n: nat)
    ensures n <= |s|
    ensures forall k :: 0 <= k < n ==> IsSpace(s[k])
    ensures n < |s| ==> !IsSpace(s[n])
  {
    if |s| == 0 || !IsSpace(s[0]) then 0 else 1 + SpaceRun(s[1..])
  }

  function DigitValue(c: char): (d: nat)
    requires IsDigit(c)
    ensures d < 10
  {
    (c as int) - ('0' as int)
  }

  function DigitChar(d: nat): (c: char)
    requires d < 10
    ensures IsDigit(c) && DigitValue(c) == d
  {
    (('0' as int) + d) as char
  }

  /** The number a string of decimal digits denotes, most significant digit first. */
  function DigitsValue(ds: string): nat
    requires AllDigits(ds)
  {
    if |ds| == 0 then 0 else 10 * DigitsValue(ds[..|ds| - 1]) + DigitValue(ds[|ds| - 1])
  }

  const LONG_MIN: int := -0x8000_0000_0000_0000
  const LONG_MAX: int := 0x7FFF_FFFF_FFFF_FFFF
  const INT_MIN: int := -0x8000_0000
  const INT_MAX: int := 0x7FFF_FFFF

  /** Where the digits start: after the leading white space and an optional sign. */
  function SignEnd(s: string): (j: nat)
    ensures SpaceRun(s) <= j <= |s| && j <= SpaceRun(s) + 1
  {
    var i := SpaceRun(s);
    if i < |s| && (s[i] == '+' || s[i] == '-') then i + 1 else i
  }

  /**
   * strtol(s, &end, 10): the parsed value, saturated to the range of `long`,
   * and the offset of `end`. When no digit follows the optional white space
   * and sign, nothing is converted: the value is 0 and `end` is s itself.
   */
  function Strtol(s: string): (r: (int, nat))
    ensures LONG_MIN <= r.0 <= LONG_MAX && r.1 <= |s|
    ensures r.1 == 0 ==> r.0 == 0
    ensures DigitRun(s[SignEnd(s)..]) == 0 ==> r == (0, 0)
    ensures DigitRun(s[SignEnd(s)..]) > 0 ==> r.1 == SignEnd(s) + DigitRun(s[SignEnd(s)..])
  {
    var i := SpaceRun(s);
    var j := SignEnd(s);
    var n := DigitRun(s[j..]);
    if n == 0 then (0, 0)
    else
      var m: int := DigitsValue(s[j..j + n]);
      var v := if j > i && s[i] == '-' then -m else m;
      (if v < LONG_MIN then LONG_MIN else if v > LONG_MAX then LONG_MAX else v, j + n)
  }

  /** The conversion of a `long` to `int` (two's complement wrap-around, as gcc and clang define it). */
  function ToCInt(v: int): (r: int)
    ensures INT_MIN <= r <= INT_MAX
    ensures (r - v) % 0x1_0000_0000 == 0
    ensures INT_MIN <= v <= INT_MAX ==> r == v
  {
    (v - INT_MIN) % 0x1_0000_0000 + INT_MIN
  }

  /** The decimal numeral of n, without leading zeros. */
  function Digits(n: nat): (ds: string)
    ensures |ds| > 0 && AllDigits(ds) && DigitsValue(ds) == n
  {
    if n < 10 then [DigitChar(n)]
    else
      var ds := Digits(n / 10) + [DigitChar(n % 10)];
      assert ds[..|ds| - 1] == Digits(n / 10);
      ds
  }

  /** The decimal numeral of an integer, with a '-' when it is negative. */
  function FormatInt(n: int): string {
    if n < 0 then "-" + Digits(-n) else Digits(n)
  }

  lemma {:induction false} DigitRunOfDigits(ds: string)
    requires AllDigits(ds)
    ensures DigitRun(ds) == |ds|
  {
    if |ds| > 0 {
      DigitRunOfDigits(ds[1..]);
    }
  }

  /** strtol reads back every int that FormatInt writes, and consumes all of it. */
  lemma StrtolFormatInt(n: int)
    requires INT_MIN <= n <= INT_MAX
    ensures Strtol(FormatInt(n)) == (n, |FormatInt(n)|)
    ensures ToCInt(Strtol(FormatInt(n)).0) == n
  {
    var s := FormatInt(n);
    var ds := if n < 0 then Digits(-n) else Digits(n);
    assert SpaceRun(s) == 0;
    var j := if n < 0 then 1 else 0;
    assert SignEnd(s) == j;
    assert s[j..] == ds;
    DigitRunOfDigits(ds);
    assert s[j..j + |ds|] == ds;
  }

  /** The whole string is consumed exactly when it is empty or is white space, a sign and digits. */
  lemma StrtolConsumesAllIff(s: string)
    ensures Strtol(s).1 == |s| <==>
      |s| == 0 || (SignEnd(s) < |s| && forall k :: SignEnd(s) <= k < |s| ==> IsDigit(s[k]))
  {
    var j := SignEnd(s);
    var n := DigitRun(s[j..]);
    if n > 0 && j + n < |s| {
      assert s[j..][n] == s[j + n];
    }
    if j < |s| && (forall k :: j <= k < |s| ==> IsDigit(s[k])) {
      assert AllDigits(s[j..]);
      DigitRunOfDigits(s[j..]);
    }
  }
}
