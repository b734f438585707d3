/**
 * Decimal rendering of integers, as done by `StringBuilder.append(int)` and string
 * concatenation in Java, and the matching parser that a reader of the rendered text uses.
 */
module Decimal {

  predicate IsDigit(c: char) {
    '0' <= c <= '9'
  }

  function DigitChar(d: nat): (c: char)
    requires d < 10
    ensures IsDigit(c) && c as int - '0' as int == d
  {
    ('0' as int + d) as char
  }

  function DigitValue(c: char): (d: nat)
    requires IsDigit(c)
    ensures d < 10 && DigitChar(d) == c
  {
    (c as int - '0' as int) as nat
  }

  /** The decimal text of a natural number, without leading zeros. */
  function NatToString(n: nat): (s: string)
    ensures |s| > 0
    ensures forall i :: 0 <= i < |s| ==> IsDigit(s[i])
    ensures s[0] == '0' ==> n == 0
  {
    if n < 10 then [DigitChar(n)] else NatToString(n / 10) + [DigitChar(n % 10)]
  }

  /** Java's `Integer.toString`: a minus sign for negative values. */
  function IntToString(i: int): (s: string)
    ensures |s| > 0
    ensures i < 0 <==> s[0] == '-'
  {
    if i < 0 then "-" + NatToString(-i) else NatToString(i)
  }

  /** The value of a string of digits, read left to right. */
  function DigitsValue(ds: string): nat
    requires forall i :: 0 <= i < |ds| ==> IsDigit(ds[i])
  {
    if |ds| == 0 then 0 else DigitsValue(ds[..|ds| - 1]) * 10 + DigitValue(ds[|ds| - 1])
  }

  /** The length of the longest prefix of `s` made of digits. */
  function DigitSpan(s: string): (k: nat)
    ensures k <= |s|
    ensures forall i :: 0 <= i < k ==> IsDigit(s[i])
    ensures k < |s| ==> !IsDigit(s[k])
  {
    if |s| == 0 || !IsDigit(s[0]) then 0 else 1 + DigitSpan(s[1..])
  }

  /** Reads a natural number at the head of `s`; fails if `s` does not start with a digit. */
  function ParseNat(s: string): (r: (bool, nat, string))
    ensures r.0 ==> |r.2| < |s|
  {
    var k := DigitSpan(s);
    if k == 0 then (false, 0, s) else (true, DigitsValue(s[..k]), s[k..])
  }

  /** Reads an optionally signed integer at the head of `s`. */
  function ParseInt(s: string): (r: (bool, int, string))
  {
    if |s| > 0 && s[0] == '-' then
      var (ok, n, rest) := ParseNat(s[1..]);
      var v: int := -(n as int);
      (ok, v, rest)
    else
      var (ok, n, rest) := ParseNat(s);
      (ok, n, rest)
  }

  lemma {:induction false} DigitsValueOfNatToString(n: nat)
    ensures DigitsValue(NatToString(n)) == n
  {
    var s := NatToString(n);
    if n >= 10 {
      var h := NatToString(n / 10);
      DigitsValueOfNatToString(n / 10);
      assert s == h + [DigitChar(n % 10)];
      assert s[..|s| - 1] == h && s[|s| - 1] == DigitChar(n % 10);
      assert DigitsValue(s) == DigitsValue(h) * 10 + n % 10;
    }
  }

  lemma {:induction false} DigitSpanOfDigitsThen(ds: string, rest: string)
    requires forall i :: 0 <= i < |ds| ==> IsDigit(ds[i])
    requires |rest| > 0 ==> !IsDigit(rest[0])
    ensures DigitSpan(ds + rest) == |ds|
  {
    if |ds| > 0 {
      assert (ds + rest)[1..] == ds[1..] + rest;
      DigitSpanOfDigitsThen(ds[1..], rest);
    } else {
      assert ds + rest == rest;
    }
  }

  /** Rendering a natural number and reading it back recovers it and leaves the rest. */
  lemma NatRoundTrip(n: nat, rest: string)
    requires |rest| > 0 ==> !IsDigit(rest[0])
    ensures ParseNat(NatToString(n) + rest) == (true, n, rest)
  {
    var ds := NatToString(n);
    DigitSpanOfDigitsThen(ds, rest);
    assert (ds + rest)[..|ds|] == ds;
    assert (ds + rest)[|ds|..] == rest;
    DigitsValueOfNatToString(n);
  }

  /** The same for Java's signed rendering. */
  lemma IntRoundTrip(i: int, rest: string)
    requires |rest| > 0 ==> !IsDigit(rest[0])
    ensures ParseInt(IntToString(i) + rest) == (true, i, rest)
  {
    if i < 0 {
      NegRoundTrip(NatToString(-i), -i, rest);
    } else {
      NonNegRoundTrip(NatToString(i), i, rest);
    }
  }

  lemma NegRoundTrip(ds: string, n: nat, rest: string)
    requires ds == NatToString(n)
    requires |rest| > 0 ==> !IsDigit(rest[0])
    ensures ParseInt("-" + ds + rest) == (true, -(n as int), rest)
  {
    var t := "-" + ds + rest;
    assert t[0] == '-' && t[1..] == ds + rest;
    NatRoundTrip(n, rest);
  }

  lemma NonNegRoundTrip(ds: string, n: nat, rest: string)
    requires ds == NatToString(n)
    requires |rest| > 0 ==> !IsDigit(rest[0])
    ensures ParseInt(ds + rest) == (true, n, rest)
  {
    var t := ds + rest;
    assert t[0] == ds[0] && IsDigit(ds[0]);
    NatRoundTrip(n, rest);
  }

  /** Distinct integers render differently. */
  lemma IntToStringInjective(i: int, j: int)
    requires IntToString(i) == IntToString(j)
    ensures i == j
  {
    IntRoundTrip(i, "");
    IntRoundTrip(j, "");
    assert IntToString(i) + "" == IntToString(i);
    assert IntToString(j) + "" == IntToString(j);
  }
}
