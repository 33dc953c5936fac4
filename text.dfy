/** Decimal rendering of integers, as JavaScript's `Number.prototype.toString()`
    and template literals print them, with `padStart(2, '0')`, and a reader that
    recovers the number, so that the countdown strings can be decoded again. */
module Text {

  predicate IsDigit(c: char) {
    '0' <= c <= '9'
  }

  predicate AllDigits(s: string) {
    forall i :: 0 <= i < |s| ==> IsDigit(s[i])
  }

  function DigitChar(d: nat): (c: char)
    requires d < 10
    ensures IsDigit(c) && (c as int) - ('0' as int) == d
  {
    ('0' as int + d) as char
  }

  function DigitValue(c: char): (d: nat)
    requires IsDigit(c)
    ensures d < 10 && DigitChar(d) == c
  {
    (c as int) - ('0' as int)
  }

  /** A numeral as `toString` prints one: digits only, with no leading zero
      unless the numeral is "0" itself. */
  predicate Canonical(s: string) {
    |s| >= 1 && AllDigits(s) && (s[0] == '0' ==> |s| == 1)
  }

  /** The shortest decimal numeral of `n`: no sign, no leading zero. */
  function Decimal(n: nat): (s: string)
    ensures |s| >= 1 && AllDigits(s) && Canonical(s)
    ensures s[0] == '0' ==> n == 0
    ensures n < 10 <==> |s| == 1
  {
    if n < 10 then [DigitChar(n)] else Decimal(n / 10) + [DigitChar(n % 10)]
  }

  /** The number a non-empty string of digits denotes. */
  function DigitsValue(s: string): (n: nat)
    requires AllDigits(s)
    decreases |s|
  {
    if s == [] then 0
    else DigitsValue(s[..|s| - 1]) * 10 + DigitValue(s[|s| - 1])
  }

  lemma {:induction false} DecimalRoundTrip(n: nat)
    ensures DigitsValue(Decimal(n)) == n
  {
    if n >= 10 {
      var s := Decimal(n);
      assert s[..|s| - 1] == Decimal(n / 10);
      DecimalRoundTrip(n / 10);
    }
  }

  /** A canonical numeral is the one `Decimal` prints for its value, so
      values name numerals uniquely. */
  lemma {:induction false} CanonicalIsDecimal(s: string)
    requires Canonical(s)
    ensures s == Decimal(DigitsValue(s))
    decreases |s|
  {
    if |s| >= 2 {
      var front := s[..|s| - 1];
      assert Canonical(front);
      CanonicalIsDecimal(front);
      var n := DigitsValue(s);
      var d := DigitValue(s[|s| - 1]);
      assert DigitsValue(front) >= 1;
      assert n / 10 == DigitsValue(front) && n % 10 == d;
      assert s == front + [DigitChar(d)];
    } else {
      assert s == [DigitChar(DigitValue(s[0]))];
    }
  }

  /** A digit string read off the front of a text, when canonical, is the
      printed number followed by the rest of the text. */
  lemma CanonicalPrefix(s: string, d: string, rest: string)
    requires d + rest == s && Canonical(d)
    ensures s == Decimal(DigitsValue(d)) + rest
  {
    CanonicalIsDecimal(d);
  }

  /** `n.toString().padStart(2, '0')`. */
  function Pad2(n: nat): (s: string)
    ensures AllDigits(s)
    ensures n < 100 ==> |s| == 2 && DigitsValue(s) == n
  {
    DecimalRoundTrip(n);
    if n < 10 then
      assert ("0" + Decimal(n))[..1] == "0";
      "0" + Decimal(n)
    else
      Decimal(n)
  }

  /** A number printed by a template literal: a minus sign before a negative one. */
  function IntString(i: int): (s: string)
    ensures i >= 0 ==> s == Decimal(i)
    ensures i < 0 ==> s == "-" + Decimal(-i)
  {
    if i < 0 then "-" + Decimal(-i) else Decimal(i)
  }

  /** Splits `s` into its longest prefix of digits and the rest. */
  function LeadingDigits(s: string): (r: (string, string))
    ensures r.0 + r.1 == s && AllDigits(r.0)
    ensures r.1 == [] || !IsDigit(r.1[0])
    decreases |s|
  {
    if s == [] || !IsDigit(s[0]) then ([], s)
    else
      var (d, rest) := LeadingDigits(s[1..]);
      ([s[0]] + d, rest)
  }

  /** The longest digit prefix is unique: whatever follows a digit string that
      does not itself start with a digit is the rest. */
  lemma {:induction false} LeadingDigitsOf(d: string, rest: string)
    requires AllDigits(d)
    requires rest == [] || !IsDigit(rest[0])
    ensures LeadingDigits(d + rest) == (d, rest)
    decreases |d|
  {
    if d != [] {
      assert (d + rest)[1..] == d[1..] + rest;
      LeadingDigitsOf(d[1..], rest);
      assert [d[0]] + d[1..] == d;
    } else {
      assert d + rest == rest;
    }
  }
}
