/**
 * Decimal texts as the points rules read them: a day or an hour as a run of digits,
 * a money amount as `D+.DD` held exactly as a whole number of cents.
 */
module Numbers {
  import opened Wrappers

  predicate IsDigit(c: char) {
    '0' <= c <= '9'
  }

  function DigitValue(c: char): (d: nat)
    requires IsDigit(c)
    ensures d < 10
  {
    c as int - '0' as int
  }

  function DigitChar(d: nat): (c: char)
    requires d < 10
    ensures IsDigit(c) && DigitValue(c) == d
  {
    ('0' as int + d) as char
  }

  /** A non-empty run of decimal digits. */
  predicate IsDigits(s: string) {
    |s| > 0 && forall i :: 0 <= i < |s| ==> IsDigit(s[i])
  }

  /** The base-10 value of a digit string (possibly empty, then 0). */
  function DigitsValue(s: string): nat
    requires forall i :: 0 <= i < |s| ==> IsDigit(s[i])
  {
    if |s| == 0 then 0 else DigitsValue(s[..|s| - 1]) * 10 + DigitValue(s[|s| - 1])
  }

  /** A day of month or an hour: a non-empty digit string, `None` for anything else. */
  function ParseNat(s: string): Option<nat> {
    if IsDigits(s) then Some(DigitsValue(s)) else None
  }

  /** The shortest decimal rendering of `n`. */
  function NatToDigits(n: nat): (s: string)
    ensures IsDigits(s)
  {
    if n < 10 then [DigitChar(n)] else NatToDigits(n / 10) + [DigitChar(n % 10)]
  }

  /** Rendering a number and parsing it back gives the number. */
  lemma {:induction false} ParseNatToDigits(n: nat)
    ensures ParseNat(NatToDigits(n)) == Some(n)
  {
    var s := NatToDigits(n);
    if n < 10 {
      assert s[..0] == [];
      assert DigitsValue(s) == DigitsValue(s[..0]) * 10 + DigitValue(s[0]);
    } else {
      ParseNatToDigits(n / 10);
      assert s[..|s| - 1] == NatToDigits(n / 10);
    }
  }

  /** Leading zeros do not change the value, as with `parseInt(s, 10)`. */
  lemma {:induction false} LeadingZeroIgnored(s: string)
    requires IsDigits(s)
    ensures ParseNat("0" + s) == ParseNat(s)
  {
    LeadingZeroValue(s);
  }

  lemma {:induction false} LeadingZeroValue(s: string)
    requires forall i :: 0 <= i < |s| ==> IsDigit(s[i])
    ensures DigitsValue("0" + s) == DigitsValue(s)
  {
    if |s| > 0 {
      assert ("0" + s)[..|"0" + s| - 1] == "0" + s[..|s| - 1];
      LeadingZeroValue(s[..|s| - 1]);
    } else {
      assert ("0" + s)[..0] == [];
    }
  }

  /** A money text `D+.DD`: at least one whole digit, a point and two cent digits. */
  predicate IsMoney(s: string) {
    && |s| >= 4
    && s[|s| - 3] == '.'
    && IsDigits(s[..|s| - 3])
    && IsDigits(s[|s| - 2..])
  }

  /** The amount of a money text in cents; `None` when the text is not `D+.DD`. */
  function ParseCents(s: string): Option<nat> {
    if IsMoney(s) then Some(DigitsValue(s[..|s| - 3]) * 100 + DigitsValue(s[|s| - 2..]))
    else None
  }

  /** The value of a two-digit string. */
  lemma TwoDigitsValue(a: char, b: char)
    requires IsDigit(a) && IsDigit(b)
    ensures DigitsValue([a, b]) == 10 * DigitValue(a) + DigitValue(b)
  {
    assert [a, b][..1] == [a];
    assert [a][..0] == [];
    assert DigitsValue([a]) == DigitsValue([]) * 10 + DigitValue(a);
    assert DigitsValue([a, b]) == DigitsValue([a]) * 10 + DigitValue(b);
  }

  /** The cents of a parsed amount are the two digits after the point. */
  lemma CentsDigits(s: string)
    requires IsMoney(s)
    ensures ParseCents(s).Some?
    ensures ParseCents(s).value % 100 == 10 * DigitValue(s[|s| - 2]) + DigitValue(s[|s| - 1])
  {
    var cents := s[|s| - 2..];
    assert cents == [s[|s| - 2], s[|s| - 1]];
    TwoDigitsValue(s[|s| - 2], s[|s| - 1]);
  }

  /** The canonical `D+.DD` rendering of an amount in cents. */
  function CentsToText(c: nat): string {
    NatToDigits(c / 100) + ['.', DigitChar(c % 100 / 10), DigitChar(c % 10)]
  }

  /** Rendering an amount and parsing it back gives the amount. */
  lemma ParseCentsToText(c: nat)
    ensures ParseCents(CentsToText(c)) == Some(c)
  {
    var whole := NatToDigits(c / 100);
    var s := CentsToText(c);
    assert s[..|s| - 3] == whole;
    assert s[|s| - 2..] == [DigitChar(c % 100 / 10), DigitChar(c % 10)];
    ParseNatToDigits(c / 100);
    TwoDigitsValue(DigitChar(c % 100 / 10), DigitChar(c % 10));
    assert IsMoney(s);
  }

  /**
   * Points for an item price of `cents`: `Math.ceil(price * 0.2)`, that is the least
   * whole number of 500-cent steps covering the price.
   */
  function PricePoints(cents: nat): (p: nat)
    ensures cents <= 500 * p < cents + 500
  {
    (cents + 499) / 500
  }

  /** `PricePoints` is the ceiling of a fifth of the price in dollars, in exact arithmetic. */
  lemma PricePointsIsCeiling(cents: nat)
    ensures var x := (cents as real / 100.0) * 0.2;
      && x <= PricePoints(cents) as real
      && PricePoints(cents) as real < x + 1.0
  {
    var p := PricePoints(cents);
    assert (500 * p) as real == 500.0 * p as real;
  }

  /** `x` is a whole multiple of 0.25, the test `x % 0.25 === 0` makes in exact arithmetic. */
  ghost predicate IsQuarterMultiple(x: real) {
    (x / 0.25).Floor as real == x / 0.25
  }

  /** A whole number of cents is a multiple of a quarter dollar iff it divides by 25. */
  lemma QuarterMultipleIffCents(cents: nat)
    ensures IsQuarterMultiple(cents as real / 100.0) <==> cents % 25 == 0
  {
    var q := cents as real / 25.0;
    assert (cents as real / 100.0) / 0.25 == q;
    if cents % 25 == 0 {
      DivisibleIsWhole(cents);
    } else {
      FractionIsNotWhole(cents);
    }
  }

  /** Cents divisible by 25 make a whole number of quarters. */
  lemma DivisibleIsWhole(cents: nat)
    requires cents % 25 == 0
    ensures (cents as real / 25.0).Floor as real == cents as real / 25.0
  {
    var k := cents / 25;
    assert cents == 25 * k;
    assert cents as real == 25.0 * k as real;
    assert cents as real / 25.0 == k as real;
    assert (k as real).Floor == k;
  }

  /** Cents not divisible by 25 leave a fraction of a quarter. */
  lemma FractionIsNotWhole(cents: nat)
    requires cents % 25 != 0
    ensures (cents as real / 25.0).Floor as real != cents as real / 25.0
  {
    var f := (cents as real / 25.0).Floor;
    var r := cents % 25;
    assert cents == 25 * (cents / 25) + r;
    assert cents as real / 25.0 == (cents / 25) as real + r as real / 25.0;
    assert 0.0 < r as real / 25.0 < 1.0;
  }
}
