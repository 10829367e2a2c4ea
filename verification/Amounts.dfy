/**
 The amount grammar of the fundraising contract: canonical decimal text with two
 places and at most sixteen whole digits.
 */
module Amounts {
  import opened Tables
  import opened Decimal

  const WHOLE_DIGITS := 16

  /** The pattern `(0|[1-9][0-9]{0,15})\.[0-9]{2}`. */
  predicate MatchesPattern(text: string)
  {
    && |text| > 3
    && IsCanonical(text[..|text| - 3]) && |text| - 3 <= WHOLE_DIGITS
    && text[|text| - 3] == '.' && IsDigit(text[|text| - 2]) && IsDigit(text[|text| - 1])
  }

  /** What a monetary event may carry. */
  predicate IsAmount(text: string)
  {
    MatchesPattern(text) && text != "0.00"
  }

  /** The value in kopecks, as Decimal(18,2) stores it. */
  function Kopecks(text: string): nat
    requires MatchesPattern(text)
  {
    100 * Value(text[..|text| - 3]) + (10 * DigitValue(text[|text| - 2]) + DigitValue(text[|text| - 1]))
  }

  function Print(kopecks: nat): string
  {
    Numeral(kopecks / 100) + "." + [DigitOf(kopecks % 100 / 10), DigitOf(kopecks % 10)]
  }

  /** The worth is a hundred times the number before the point and the two-digit number behind it. */
  lemma KopecksAreHundredths(text: string)
    requires MatchesPattern(text)
    ensures var whole, cents := text[..|text| - 3], text[|text| - 2..];
            |cents| == 2 && Kopecks(text) == 100 * Value(whole) + Value(cents)
  {
    var cents := text[|text| - 2..];
    assert cents[..1][..0] == "" && Value("") == 0 && cents[..1] == [cents[0]];
    assert Value(cents[..1]) == DigitValue(cents[0]);
  }

  const LIMIT := 1_000_000_000_000_000_000

  lemma LimitIsPower()
    ensures 100 * Pow10(WHOLE_DIGITS) == LIMIT
  {
    assert Pow10(4) == 10_000;
    PowersMultiply(4, 4);
    PowersMultiply(8, 8);
  }

  lemma {:induction false} PowersMultiply(a: nat, b: nat)
    ensures Pow10(a + b) == Pow10(a) * Pow10(b)
  {
    if a > 0 {
      PowersMultiply(a - 1, b);
      assert Pow10(a + b) == 10 * Pow10(a - 1 + b);
      assert Pow10(a) == 10 * Pow10(a - 1);
      assert 10 * (Pow10(a - 1) * Pow10(b)) == 10 * Pow10(a - 1) * Pow10(b);
    }
  }

  lemma SplitCents(whole: nat, tens: nat, ones: nat)
    requires tens < 10 && ones < 10
    ensures var k := 100 * whole + (10 * tens + ones);
            k / 100 == whole && k % 100 / 10 == tens && k % 10 == ones
  {
    var k := 100 * whole + (10 * tens + ones);
    assert k == 100 * whole + (10 * tens + ones) && 0 <= 10 * tens + ones < 100;
    assert k / 100 == whole && k % 100 == 10 * tens + ones;
    assert k == 10 * (10 * whole + tens) + ones;
  }

  lemma OnlyZeroIsZero(text: string)
    requires MatchesPattern(text)
    ensures Kopecks(text) == 0 <==> text == "0.00"
  {
    var n := |text|;
    assert text == text[..n - 3] + "." + [text[n - 2], text[n - 1]];
    assert "0"[..0] == "" && Value("0"[..0]) == 0 && Value("0") == 0;
    if Kopecks(text) == 0 {
      CanonicalIsNumeral(text[..n - 3]);
      assert text[..n - 3] == Numeral(0) == [DigitOf(0)];
      assert DigitOf(0) == '0' && text[n - 2] == '0' && text[n - 1] == '0';
    }
    assert text == "0.00" ==> text[..n - 3] == "0";
  }

  /** An accepted amount is worth 1 to 10^18 - 1 kopecks and is the only text that prints so. */
  lemma AmountPrintsBack(text: string)
    requires IsAmount(text)
    ensures 1 <= Kopecks(text) < 1_000_000_000_000_000_000 && Print(Kopecks(text)) == text
  {
    var n := |text|;
    var whole, tens, ones := text[..n - 3], text[n - 2], text[n - 1];
    assert text == whole + "." + [tens, ones];
    var w := Value(whole);
    SplitCents(w, DigitValue(tens), DigitValue(ones));
    CanonicalIsNumeral(whole);
    NumeralLength(w, WHOLE_DIGITS);
    LimitIsPower();
    OnlyZeroIsZero(text);
  }

  /** Every worth in that range has an accepted text. */
  lemma AmountParsesBack(kopecks: nat)
    requires 1 <= kopecks < 1_000_000_000_000_000_000
    ensures IsAmount(Print(kopecks)) && Kopecks(Print(kopecks)) == kopecks
  {
    var text := Print(kopecks);
    var whole := Numeral(kopecks / 100);
    assert text[..|text| - 3] == whole;
    NumeralHasValue(kopecks / 100);
    NumeralIsCanonical(kopecks / 100);
    LimitIsPower();
    NumeralLength(kopecks / 100, WHOLE_DIGITS);
    assert kopecks == 100 * (kopecks / 100) + (10 * (kopecks % 100 / 10) + kopecks % 10);
    OnlyZeroIsZero(text);
  }
}
