/**
 Decimal numerals of natural numbers, printed without leading zeros.
 */
module Decimal {
  import opened Tables

  predicate IsDigit(c: char)
  {
    '0' <= c <= '9'
  }

  function DigitValue(c: char): (d: nat)
    requires IsDigit(c)
    ensures d < 10
  {
    c as int - '0' as int
  }

  function DigitOf(d: nat): (c: char)
    requires d < 10
    ensures IsDigit(c) && DigitValue(c) == d
  {
    (d + '0' as int) as char
  }

  predicate IsNumeral(s: string)
  {
    s != "" && forall c | c in s :: IsDigit(c)
  }

  /** No leading zero, except in zero itself. */
  predicate IsCanonical(s: string)
  {
    IsNumeral(s) && (|s| > 1 ==> s[0] != '0')
  }

  function Value(s: string): nat
    requires forall c | c in s :: IsDigit(c)
  {
    if s == "" then 0 else 10 * Value(s[..|s| - 1]) + DigitValue(s[|s| - 1])
  }

  /** Digits count as in "0123456789", and each ten times as much as the next. */
  lemma {:induction false} DigitsHaveWeight(s: string, c: char)
    requires IsDigit(c) && forall d | d in s :: IsDigit(d)
    ensures c == "0123456789"[DigitValue(c)] == DigitOf(DigitValue(c))
    ensures Value([c] + s) == DigitValue(c) * Pow10(|s|) + Value(s)
    decreases |s|
  {
    var all := [c] + s;
    if s == "" {
      assert all[..0] == "" && Value(all[..0]) == 0;
    } else {
      assert all[..|all| - 1] == [c] + s[..|s| - 1];
      DigitsHaveWeight(s[..|s| - 1], c);
      TenTimes(DigitValue(c), Pow10(|s| - 1));
    }
  }

  lemma TenTimes(d: nat, p: nat)
    ensures d * (10 * p) == 10 * (d * p)
  {
  }

  function Numeral(n: nat): (s: string)
    ensures IsNumeral(s)
  {
    if n < 10 then [DigitOf(n)] else Numeral(n / 10) + [DigitOf(n % 10)]
  }

  function Pow10(n: nat): (p: nat)
    ensures p >= 1
  {
    if n == 0 then 1 else 10 * Pow10(n - 1)
  }

  lemma {:induction false} NumeralHasValue(n: nat)
    ensures Value(Numeral(n)) == n
  {
    var s := Numeral(n);
    if n < 10 {
      assert s[..0] == "" && Value(s[..0]) == 0;
    } else {
      NumeralHasValue(n / 10);
      assert s[..|s| - 1] == Numeral(n / 10);
    }
  }

  lemma {:induction false} NumeralIsCanonical(n: nat)
    ensures IsCanonical(Numeral(n)) && (n > 0 ==> Numeral(n)[0] != '0')
  {
    if n >= 10 {
      NumeralIsCanonical(n / 10);
      assert Numeral(n)[0] == Numeral(n / 10)[0];
    } else if n > 0 {
      assert DigitValue(Numeral(n)[0]) == n;
    }
  }

  lemma DivideByTen(q: nat, r: nat)
    requires r < 10
    ensures (10 * q + r) / 10 == q && (10 * q + r) % 10 == r
  {
  }

  lemma {:induction false} CanonicalIsNumeral(s: string)
    requires IsCanonical(s)
    ensures Numeral(Value(s)) == s
    decreases |s|
  {
    var front, last := s[..|s| - 1], s[|s| - 1];
    assert s == front + [last];
    if front == "" {
      assert Value(front) == 0;
      assert DigitOf(DigitValue(last)) == last;
    } else {
      assert forall c | c in front :: c in s;
      assert front[0] == s[0];
      CanonicalIsNumeral(front);
      ValueIsPositive(front);
      assert Value(s) == 10 * Value(front) + DigitValue(last);
      DivideByTen(Value(front), DigitValue(last));
    }
  }

  lemma {:induction false} ValueIsPositive(s: string)
    requires IsNumeral(s) && s[0] != '0'
    ensures Value(s) > 0
    decreases |s|
  {
    var front := s[..|s| - 1];
    if front != "" {
      assert forall c | c in front :: c in s;
      assert front[0] == s[0];
      ValueIsPositive(front);
    } else {
      assert DigitValue(s[0]) > 0;
    }
  }

  /** A number below 10^k has at most k digits, and only such a number. */
  lemma {:induction false} NumeralLength(n: nat, k: nat)
    requires k >= 1
    ensures |Numeral(n)| <= k <==> n < Pow10(k)
    decreases k
  {
    assert Pow10(k) == 10 * Pow10(k - 1);
    if n < 10 {
      assert Pow10(k - 1) >= 1;
    } else if k == 1 {
      assert Pow10(1) == 10 * Pow10(0);
      assert |Numeral(n)| == |Numeral(n / 10)| + 1;
    } else {
      NumeralLength(n / 10, k - 1);
    }
  }
}
