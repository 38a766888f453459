/** Decimal spelling of natural numbers, without leading zeros. */
module Decimals {
  import opened Seqs

  predicate IsDigitChar(c: char) {
    '0' <= c <= '9'
  }

  function Digit(d: nat): (c: char)
    requires d < 10
    ensures IsDigitChar(c)
  {
    ('0' as int + d) as char
  }

  function DigitValue(c: char): (d: nat)
    requires IsDigitChar(c)
    ensures d < 10 && Digit(d) == c
  {
    c as int - '0' as int
  }

  predicate AllDigitChars(s: string) {
    forall i :: 0 <= i < |s| ==> IsDigitChar(s[i])
  }

  function Decimal(n: nat): (s: string)
    ensures s != "" && AllDigitChars(s) && (s[0] == '0' ==> s == "0")
  {
    if n < 10 then [Digit(n)] else Decimal(n / 10) + [Digit(n % 10)]
  }

  /** The number a string of digits spells; leading zeros are allowed. */
  function DecimalValue(s: string): nat
    requires AllDigitChars(s)
  {
    if s == "" then 0 else 10 * DecimalValue(s[..|s| - 1]) + DigitValue(s[|s| - 1])
  }

  lemma DecimalRoundTrip(n: nat)
    ensures DecimalValue(Decimal(n)) == n
  {
    if n >= 10 {
      DecimalRoundTrip(n / 10);
      Snoc(Decimal(n / 10), Digit(n % 10));
    } else {
      assert [Digit(n)][..0] == "";
    }
  }

  lemma DecimalInjective(m: nat, n: nat)
    requires Decimal(m) == Decimal(n)
    ensures m == n
  {
    DecimalRoundTrip(m);
    DecimalRoundTrip(n);
  }

  /** A spelling without leading zeros is the one its value has. */
  lemma {:induction false} DecimalCanonical(s: string)
    requires s != "" && AllDigitChars(s) && (s[0] == '0' ==> s == "0")
    ensures Decimal(DecimalValue(s)) == s
    decreases |s|
  {
    var init, d := s[..|s| - 1], DigitValue(s[|s| - 1]);
    assert s == init + [Digit(d)];
    assert DecimalValue(s) == 10 * DecimalValue(init) + d;
    hide Decimal, DecimalValue;
    if init == "" {
      OneDigit(s, d);
    } else {
      DecimalCanonical(init);
      DecimalZero();
      DecimalStep(DecimalValue(init), d);
    }
  }

  lemma OneDigit(s: string, d: nat)
    requires d < 10 && s == [Digit(d)]
    ensures DecimalValue(s) == d && Decimal(d) == s
  {
    assert s[..0] == "";
  }

  lemma DecimalZero()
    ensures Decimal(0) == "0"
  {
  }

  lemma DecimalStep(v: nat, d: nat)
    requires v > 0 && d < 10
    ensures Decimal(10 * v + d) == Decimal(v) + [Digit(d)]
  {
    assert (10 * v + d) / 10 == v && (10 * v + d) % 10 == d;
  }
}
