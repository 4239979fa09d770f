/** Decimal numerals: how a number is spelled, and what a run of digits is worth. */
module Decimal {

  predicate IsDigit(c: char) {
    '0' <= c <= '9'
  }

  predicate AllDigits(s: string) {
    forall i :: 0 <= i < |s| ==> IsDigit(s[i])
  }

  function Digit(n: nat): (c: char)
    requires n < 10
    ensures IsDigit(c) && DigitValue(c) == n
  {
    '0' + (n as char)
  }

  function DigitValue(c: char): nat {
    if IsDigit(c) then (c - '0') as nat else 0
  }

  function NatText(n: nat): string {
    if n < 10 then [Digit(n)] else NatText(n / 10) + [Digit(n % 10)]
  }

  function IntText(n: int): string {
    if n < 0 then "-" + NatText(-n) else NatText(n)
  }

  function Value(s: string): nat {
    if s == "" then 0 else 10 * Value(s[..|s| - 1]) + DigitValue(s[|s| - 1])
  }

  lemma {:induction false} ValueOfText(n: nat)
    ensures NatText(n) != "" && AllDigits(NatText(n)) && Value(NatText(n)) == n
  {
    if n >= 10 {
      ValueOfText(n / 10);
      var s := NatText(n);
      assert s[..|s| - 1] == NatText(n / 10);
    }
  }

  lemma IntTextInjective(m: int, n: int)
    requires IntText(m) == IntText(n)
    ensures m == n
  {
    ValueOfText(if m < 0 then -m else m);
    ValueOfText(if n < 0 then -n else n);
    assert (m < 0) == (IntText(m)[0] == '-') && (n < 0) == (IntText(n)[0] == '-');
    if m < 0 {
      assert IntText(m)[1..] == NatText(-m) && IntText(n)[1..] == NatText(-n);
    }
  }

  function Pow10(n: nat): nat {
    if n == 0 then 1 else 10 * Pow10(n - 1)
  }

  /** The most significant digit stands first. */
  lemma {:induction false} ValueConcat(a: string, b: string)
    ensures Value(a + b) == Value(a) * Pow10(|b|) + Value(b)
    decreases |b|
  {
    if b == "" {
      assert a + b == a;
    } else {
      var n := |b| - 1;
      ValueConcat(a, b[..n]);
      ValueLast(a + b, a + b[..n]);
      ValueLast(b, b[..n]);
      TimesTen(Value(a), Pow10(n));
    }
  }

  lemma ValueLast(s: string, most: string)
    requires s != "" && most == s[..|s| - 1]
    ensures Value(s) == 10 * Value(most) + DigitValue(s[|s| - 1])
  {
  }

  lemma TimesTen(v: nat, p: nat)
    ensures v * (10 * p) == 10 * (v * p)
  {
  }

  /** Each digit is worth what it looks like. */
  lemma DigitsWorth(n: nat)
    requires n < 10
    ensures "0123456789"[n] == Digit(n) && Value([Digit(n)]) == n
  {
    assert [Digit(n)][..0] == "";
  }

  lemma {:induction false} NoLeadingZero(n: nat)
    ensures NatText(n) != "" && (NatText(n)[0] == '0' <==> n == 0)
  {
    if n >= 10 { NoLeadingZero(n / 10); }
  }
}
