/** Decimal texts of natural numbers, shared by the JSON printer and the 256-bit words. */
module Decimals {

  predicate IsDigit(c: char) {
    '0' <= c <= '9'
  }

  function Digit(d: nat): char
    requires d < 10
  {
    '0' + d as char
  }

  function DigitValue(c: char): (d: nat)
    requires IsDigit(c)
    ensures d < 10
  {
    c as nat - '0' as nat
  }

  function Digits(n: nat): (s: string)
    ensures s != []
  {
    if n < 10 then [Digit(n)] else Digits(n / 10) + [Digit(n % 10)]
  }

  predicate AllDigits(s: string) {
    forall c | c in s :: IsDigit(c)
  }

  function DigitsValue(s: string): nat
    requires AllDigits(s)
  {
    if s == [] then 0
    else
      var n := |s| - 1;
      assert s[n] in s && IsDigit(s[n]);
      10 * DigitsValue(s[..n]) + DigitValue(s[n])
  }

  /** Digits without a leading zero; zero itself is "0". */
  predicate Canonical(s: string) {
    s != [] && AllDigits(s) && (|s| > 1 ==> s[0] != '0')
  }

  lemma {:induction false} DigitsAre(n: nat)
    ensures AllDigits(Digits(n)) && DigitsValue(Digits(n)) == n
    ensures Digits(n)[0] == '0' <==> n == 0
  {
    if n >= 10 {
      DigitsAre(n / 10);
      var s := Digits(n);
      assert s[..|s| - 1] == Digits(n / 10);
      assert s[0] == Digits(n / 10)[0];
    } else {
      assert Digits(n)[..0] == [];
    }
  }

  lemma {:induction false} DigitsCanonical(n: nat)
    ensures Canonical(Digits(n))
  {
    DigitsAre(n);
  }

  lemma {:induction false} PositiveValue(s: string)
    requires Canonical(s) && s[0] != '0'
    ensures DigitsValue(s) > 0
  {
    var n := |s| - 1;
    if n > 0 {
      assert s[..n][0] == s[0];
      PositiveValue(s[..n]);
    } else {
      assert s[..0] == [] && s[0] in s && IsDigit(s[0]);
    }
  }

  lemma DigitsSnoc(v: nat, c: char)
    requires v > 0 && IsDigit(c)
    ensures Digits(10 * v + DigitValue(c)) == Digits(v) + [c]
  {
    var n := 10 * v + DigitValue(c);
    assert n / 10 == v && n % 10 == DigitValue(c);
    assert Digit(DigitValue(c)) == c;
  }

  /** A canonical text is the text of its value. */
  lemma {:induction false} DigitsOfValue(s: string)
    requires Canonical(s)
    ensures Digits(DigitsValue(s)) == s
  {
    var n := |s| - 1;
    assert s[n] in s && IsDigit(s[n]);
    assert s == s[..n] + [s[n]];
    if n == 0 {
      assert s[..0] == [];
    } else {
      assert s[..n][0] == s[0];
      DigitsOfValue(s[..n]);
      PositiveValue(s[..n]);
      DigitsSnoc(DigitsValue(s[..n]), s[n]);
    }
  }
}
