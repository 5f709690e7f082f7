// Decimal text of integers, as Python prints it, and reading it back.
module Decimal {

  function DigitChar(d: nat): (c: char)
    requires d < 10
    ensures '0' <= c <= '9' && c as int - '0' as int == d
  {
    ('0' as int + d) as char
  }

  predicate IsDigit(c: char) {
    '0' <= c <= '9'
  }

  function DigitValue(c: char): (d: nat)
    requires IsDigit(c)
    ensures d < 10
  {
    c as int - '0' as int
  }

  ghost predicate Digits(s: string) {
    s != [] && forall i :: 0 <= i < |s| ==> IsDigit(s[i])
  }

  function NatText(n: nat): (s: string)
    ensures Digits(s)
  {
    if n < 10 then [DigitChar(n)] else NatText(n / 10) + [DigitChar(n % 10)]
  }

  function NatValue(s: string): nat
    requires forall i :: 0 <= i < |s| ==> IsDigit(s[i])
  {
    if s == [] then 0 else NatValue(s[..|s| - 1]) * 10 + DigitValue(s[|s| - 1])
  }

  lemma {:induction false} NatRoundTrip(n: nat)
    ensures NatValue(NatText(n)) == n
  {
    if n >= 10 {
      NatRoundTrip(n / 10);
      var s := NatText(n);
      assert s[..|s| - 1] == NatText(n / 10);
    } else {
      assert NatValue([DigitChar(n)]) == NatValue([]) * 10 + n;
    }
  }

  function IntText(n: int): string {
    if n < 0 then "-" + NatText(-n) else NatText(n)
  }

  // The characters of a printed integer.
  predicate InInteger(c: char) {
    IsDigit(c) || c == '-'
  }

  lemma IntTextChars(n: int)
    ensures IntText(n) != [] && forall i :: 0 <= i < |IntText(n)| ==> InInteger(IntText(n)[i])
    ensures IntText(n)[0] == '-' <==> n < 0
  {
  }

  lemma IntTextInjective(m: int, n: int)
    requires IntText(m) == IntText(n)
    ensures m == n
  {
    IntTextChars(m);
    IntTextChars(n);
    if m < 0 {
      assert IntText(m)[1..] == NatText(-m) && IntText(n)[1..] == NatText(-n);
      NatRoundTrip(-m);
      NatRoundTrip(-n);
    } else {
      NatRoundTrip(m);
      NatRoundTrip(n);
    }
  }

  // A number prints without leading zeros, one digit for each power of ten.
  lemma {:induction false} NatTextShape(n: nat)
    ensures n < 10 ==> NatText(n) == [DigitChar(n)]
    ensures n >= 10 ==> NatText(n) == NatText(n / 10) + [DigitChar(n % 10)] && NatText(n)[0] != '0'
  {
    if n >= 100 {
      NatTextShape(n / 10);
    }
  }
}
