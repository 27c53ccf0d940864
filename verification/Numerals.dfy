/** Decimal numerals, as used inside component names and generated call ids. */
module Numerals {

  function Digit(d: nat): char
    requires d < 10
  {
    "0123456789"[d]
  }

  function DigitValue(c: char): nat {
    if '0' <= c <= '9' then c as nat - '0' as nat else 0
  }

  function Decimal(n: nat): (s: string)
    ensures s != [] && forall i :: 0 <= i < |s| ==> s[i] != ':'
  {
    if n < 10 then [Digit(n)] else Decimal(n / 10) + [Digit(n % 10)]
  }

  function Value(s: string): nat {
    if s == [] then 0 else 10 * Value(s[..|s| - 1]) + DigitValue(s[|s| - 1])
  }

  lemma {:induction false} ValueOfDecimal(n: nat)
    ensures Value(Decimal(n)) == n
  {
    assert forall d: nat :: d < 10 ==> DigitValue(Digit(d)) == d;
    if n >= 10 {
      ValueOfDecimal(n / 10);
      assert Decimal(n)[..|Decimal(n)| - 1] == Decimal(n / 10);
    } else {
      assert Decimal(n)[..0] == [];
    }
  }
}
