/** Decimal notation. */
module Decimal {

  predicate Digit(c: char) {
    '0' <= c <= '9'
  }

  function Digits(n: nat): string {
    if n < 10 then [('0' as int + n) as char] else Digits(n / 10) + [('0' as int + n % 10) as char]
  }

  predicate Numeral(s: string) {
    s != [] && forall c <- s :: Digit(c)
  }

  function Number(s: string): nat
    requires forall c <- s :: Digit(c)
  {
    if s == [] then 0
    else
      assert Digit(s[|s| - 1]) by { assert s[|s| - 1] in s; }
      10 * Number(s[..|s| - 1]) + (s[|s| - 1] as int - '0' as int)
  }

  lemma {:induction false} DigitsAreNumerals(n: nat)
    ensures Numeral(Digits(n))
  {
    if n >= 10 {
      DigitsAreNumerals(n / 10);
    }
  }

  /** Reading what was written. */
  lemma {:induction false} NumberOfDigits(n: nat)
    ensures Numeral(Digits(n)) && Number(Digits(n)) == n
  {
    DigitsAreNumerals(n);
    if n < 10 {
      assert Digits(n)[..0] == [];
    } else {
      NumberOfDigits(n / 10);
      assert Digits(n)[..|Digits(n)| - 1] == Digits(n / 10);
    }
  }

  lemma DigitsAreUnique(a: nat, b: nat)
    requires Digits(a) == Digits(b)
    ensures a == b
  {
    NumberOfDigits(a);
    NumberOfDigits(b);
  }

  /** The most significant digit comes first, without leading zeros. */
  lemma DigitsExamples()
    ensures Digits(0) == "0" && Digits(3) == "3" && Digits(7) == "7" && Digits(12) == "12" && Digits(405) == "405"
  {
    assert Digits(1) == "1" && Digits(4) == "4" && Digits(40) == "40";
  }
}
