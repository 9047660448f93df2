/** Numbers in decimal notation. */
module Decimals {
  import opened Basics

  const ZERO: byte := 48
  const MINUS: byte := 45

  predicate IsDigit(b: byte) {
    ZERO <= b < ZERO + 10
  }

  predicate AllDigits(t: Text) {
    forall b | b in t :: IsDigit(b)
  }

  function Decimal(t: Text): nat {
    if t == [] then 0
    else 10 * Decimal(t[..|t| - 1]) + if IsDigit(t[|t| - 1]) then t[|t| - 1] - ZERO else 0
  }

  function Digits(n: nat): Text {
    if n < 10 then [ZERO + n] else Digits(n / 10) + [ZERO + n % 10]
  }

  lemma {:induction false} DigitsInverse(n: nat)
    ensures Digits(n) != [] && AllDigits(Digits(n)) && Decimal(Digits(n)) == n
  {
    if n < 10 {
      assert Digits(n)[..0] == [];
    } else {
      DigitsInverse(n / 10);
      assert Digits(n)[..|Digits(n)| - 1] == Digits(n / 10);
    }
  }

  function SignedText(i: int): Text {
    if i < 0 then [MINUS] + Digits(-i) else Digits(i)
  }

  lemma SignedTextInjective(i: int, j: int)
    requires SignedText(i) == SignedText(j)
    ensures i == j
  {
    var a, b: nat := if i < 0 then -i else i, if j < 0 then -j else j;
    DigitsInverse(a);
    DigitsInverse(b);
    assert Digits(a)[0] in Digits(a) && Digits(b)[0] in Digits(b);
    if i < 0 && j < 0 {
      assert SignedText(i)[1..] == Digits(a) && SignedText(j)[1..] == Digits(b);
    }
  }
}
