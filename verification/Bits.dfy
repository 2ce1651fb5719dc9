/** Bit masks over unbounded integers: what `1 << c`, `|=` and a population count mean. */
module Bits {

  function Pow2(n: nat): nat {
    if n == 0 then 1 else 2 * Pow2(n - 1)
  }

  predicate Bit(m: nat, i: nat) {
    if i == 0 then m % 2 == 1 else Bit(m / 2, i - 1)
  }

  /** Python's `a | b` for non-negative integers. */
  function Or(a: nat, b: nat): nat
    decreases a + b
  {
    if a == 0 && b == 0 then 0
    else (if a % 2 == 1 || b % 2 == 1 then 1 else 0) + 2 * Or(a / 2, b / 2)
  }

  function Popcount(m: nat): nat {
    if m == 0 then 0 else m % 2 + Popcount(m / 2)
  }

  lemma {:induction false} ZeroBits(i: nat)
    ensures !Bit(0, i)
  {
    if i > 0 { ZeroBits(i - 1); }
  }

  lemma {:induction false} OrBits(a: nat, b: nat, i: nat)
    ensures Bit(Or(a, b), i) <==> Bit(a, i) || Bit(b, i)
    decreases i
  {
    if a == 0 && b == 0 {
      ZeroBits(i);
    } else {
      assert Or(a, b) / 2 == Or(a / 2, b / 2);
      if i > 0 { OrBits(a / 2, b / 2, i - 1); }
    }
  }

  lemma {:induction false} Pow2Bits(c: nat, i: nat)
    ensures Bit(Pow2(c), i) <==> i == c
  {
    if c == 0 {
      if i > 0 { ZeroBits(i - 1); }
    } else if i > 0 {
      Pow2Bits(c - 1, i - 1);
    }
  }

  /** A number is its bits. */
  lemma {:induction false} SameBitsSameNumber(a: nat, b: nat)
    requires forall i: nat :: Bit(a, i) <==> Bit(b, i)
    ensures a == b
    decreases a + b
  {
    if a != 0 || b != 0 {
      assert Bit(a, 0) <==> Bit(b, 0);
      forall i: nat ensures Bit(a / 2, i) <==> Bit(b / 2, i) {
        assert Bit(a, i + 1) <==> Bit(b, i + 1);
      }
      SameBitsSameNumber(a / 2, b / 2);
    }
  }

  lemma PopcountStep(b: nat, x: nat)
    requires b <= 1
    ensures Popcount(b + 2 * x) == b + Popcount(x)
  {
    assert (b + 2 * x) / 2 == x && (b + 2 * x) % 2 == b;
  }

  lemma OrEven(m: nat, x: nat)
    ensures Or(m, 2 * x) == m % 2 + 2 * Or(m / 2, x)
  {
    assert (2 * x) / 2 == x && (2 * x) % 2 == 0;
  }

  lemma OrOne(m: nat)
    ensures Or(m, 1) == 1 + 2 * (m / 2)
  {
    OrZero(m / 2);
  }

  /** Setting a bit that is clear adds one to the population count; setting one that is set does nothing. */
  lemma {:induction false} SetBit(m: nat, c: nat)
    ensures Bit(m, c) ==> Or(m, Pow2(c)) == m
    ensures !Bit(m, c) ==> Popcount(Or(m, Pow2(c))) == Popcount(m) + 1
    decreases c
  {
    PopcountStep(m % 2, m / 2);
    if c == 0 {
      OrOne(m);
      PopcountStep(1, m / 2);
    } else {
      OrEven(m, Pow2(c - 1));
      SetBit(m / 2, c - 1);
      PopcountStep(m % 2, Or(m / 2, Pow2(c - 1)));
    }
  }

  lemma {:induction false} OrZero(m: nat)
    ensures Or(m, 0) == m
  {
    if m > 0 { OrZero(m / 2); }
  }
}
