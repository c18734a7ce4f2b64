/**
  Bitwise OR on Python's unbounded non-negative integers, described through
  the bits it produces. Flag enumerations combine their members with it.
 */
module Bits {

  /** Bit `k` of `n` (bit 0 is the least significant). */
  predicate Bit(n: nat, k: nat)
    decreases k
  {
    if k == 0 then n % 2 == 1 else Bit(n / 2, k - 1)
  }

  /** `a | b`. */
  function Or(a: nat, b: nat): nat
    decreases a + b
  {
    if a == 0 then b
    else if b == 0 then a
    else 2 * Or(a / 2, b / 2) + (if a % 2 == 1 || b % 2 == 1 then 1 else 0)
  }

  lemma {:induction false} OrBit(a: nat, b: nat, k: nat)
    ensures Bit(Or(a, b), k) <==> Bit(a, k) || Bit(b, k)
    decreases a + b
  {
    if a == 0 {
      ZeroHasNoBits(k);
    } else if b == 0 {
      ZeroHasNoBits(k);
    } else if k > 0 {
      var o := Or(a / 2, b / 2);
      var c := if a % 2 == 1 || b % 2 == 1 then 1 else 0;
      assert (2 * o + c) / 2 == o;
      OrBit(a / 2, b / 2, k - 1);
    }
  }

  lemma {:induction false} ZeroHasNoBits(k: nat)
    ensures !Bit(0, k)
  {
    if k > 0 {
      ZeroHasNoBits(k - 1);
    }
  }

  /** `OrBit` for every bit at once. */
  lemma OrBits(a: nat, b: nat)
    ensures forall k: nat :: Bit(Or(a, b), k) <==> Bit(a, k) || Bit(b, k)
  {
    forall k: nat ensures Bit(Or(a, b), k) <==> Bit(a, k) || Bit(b, k) {
      OrBit(a, b, k);
    }
  }

  /** `ZeroHasNoBits` for every bit at once. */
  lemma ZeroHasNone()
    ensures forall k: nat :: !Bit(0, k)
  {
    forall k: nat ensures !Bit(0, k) {
      ZeroHasNoBits(k);
    }
  }

  /** Two numbers with the same bits are the same number. */
  lemma {:induction false} BitsDetermine(a: nat, b: nat)
    requires forall k: nat :: Bit(a, k) <==> Bit(b, k)
    ensures a == b
    decreases a + b
  {
    if a != 0 || b != 0 {
      assert Bit(a, 0) <==> Bit(b, 0);
      forall k: nat ensures Bit(a / 2, k) <==> Bit(b / 2, k) {
        assert Bit(a, k + 1) <==> Bit(b, k + 1);
      }
      BitsDetermine(a / 2, b / 2);
    }
  }

  lemma OrCommutative(a: nat, b: nat)
    ensures Or(a, b) == Or(b, a)
  {
    forall k: nat ensures Bit(Or(a, b), k) <==> Bit(Or(b, a), k) {
      OrBit(a, b, k);
      OrBit(b, a, k);
    }
    BitsDetermine(Or(a, b), Or(b, a));
  }

  lemma OrIdempotent(a: nat)
    ensures Or(a, a) == a
  {
    forall k: nat ensures Bit(Or(a, a), k) <==> Bit(a, k) {
      OrBit(a, a, k);
    }
    BitsDetermine(Or(a, a), a);
  }

  lemma OrAssociative(a: nat, b: nat, c: nat)
    ensures Or(Or(a, b), c) == Or(a, Or(b, c))
  {
    forall k: nat ensures Bit(Or(Or(a, b), c), k) <==> Bit(Or(a, Or(b, c)), k) {
      OrBit(Or(a, b), c, k);
      OrBit(a, b, k);
      OrBit(a, Or(b, c), k);
      OrBit(b, c, k);
    }
    BitsDetermine(Or(Or(a, b), c), Or(a, Or(b, c)));
  }

  /** The flag values of the documentation example: MOUSE (1) | TOUCH (8) == 9. */
  lemma OrExample()
    ensures Or(1, 8) == 9
  {
  }
}
