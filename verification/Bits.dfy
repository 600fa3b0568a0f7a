/**
 Bits of natural numbers: exclusive and inclusive or, and doubling as a shift to the left.
 */
module Bits {

  function Xor(a: nat, b: nat): nat {
    if a == 0 && b == 0 then 0 else (if a % 2 == b % 2 then 0 else 1) + 2 * Xor(a / 2, b / 2)
  }

  function Or(a: nat, b: nat): nat {
    if a == 0 && b == 0 then 0 else (if a % 2 == 0 && b % 2 == 0 then 0 else 1) + 2 * Or(a / 2, b / 2)
  }

  function Doubled(x: nat, k: nat): nat {
    if k == 0 then x else 2 * Doubled(x, k - 1)
  }

  lemma {:induction false} WithZero(b: nat)
    ensures Xor(0, b) == b && Or(0, b) == b
  {
    if b > 0 {
      WithZero(b / 2);
    }
  }

  // Exclusive and inclusive or of numbers without a common bit are their sum.
  lemma {:induction false} DisjointBits(a: nat, c: nat, k: nat)
    requires a < Doubled(1, k)
    ensures Xor(a, Doubled(c, k)) == Or(a, Doubled(c, k)) == a + Doubled(c, k)
  {
    if k == 0 {
      WithZero(c);
    } else {
      DisjointBits(a / 2, c, k - 1);
      OneBit(a, Doubled(c, k - 1));
    }
  }

  lemma OneBit(a: nat, h: nat)
    ensures Xor(a, 2 * h) == a % 2 + 2 * Xor(a / 2, h)
    ensures Or(a, 2 * h) == a % 2 + 2 * Or(a / 2, h)
  {
    assert 2 * h % 2 == 0 && 2 * h / 2 == h;
  }

  lemma {:induction false} XorCancels(a: nat, b: nat, c: nat)
    requires Xor(a, b) == Xor(a, c)
    ensures b == c
  {
    if a == 0 {
      WithZero(b);
      WithZero(c);
    } else {
      XorCancels(a / 2, b / 2, c / 2);
    }
  }
}
