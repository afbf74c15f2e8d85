/** Python's bitwise operators on non-negative (unbounded) integers.
    Bit(n, k) is bit k of n; the three operators are defined digit by digit
    on the binary expansion, and the lemmas characterise them bit by bit. */
module Bits {

  /** 2 to the power k. */
  function Pow2(k: nat): (r: nat)
    ensures r >= 1
  {
    if k == 0 then 1 else 2 * Pow2(k - 1)
  }

  /** Bit k of n (bit 0 is the least significant). */
  predicate Bit(n: nat, k: nat)
  {
    if k == 0 then n % 2 == 1 else Bit(n / 2, k - 1)
  }

  /** Python's `a & b`. */
  function BitAnd(a: nat, b: nat): nat
  {
    if a == 0 || b == 0 then 0
    else 2 * BitAnd(a / 2, b / 2) + (if a % 2 == 1 && b % 2 == 1 then 1 else 0)
  }

  /** Python's `a | b`. */
  function BitOr(a: nat, b: nat): nat
    decreases a + b
  {
    if a == 0 then b
    else if b == 0 then a
    else 2 * BitOr(a / 2, b / 2) + (if a % 2 == 1 || b % 2 == 1 then 1 else 0)
  }

  /** Python's `a & ~b`: the bits of a that are not bits of b. */
  function BitAndNot(a: nat, b: nat): nat
  {
    if a == 0 then 0
    else 2 * BitAndNot(a / 2, b / 2) + (if a % 2 == 1 && b % 2 == 0 then 1 else 0)
  }

  lemma {:induction false} BitOfZero(k: nat)
    ensures !Bit(0, k)
  {
    if k > 0 { BitOfZero(k - 1); }
  }

  /** Two numbers with the same bits are equal. */
  lemma {:induction false} BitsDetermine(a: nat, b: nat)
    requires forall k: nat :: Bit(a, k) == Bit(b, k)
    ensures a == b
    decreases a + b
  {
    if a != 0 || b != 0 {
      assert Bit(a, 0) == Bit(b, 0);
      forall k: nat ensures Bit(a / 2, k) == Bit(b / 2, k) {
        assert Bit(a, k + 1) == Bit(b, k + 1);
      }
      BitsDetermine(a / 2, b / 2);
    }
  }

  lemma {:induction false} BitOfAnd(a: nat, b: nat, k: nat)
    ensures Bit(BitAnd(a, b), k) == (Bit(a, k) && Bit(b, k))
  {
    if a == 0 {
      BitOfZero(k);
    } else if b == 0 {
      BitOfZero(k);
    } else if k > 0 {
      BitOfAnd(a / 2, b / 2, k - 1);
    }
  }

  lemma {:induction false} BitOfOr(a: nat, b: nat, k: nat)
    ensures Bit(BitOr(a, b), k) == (Bit(a, k) || Bit(b, k))
    decreases a + b
  {
    if a == 0 {
      BitOfZero(k);
    } else if b == 0 {
      BitOfZero(k);
    } else if k > 0 {
      BitOfOr(a / 2, b / 2, k - 1);
    }
  }

  lemma {:induction false} BitOfAndNot(a: nat, b: nat, k: nat)
    ensures Bit(BitAndNot(a, b), k) == (Bit(a, k) && !Bit(b, k))
  {
    if a == 0 {
      BitOfZero(k);
    } else if k > 0 {
      BitOfAndNot(a / 2, b / 2, k - 1);
    }
  }

  /** Pow2(k) is the number whose only bit is k. */
  lemma {:induction false} BitOfPow2(k: nat, j: nat)
    ensures Bit(Pow2(k), j) == (j == k)
  {
    if k == 0 {
      if j > 0 { BitOfZero(j - 1); }
    } else if j > 0 {
      BitOfPow2(k - 1, j - 1);
    }
  }

  /** `a & b` never exceeds a, so `a - (a & b)` stays non-negative. */
  lemma {:induction false} BitAndAtMost(a: nat, b: nat)
    ensures BitAnd(a, b) <= a
  {
    if a != 0 && b != 0 {
      BitAndAtMost(a / 2, b / 2);
    }
  }

  /** Adding Pow2(k) to a number whose bit k is clear sets exactly bit k. */
  lemma {:induction false} BitOfAddPow2(n: nat, k: nat, j: nat)
    requires !Bit(n, k)
    ensures Bit(n + Pow2(k), j) == (j == k || Bit(n, j))
  {
    if k == 0 {
      assert (n + 1) / 2 == n / 2;
    } else {
      assert (n + Pow2(k)) / 2 == n / 2 + Pow2(k - 1);
      if j > 0 { BitOfAddPow2(n / 2, k - 1, j - 1); }
    }
  }

  /** Subtracting Pow2(k) from a number whose bit k is set clears exactly bit k. */
  lemma {:induction false} BitOfSubPow2(n: nat, k: nat, j: nat)
    requires Bit(n, k)
    ensures n >= Pow2(k)
    ensures Bit(n - Pow2(k), j) == (j != k && Bit(n, j))
  {
    if k == 0 {
      assert (n - 1) / 2 == n / 2;
    } else {
      BitOfSubPow2(n / 2, k - 1, 0);
      assert (n - Pow2(k)) / 2 == n / 2 - Pow2(k - 1);
      if j > 0 { BitOfSubPow2(n / 2, k - 1, j - 1); }
    }
  }
}
