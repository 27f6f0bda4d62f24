/** Shifts and low parts of natural numbers, by doubling and halving only. */
module Bits {

  /** a << n, without a width. */
  function Shl(a: nat, n: nat): nat
    decreases n, a
  {
    if n == 0 then a else 2 * Shl(a, n - 1)
  }

  /** a >> n */
  function Shr(a: nat, n: nat): nat
    decreases n, a
  {
    if n == 0 then a else Shr(a / 2, n - 1)
  }

  /** The low n bits of a. */
  function Low(a: nat, n: nat): nat
    decreases n, a
  {
    if n == 0 then 0 else a % 2 + 2 * Low(a / 2, n - 1)
  }

  lemma {:induction false} ShlAdd(a: nat, b: nat, n: nat)
    ensures Shl(a + b, n) == Shl(a, n) + Shl(b, n)
    decreases n
  {
    if n > 0 {
      ShlAdd(a, b, n - 1);
    }
  }

  lemma {:induction false} ShlShl(a: nat, m: nat, n: nat)
    ensures Shl(Shl(a, m), n) == Shl(a, m + n)
    decreases n
  {
    if n > 0 {
      ShlShl(a, m, n - 1);
    }
  }

  lemma ShlSwap(a: nat, m: nat, n: nat)
    ensures Shl(Shl(a, m), n) == Shl(Shl(a, n), m)
  {
    ShlShl(a, m, n);
    ShlShl(a, n, m);
  }

  lemma {:induction false} ShlPositive(a: nat, n: nat)
    ensures Shl(a, n) >= a
    decreases n
  {
    if n > 0 {
      ShlPositive(a, n - 1);
    }
  }

  lemma {:induction false} ShlZero(n: nat)
    ensures Shl(0, n) == 0
    decreases n
  {
    if n > 0 {
      ShlZero(n - 1);
    }
  }

  /** Shifting keeps the order and widens every gap to at least one unit. */
  lemma ShlGap(a: nat, b: nat, n: nat)
    requires a < b
    ensures Shl(a, n) + Shl(1, n) <= Shl(b, n)
    ensures Shl(a, n) < Shl(b, n)
  {
    ShlAdd(a, 1, n);
    ShlAdd(a + 1, b - a - 1, n);
    ShlPositive(1, n);
  }

  lemma {:induction false} Split(a: nat, n: nat)
    ensures a == Shl(Shr(a, n), n) + Low(a, n)
    ensures Low(a, n) < Shl(1, n)
    decreases n
  {
    if n > 0 {
      Split(a / 2, n - 1);
    }
  }

  /** The two parts are determined by their defining equation. */
  lemma {:induction false} SplitUnique(a: nat, n: nat, high: nat, low: nat)
    requires a == Shl(high, n) + low && low < Shl(1, n)
    ensures Shr(a, n) == high && Low(a, n) == low
    decreases n
  {
    if n > 0 {
      assert a / 2 == Shl(high, n - 1) + low / 2 && a % 2 == low % 2;
      SplitUnique(a / 2, n - 1, high, low / 2);
    }
  }
}
