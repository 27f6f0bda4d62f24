/** Rounding to nearest-even by dropping bits, and the value of a binary floating-point pattern. */
module Rounding {
  import opened Arith
  import opened Bits

  // ---------- dropping n low bits ----------

  /** The branch-free form: add just under one half, plus the lowest kept bit, and shift. */
  function RoundDrop(a: nat, n: nat): nat
    requires n >= 1
  {
    ShlPositive(1, n - 1);
    Shr(a + (Shl(1, n - 1) - 1) + Shr(a, n) % 2, n)
  }

  /** The branching form: shift and look at the dropped bits. */
  function RoundByRemainder(a: nat, n: nat): nat
    requires n >= 1
  {
    Carried(Shr(a, n), Low(a, n), Shl(1, n - 1))
  }

  function Carried(kept: nat, rem: nat, half: nat): nat {
    if rem > half || (rem == half && kept % 2 == 1) then kept + 1 else kept
  }

  /** Both forms round half to even, for every number of dropped bits. */
  lemma RoundFormsAgree(a: nat, n: nat)
    requires n >= 1
    ensures RoundDrop(a, n) == RoundByRemainder(a, n)
  {
    var half := Shl(1, n - 1);
    var kept, rem := Shr(a, n), Low(a, n);
    Split(a, n);
    ShlPositive(1, n - 1);
    var lowest := kept % 2;
    var sum := a + (half - 1) + lowest;
    if rem > half || (rem == half && lowest == 1) {
      ShlAdd(kept, 1, n);
      SplitUnique(sum, n, kept + 1, rem + lowest - half - 1);
    } else {
      SplitUnique(sum, n, kept, rem + half - 1 + lowest);
    }
  }

  // ---------- values ----------

  /** How far the significand of the pattern a is shifted: the exponent field less one, from zero up. */
  function Scale(p: nat, a: nat): nat {
    var e := Shr(a, p);
    if e == 0 then 0 else e - 1
  }

  /**
   * Magnitude of the sign-free pattern a in a format with p fraction bits, counted in units of the
   * format's smallest subnormal: the exponent field is a >> p, and it is not bounded here.
   */
  function Mag(p: nat, a: nat): nat {
    if Shr(a, p) == 0 then Low(a, p) else Shl(Shl(1, p) + Low(a, p), Scale(p, a))
  }

  /** The pattern after a is one step of a's scale away. */
  lemma MagStep(p: nat, a: nat)
    ensures Mag(p, a + 1) == Mag(p, a) + Shl(1, Scale(p, a))
  {
    var e, m, one := Shr(a, p), Low(a, p), Shl(1, p);
    Split(a, p);
    if m + 1 < one {
      SplitUnique(a + 1, p, e, m + 1);
      ShlAdd(one + m, 1, Scale(p, a));
    } else {
      ShlAdd(e, 1, p);
      ShlPositive(1, p);
      SplitUnique(a + 1, p, e + 1, 0);
      if e > 0 {
        ShlAdd(one + m, 1, e - 1);
        ShlAdd(one, one, e - 1);
      }
    }
  }

  /** A larger pattern is a larger value. */
  lemma {:induction false} MagIncreases(p: nat, a: nat, b: nat)
    requires a < b
    ensures Mag(p, a) < Mag(p, b)
    decreases b - a
  {
    MagStep(p, b - 1);
    ShlPositive(1, Scale(p, b - 1));
    if a < b - 1 {
      MagIncreases(p, a, b - 1);
    }
  }

  /** The fields of a fine pattern are those of the coarse one, with the extra bits appended. */
  lemma FieldsOfFine(p: nat, n: nat, a: nat)
    ensures Shr(a, p + n) == Shr(Shr(a, n), p)
    ensures Low(a, p + n) == Shl(Low(Shr(a, n), p), n) + Low(a, n)
  {
    var k := Shr(a, n);
    var e, m := Shr(k, p), Low(k, p);
    Split(a, n);
    Split(k, p);
    ShlAdd(Shl(e, p), m, n);
    ShlShl(e, p, n);
    ShlGap(m, Shl(1, p), n);
    ShlShl(1, p, n);
    SplitUnique(a, p + n, e, Shl(m, n) + Low(a, n));
  }

  /** Between two neighbours of the coarse format, the fine format is evenly spaced. */
  lemma MagSplit(p: nat, n: nat, a: nat)
    ensures Mag(p + n, a) == Shl(Mag(p, Shr(a, n)), n) + Shl(Low(a, n), Scale(p, Shr(a, n)))
  {
    var k := Shr(a, n);
    FieldsOfFine(p, n, a);
    if Shr(k, p) > 0 {
      ShlShl(1, p, n);
      SignificandOfFine(Shl(1, p), Low(k, p), n, Low(a, n), Scale(p, k));
    }
  }

  lemma SignificandOfFine(one: nat, m: nat, n: nat, j: nat, s: nat)
    ensures Shl(Shl(one, n) + (Shl(m, n) + j), s) == Shl(Shl(one + m, s), n) + Shl(j, s)
  {
    ShlAdd(one, m, n);
    ShlAdd(Shl(one + m, n), j, s);
    ShlSwap(one + m, n, s);
  }

  /** A coarse pattern, extended by zero bits, keeps its value. */
  lemma MagExtended(p: nat, n: nat, k: nat)
    ensures Mag(p + n, Shl(k, n)) == Shl(Mag(p, k), n)
  {
    ShlPositive(1, n);
    SplitUnique(Shl(k, n), n, k, 0);
    MagSplit(p, n, Shl(k, n));
    ShlZero(Scale(p, k));
  }

  lemma MagZero(p: nat)
    ensures Mag(p, 0) == 0
  {
    ShlZero(p);
    ShlPositive(1, p);
    SplitUnique(0, p, 0, 0);
  }

  // ---------- nearest-even ----------

  /**
   * r is the pattern of the format with p fraction bits, each unit worth 2^n, that is closest to v;
   * of two closest ones it is the even one. This is roundTiesToEven (section 4.3.1 of IEEE 754-2019)
   * before overflow.
   */
  ghost predicate NearestEven(p: nat, n: nat, v: nat, r: nat) {
    forall q: nat :: NoCloser(p, n, v, r, q)
  }

  ghost predicate NoCloser(p: nat, n: nat, v: nat, r: nat, q: nat) {
    var mine, other := IntAbs(Shl(Mag(p, r), n) - v), IntAbs(Shl(Mag(p, q), n) - v);
    mine <= other && (mine == other && q != r ==> r % 2 == 0)
  }

  /** The closer end of the gap around v is closest overall. */
  lemma NearestFromGap(p: nat, n: nat, v: nat, k: nat, r: nat)
    requires Shl(Mag(p, k), n) <= v <= Shl(Mag(p, k + 1), n)
    requires r == k || r == k + 1
    requires r == k ==> 2 * v <= Shl(Mag(p, k), n) + Shl(Mag(p, k + 1), n)
    requires r == k + 1 ==> 2 * v >= Shl(Mag(p, k), n) + Shl(Mag(p, k + 1), n)
    requires 2 * v == Shl(Mag(p, k), n) + Shl(Mag(p, k + 1), n) ==> r % 2 == 0
    ensures NearestEven(p, n, v, r)
  {
    forall q: nat ensures NoCloser(p, n, v, r, q) {
      if q < k {
        MagIncreases(p, q, k);
        ShlGap(Mag(p, q), Mag(p, k), n);
      } else if q > k + 1 {
        MagIncreases(p, k + 1, q);
        ShlGap(Mag(p, k + 1), Mag(p, q), n);
      }
    }
  }

  /** v lies j steps of size 2^s above the pattern k; the next pattern is 2 * half steps above it. */
  lemma NearestFromFraction(p: nat, n: nat, v: nat, k: nat, j: nat, half: nat, s: nat)
    requires j < 2 * half
    requires v == Shl(Mag(p, k), n) + Shl(j, s)
    requires Shl(Mag(p, k + 1), n) == Shl(Mag(p, k), n) + 2 * Shl(half, s)
    ensures NearestEven(p, n, v, Carried(k, j, half))
  {
    hide Shl, Mag, NearestEven;
    ShlAdd(half, half, s);
    ShlGap(j, 2 * half, s);
    if j < half {
      ShlGap(j, half, s);
    } else if half < j {
      ShlGap(half, j, s);
    }
    NearestFromGap(p, n, v, k, Carried(k, j, half));
  }

  lemma GapOfStep(p: nat, n: nat, k: nat)
    requires n >= 1
    ensures Shl(Mag(p, k + 1), n) == Shl(Mag(p, k), n) + 2 * Shl(Shl(1, n - 1), Scale(p, k))
  {
    var s := Scale(p, k);
    MagStep(p, k);
    ShlAdd(Mag(p, k), Shl(1, s), n);
    ShlSwap(1, s, n - 1);
  }

  /** Dropping n fraction bits half to even is rounding the value to nearest-even. */
  lemma RoundDropNearest(p: nat, n: nat, a: nat)
    requires n >= 1
    ensures NearestEven(p, n, Mag(p + n, a), RoundDrop(a, n))
  {
    RoundFormsAgree(a, n);
    Split(a, n);
    MagSplit(p, n, a);
    GapOfStep(p, n, Shr(a, n));
    NearestFromFraction(p, n, Mag(p + n, a), Shr(a, n), Low(a, n), Shl(1, n - 1), Scale(p, Shr(a, n)));
  }

  /** Below half of the smallest magnitude, zero is nearest. */
  lemma NearestZero(p: nat, n: nat, v: nat)
    requires 2 * v < Shl(1, n)
    ensures NearestEven(p, n, v, 0)
  {
    MagZero(p);
    ShlZero(n);
    MagIncreases(p, 0, 1);
    ShlGap(0, Mag(p, 1), n);
    NearestFromGap(p, n, v, 0, 0);
  }

  /** A value of the format itself is never moved. */
  lemma NearestOfExact(p: nat, n: nat, k: nat, r: nat)
    requires NearestEven(p, n, Shl(Mag(p, k), n), r)
    ensures r == k
  {
    assert NoCloser(p, n, Shl(Mag(p, k), n), r, k);
    if r < k {
      MagIncreases(p, r, k);
      ShlGap(Mag(p, r), Mag(p, k), n);
    } else if k < r {
      MagIncreases(p, k, r);
      ShlGap(Mag(p, k), Mag(p, r), n);
    }
  }
}
