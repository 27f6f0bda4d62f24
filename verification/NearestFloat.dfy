/** Binary32 values as reals, and rounding a real that is not negative to the nearest of them. */
module NearestFloat {
  import opened Reals
  import Bits
  import Rounding
  import F = FloatStorage

  // ---------- values ----------

  /** 2^-n */
  function NegativePower(n: nat): (u: real)
    ensures u > 0.0
  {
    Bits.ShlPositive(1, n);
    1.0 / (Bits.Shl(1, n) as real)
  }

  const UNIT_EXPONENT := 149

  /** The real value of a finite pattern. */
  function Real32(x: F.Bits32): real {
    Times(F.Value32(x) as real, NegativePower(UNIT_EXPONENT))
  }

  lemma Unsigned(x: F.Bits32)
    requires x <= F.INF32
    ensures F.Value32(x) == Rounding.Mag(F.FRACTION32, x)
  {
    hide Rounding.Mag;
  }

  lemma Real32Increases(x: F.Bits32, y: F.Bits32)
    requires x < y <= F.INF32
    ensures Real32(x) < Real32(y)
  {
    Unsigned(x);
    Unsigned(y);
    Rounding.MagIncreases(F.FRACTION32, x, y);
    Strictly(F.Value32(x), F.Value32(y), NegativePower(UNIT_EXPONENT));
    hide Times, NegativePower, Rounding.Mag, F.Value32;
  }

  lemma Strictly(a: int, b: int, u: real)
    requires a < b && u > 0.0
    ensures Times(a as real, u) < Times(b as real, u)
  {
    TimesAdd(b as real, a as real, u);
    TimesNonNegative(b as real - a as real, u);
    hide Times;
  }

  lemma Real32Ordered(x: F.Bits32, y: F.Bits32)
    requires x <= y <= F.INF32
    ensures Real32(x) <= Real32(y)
  {
    hide Real32;
    if x < y {
      Real32Increases(x, y);
    }
  }

  lemma Real32Zero()
    ensures Real32(0) == 0.0
  {
    Unsigned(0);
    Rounding.MagZero(F.FRACTION32);
    TimesZero(NegativePower(UNIT_EXPONENT));
    hide Times, NegativePower, Rounding.Mag, F.Value32;
  }

  /** Neighbours are one unit apart below the normal numbers, and at most one part in 2^23 of the lower one from there. */
  lemma Gap(x: F.Bits32)
    requires x < F.INF32
    ensures var gap := Real32(x + 1) - Real32(x);
      if x < 0x80_0000 then gap == Real32(1) else 8388608.0 * gap <= Real32(x)
  {
    hide Times, NegativePower, Rounding.Mag, Rounding.Scale, Bits.Shl, F.Value32;
    var u, step := NegativePower(UNIT_EXPONENT), Bits.Shl(1, Rounding.Scale(F.FRACTION32, x));
    Unsigned(x);
    Unsigned(x + 1);
    UnitValue();
    Rounding.MagStep(F.FRACTION32, x);
    StepShare(F.FRACTION32, x);
    TimesAdd(F.Value32(x + 1) as real, F.Value32(x) as real, u);
    if x >= 0x80_0000 {
      ScaledStep(step, F.Value32(x), u);
    }
  }

  lemma UnitValue()
    ensures F.Value32(1) == 1
  {
    hide Rounding.Mag, Bits.Shr, Bits.Shl, F.Value32;
    Unsigned(1);
    SmallestMag(F.FRACTION32);
  }

  lemma SmallestMag(p: nat)
    ensures Rounding.Mag(p, 1) == 1
  {
    hide Rounding.Mag, Bits.Shr, Bits.Shl;
    Rounding.MagZero(p);
    Rounding.MagStep(p, 0);
    Bits.ShlZero(p);
    Bits.ShlPositive(1, p);
    Bits.SplitUnique(0, p, 0, 0);
    One();
  }

  lemma One()
    ensures Bits.Shl(1, 0) == 1
  {
  }

  lemma StepShare(p: nat, x: nat)
    requires p == F.FRACTION32
    ensures var step := Bits.Shl(1, Rounding.Scale(p, x));
      if x < 0x80_0000 then step == 1 else 8388608 * step <= Rounding.Mag(p, x)
  {
    var s := Rounding.Scale(p, x);
    F.ConstantShifts(1);
    F.ConstantShifts(Bits.Shr(x, p));
    Bits.Split(x, p);
    if Bits.Shr(x, p) > 0 {
      Bits.ShlAdd(Bits.Shl(1, p), Bits.Low(x, p), s);
      ShlProduct(8388608, s);
    }
  }

  lemma {:induction false} ShlProduct(a: nat, n: nat)
    ensures Bits.Shl(a, n) == a * Bits.Shl(1, n)
  {
    if n > 0 {
      ShlProduct(a, n - 1);
    }
  }

  lemma ScaledStep(step: nat, value: int, u: real)
    requires u > 0.0 && 8388608 * step <= value
    ensures 8388608.0 * Times(step as real, u) <= Times(value as real, u)
  {
    TimesMono((8388608 * step) as real, value as real, u);
    TimesAssoc(8388608.0, step as real, u);
  }

  /** Significand and shift of a value: a * 2^n in units of 2^-(m + n) is a / 2^m. */
  lemma Fraction(a: nat, n: nat, m: nat)
    ensures Times(Times(Bits.Shl(a, n) as real, NegativePower(m + n)), Bits.Shl(1, m) as real) == a as real
  {
    hide *;
    PowerInverse(m + n);
    Bits.ShlShl(1, m, n);
    RealShl(a, n);
    RealShl(Bits.Shl(1, m), n);
    Regrouped(a as real, Bits.Shl(1, n) as real, Bits.Shl(1, m) as real, NegativePower(m + n));
  }

  lemma Regrouped(a: real, p: real, q: real, u: real)
    requires Times(Times(q, p), u) == 1.0
    ensures Times(Times(Times(a, p), u), q) == a
  {
    TimesZero(a);
    hide Times;
    TimesAssoc(a, p, u);
    TimesAssoc(a, Times(p, u), q);
    TimesAssoc(p, u, q);
    TimesComm(u, q);
    TimesAssoc(p, q, u);
    TimesComm(p, q);
  }

  lemma RealShl(a: nat, n: nat)
    ensures Bits.Shl(a, n) as real == Times(a as real, Bits.Shl(1, n) as real)
  {
    hide Bits.Shl;
    ShlProduct(a, n);
  }

  lemma PowerInverse(n: nat)
    ensures Times(Bits.Shl(1, n) as real, NegativePower(n)) == 1.0
  {
    Bits.ShlPositive(1, n);
    var d := Bits.Shl(1, n) as real;
    assert d * (1.0 / d) == 1.0;
  }

  // ---------- rounding ----------

  ghost predicate NoCloser(x: F.Bits32, s: real, y: F.Bits32) {
    var mine, other := Abs(Real32(x) - s), Abs(Real32(y) - s);
    mine <= other && (mine == other && y != x ==> x % 2 == 0)
  }

  /**
   x is the finite pattern closest to s, of two closest ones the even one: roundTiesToEven (section 4.3.1 of IEEE
   754-2019) of a real that is not negative and lies below the overflow threshold.
   */
  ghost predicate Rounds(x: F.Bits32, s: real) {
    x < F.INF32 && forall y: F.Bits32 | y < F.INF32 :: NoCloser(x, s, y)
  }

  /** The largest pattern up to n whose value does not exceed s. */
  lemma {:induction false} Below(s: real, n: F.Bits32) returns (k: F.Bits32)
    requires s >= 0.0 && n < F.INF32
    ensures k <= n && Real32(k) <= s && (k < n ==> s < Real32(k + 1))
    decreases n
  {
    hide Real32;
    Real32Zero();
    if Real32(n) <= s {
      return n;
    }
    k := Below(s, n - 1);
  }

  lemma RoundsExists(s: real) returns (x: F.Bits32)
    requires s >= 0.0
    ensures Rounds(x, s)
  {
    hide Real32;
    var k := Below(s, F.INF32 - 1);
    x := k;
    if k < F.INF32 - 1 {
      var twice, ends := 2.0 * s, Real32(k) + Real32(k + 1);
      x := if twice < ends || (twice == ends && k % 2 == 0) then k else k + 1;
    }
    forall y: F.Bits32 | y < F.INF32 ensures NoCloser(x, s, y) {
      EndsClosest(k, s, x, y);
    }
  }

  /** Nothing outside a gap is as close as its nearer end. */
  lemma EndsClosest(k: F.Bits32, s: real, x: F.Bits32, y: F.Bits32)
    requires k < F.INF32 && y < F.INF32 && Real32(k) <= s && (k < F.INF32 - 1 ==> s < Real32(k + 1))
    requires x == k || (x == k + 1 < F.INF32)
    requires k < F.INF32 - 1 ==>
      var twice, ends := 2.0 * s, Real32(k) + Real32(k + 1);
      x == if twice < ends || (twice == ends && k % 2 == 0) then k else k + 1
    ensures NoCloser(x, s, y)
  {
    hide Real32;
    if y < k {
      Real32Increases(y, k);
    } else if y > k + 1 {
      Real32Increases(k + 1, y);
    }
  }

  /** Whether a real is rounded above a pattern is decided by the middle between that pattern and the next. */
  lemma RoundsAbove(x: F.Bits32, s: real, y: F.Bits32)
    requires Rounds(x, s) && y + 1 < F.INF32
    ensures var twice, ends := 2.0 * s, Real32(y) + Real32(y + 1);
      x > y <==> twice > ends || (twice == ends && y % 2 == 1)
  {
    hide Real32;
    assert NoCloser(x, s, y) && NoCloser(x, s, y + 1);
    Real32Increases(y, y + 1);
    if x < y {
      Real32Increases(x, y);
    } else if x > y + 1 {
      Real32Increases(y + 1, x);
    }
  }

  lemma RoundsUnique(x: F.Bits32, y: F.Bits32, s: real)
    requires Rounds(x, s) && Rounds(y, s)
    ensures x == y
  {
    if x < y {
      RoundsAbove(x, s, x);
      RoundsAbove(y, s, x);
    } else if y < x {
      RoundsAbove(x, s, y);
      RoundsAbove(y, s, y);
    }
  }

  /** Rounding is off by at most half a unit below the normal numbers, and one part in 2^24 above. */
  lemma RoundingError(x: F.Bits32, s: real)
    requires Rounds(x, s) && s >= 0.0 && x < F.INF32 - 1
    ensures var e := Abs(Real32(x) - s);
      16777216.0 * e <= s || (x <= 0x80_0000 && 2.0 * e <= Real32(1))
  {
    hide Real32;
    var k := Below(s, F.INF32 - 1);
    assert NoCloser(x, s, k);
    if k == F.INF32 - 1 {
      Real32Increases(x, k);
    } else {
      assert NoCloser(x, s, k + 1);
      Gap(k);
      if k < 0x80_0000 < x {
        RoundsAbove(x, s, 0x80_0000);
        Real32Increases(0x80_0000, 0x80_0001);
        Real32Ordered(k + 1, 0x80_0000);
      }
    }
  }
}
