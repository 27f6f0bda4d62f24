/**
 The Q8_0 cache with the half-precision conversions of kernels/common/fp16.h for its scales: what is read back when the
 stored scale is a normal half, a subnormal one, zero or infinite.
 */
module HalfScale {
  import opened Options
  import opened Reals
  import opened Q8Codec
  import opened Q8Cache
  import opened Q8Gather
  import opened NearestFloat
  import Arith
  import Bits
  import Rounding
  import F = FloatStorage

  // ---------- what the patterns denote ----------

  /** The real value of a finite half pattern. */
  function Real16(h: F.Bits16): real {
    Times(F.ValueF16(h) as real, NegativePower(UNIT_EXPONENT))
  }

  /** The number that a binary32 pattern is. */
  function Read32(x: F.Bits32): Float {
    if F.IsNaN32(x) then NaN
    else if F.IsFinite32(x) then Finite(Real32(x))
    else if x < F.SIGN32 then PlusInfinity else MinusInfinity
  }

  /** f16_to_float */
  function Read16(h: F.Bits16): Float {
    Read32(F.HalfToFloat(h))
  }

  lemma ReadsUnsigned(h: F.Bits16)
    requires h <= F.INFF16
    ensures Read16(h) == if h < F.INFF16 then Finite(Real16(h)) else PlusInfinity
  {
    var s, e, m := F.HalfFields(h);
    F.SignOnTop(s, F.WidenFields(e, m));
    hide F.LeadingShift, F.Value32, Times, NegativePower, Bits.Shl;
  }

  /**
   The library's conversions: float_to_f16 of the binary32 value that a scale is rounded to, and f16_to_float. Scales
   stay far below the overflow threshold of binary32, being a 127th of a finite value.
   */
  ghost predicate Library(f: HalfFormat) {
    && (forall s: real, x: F.Bits32 | Rounds(x, s) :: f.encode(s) == Half(F.FloatToHalf(x)))
    && (forall h: F.Bits16 :: f.decode(Half(h)) == Read16(h))
  }

  ghost function EncodeReal(s: real): Half {
    if x: F.Bits32 :| Rounds(x, s) then Half(F.FloatToHalf(x)) else ZERO
  }

  /** They are functions of the real. */
  lemma LibraryExists() returns (f: HalfFormat)
    ensures Library(f)
  {
    f := HalfFormat(s => EncodeReal(s), (h: Half) => if h.bits < 0x1_0000 then Read16(h.bits) else NaN);
    forall s: real, x: F.Bits32 | Rounds(x, s) ensures f.encode(s) == Half(F.FloatToHalf(x)) {
      forall y: F.Bits32 | Rounds(y, s) ensures y == x {
        RoundsUnique(x, y, s);
      }
    }
  }

  lemma StoredIs(f: HalfFormat, s: real, x: F.Bits32)
    requires Library(f) && Rounds(x, s)
    ensures f.encode(s) == Half(F.FloatToHalf(x))
    ensures ReadScale(f, s) == if x < 0x477f_f000 then Finite(Real16(F.FloatToHalf(x))) else PlusInfinity
  {
    hide Real16, Read16, F.FloatToHalf, NoCloser;
    F.HalfError(x);
    ReadsUnsigned(F.FloatToHalf(x));
  }

  // ---------- the limits ----------

  /** From this magnitude on, halfway between 65520 and the binary32 value before it, a scale is stored as infinity. */
  const INFINITE_SCALE := 65520.0 - 1.0 / 512.0

  /** Up to this one, just above half the smallest half, it is stored as zero. */
  const VANISHING_SCALE := 16777217.0 / 562949953421312.0

  const SMALLEST_HALF := 1.0 / 16777216.0

  lemma PowersOfTwo()
    ensures Bits.Shl(1, 8) == 256 && Bits.Shl(1, 24) == 0x100_0000
    ensures Bits.Shl(1, 37) == 0x20_0000_0000 && Bits.Shl(1, 48) == 0x1_0000_0000_0000
  {
    F.ConstantShifts(1);
    F.ConstantShifts(0x4000);
    Doubled(1, 13);
    Bits.ShlShl(1, 14, 23);
    F.ConstantShifts(0x100_0000);
    Doubled(1, 7);
    Doubled(1, 23);
    Bits.ShlShl(1, 24, 23);
    Doubled(1, 47);
  }

  lemma Doubled(a: nat, n: nat)
    ensures Bits.Shl(a, n + 1) == 2 * Bits.Shl(a, n)
  {
  }

  /** A normal pattern with exponent field e and fraction m, over 2^k. */
  lemma RealOfFields(e: nat, m: nat, k: nat)
    requires 1 <= e < 255 && m < 0x80_0000 && k + e == 150
    ensures Times(Real32(e * 0x80_0000 + m), Bits.Shl(1, k) as real) == (0x80_0000 + m) as real
  {
    hide Times, NegativePower, Bits.Shl, F.Value32, Rounding.Mag;
    F.MagFields(e, m);
    Unsigned(e * 0x80_0000 + m);
    Fraction(0x80_0000 + m, e - 1, k);
  }

  lemma ByNumber(c: real, x: real)
    ensures Times(c, x) == c * x && Times(x, c) == c * x
  {
  }

  lemma LimitsInFloat()
    ensures Real32(0x477f_efff) + Real32(0x477f_f000) == 2.0 * INFINITE_SCALE
    ensures Real32(0x3300_0000) + Real32(0x3300_0001) == 2.0 * VANISHING_SCALE
  {
    hide Real32, Bits.Shl, Times;
    PowersOfTwo();
    RealOfFields(142, 0x7f_efff, 8);
    RealOfFields(142, 0x7f_f000, 8);
    RealOfFields(102, 0, 48);
    RealOfFields(102, 1, 48);
    ByNumber(256.0, Real32(0x477f_efff));
    ByNumber(256.0, Real32(0x477f_f000));
    ByNumber(281474976710656.0, Real32(0x3300_0000));
    ByNumber(281474976710656.0, Real32(0x3300_0001));
  }

  lemma SmallestHalf()
    ensures Real16(1) == SMALLEST_HALF && Real32(1) <= 1.0 / 281474976710656.0
  {
    hide F.ValueF16, F.Value32, Bits.Shl, Times, NegativePower;
    F.SmallestHalf();
    PowersOfTwo();
    Fraction(1, 125, 24);
    ByNumber(16777216.0, Real16(1));
    var u := NegativePower(UNIT_EXPONENT);
    UnitValue();
    Fraction(1, 101, 48);
    Bits.ShlPositive(1, 101);
    TimesMono(1.0, Bits.Shl(1, 101) as real, u);
    ByNumber(281474976710656.0, Times(Bits.Shl(1, 101) as real, u));
  }

  lemma SmallestNormalHalf()
    ensures Real32(0x3880_0000) == 1.0 / 16384.0
  {
    hide Real32, Bits.Shl, Times;
    PowersOfTwo();
    RealOfFields(113, 0, 37);
    ByNumber(137438953472.0, Real32(0x3880_0000));
  }

  /** A scale against the limits, before and after its rounding to binary32. */
  lemma ScaleLimits(x: F.Bits32, s: real)
    requires Rounds(x, s)
    ensures x < 0x477f_f000 <==> s < INFINITE_SCALE
    ensures x <= 0x3300_0000 <==> s <= VANISHING_SCALE
  {
    hide Real32;
    LimitsInFloat();
    RoundsAbove(x, s, 0x477f_efff);
    RoundsAbove(x, s, 0x3300_0000);
  }

  // ---------- errors of the stored scale ----------

  lemma Difference(a: int, b: int, u: real)
    requires u > 0.0
    ensures Abs(Times(a as real, u) - Times(b as real, u)) == Times(Arith.IntAbs(a - b) as real, u)
  {
    TimesAdd(a as real, b as real, u);
    TimesNonNegative(Arith.IntAbs(a - b) as real, u);
    assert Times(-((a - b) as real), u) == -Times((a - b) as real, u);
  }

  /** n integer errors bounded by a value are n real errors bounded by it. */
  lemma ScaledDifference(n: nat, a: int, b: int, v: int, u: real)
    requires u > 0.0 && n * Arith.IntAbs(a - b) <= v
    ensures n as real * Abs(Times(a as real, u) - Times(b as real, u)) <= Times(v as real, u)
  {
    var e := Arith.IntAbs(a - b);
    Difference(a, b, u);
    TimesMono((n * e) as real, v as real, u);
    TimesAssoc(n as real, e as real, u);
    ByNumber(n as real, e as real);
    ByNumber(n as real, Times(e as real, u));
    assert (n * e) as real == n as real * e as real;
    hide *;
  }

  lemma NormalStored(x: F.Bits32)
    requires 0x3880_0000 <= x < 0x477f_f000
    ensures 2048.0 * Abs(Real16(F.FloatToHalf(x)) - Real32(x)) <= Real32(x)
  {
    F.HalfError(x);
    ScaledDifference(2048, F.ValueF16(F.FloatToHalf(x)), F.Value32(x), F.Value32(x), NegativePower(UNIT_EXPONENT));
    hide Times, NegativePower, F.ValueF16, F.FloatToHalf, F.Value32;
  }

  lemma SubnormalStored(x: F.Bits32)
    requires x < 0x3880_0000
    ensures 2.0 * Abs(Real16(F.FloatToHalf(x)) - Real32(x)) <= Real16(1)
  {
    F.HalfError(x);
    F.SmallestHalf();
    ScaledDifference(2, F.ValueF16(F.FloatToHalf(x)), F.Value32(x), F.ValueF16(1), NegativePower(UNIT_EXPONENT));
    hide Times, NegativePower, F.ValueF16, F.FloatToHalf, F.Value32;
  }

  // ---------- one scale ----------

  /** A normal scale is stored to one part in 2047. */
  lemma NormalScale(f: HalfFormat, s: real, x: F.Bits32)
    requires Library(f) && s >= 0.0 && Rounds(x, s) && 0x3880_0000 <= x < 0x477f_f000
    ensures ReadScale(f, s).Finite? && 2047.0 * Abs(ReadScale(f, s).value - s) <= s
  {
    hide ReadScale, Real16, Real32, Library, Rounds, F.FloatToHalf;
    StoredIs(f, s, x);
    NormalStored(x);
    RoundingError(x, s);
  }

  /** A subnormal scale is stored to just over half the smallest half. */
  lemma SubnormalScale(f: HalfFormat, s: real, x: F.Bits32)
    requires Library(f) && s >= 0.0 && Rounds(x, s) && x < 0x3880_0000
    ensures ReadScale(f, s).Finite? && 127.0 * Abs(ReadScale(f, s).value - s) <= 64.0 * SMALLEST_HALF
  {
    hide ReadScale, Real16, Real32, Library, Rounds, F.FloatToHalf;
    StoredIs(f, s, x);
    SubnormalStored(x);
    SmallestHalf();
    SmallestNormalHalf();
    Real32Increases(x, 0x3880_0000);
    RoundingError(x, s);
  }

  /** A scale is stored and read back as zero exactly up to VANISHING_SCALE. */
  lemma VanishingScale(f: HalfFormat, s: real)
    requires Library(f) && s >= 0.0
    ensures f.encode(s) == ZERO <==> s <= VANISHING_SCALE
    ensures s <= VANISHING_SCALE ==> ReadScale(f, s) == Finite(0.0)
  {
    hide ReadScale, Times, NegativePower, Real32, NoCloser, F.ValueF16, F.FloatToHalf;
    var x := RoundsExists(s);
    StoredIs(f, s, x);
    ScaleLimits(x, s);
    F.HalfError(x);
    F.ZeroHalf();
    TimesZero(NegativePower(UNIT_EXPONENT));
  }

  /** A scale is stored as infinity exactly from INFINITE_SCALE up. */
  lemma InfiniteScale(f: HalfFormat, s: real)
    requires Library(f) && s >= 0.0
    ensures ReadScale(f, s).Finite? <==> s < INFINITE_SCALE
    ensures ReadScale(f, s) == PlusInfinity <==> s >= INFINITE_SCALE
  {
    hide ReadScale, Real16, Rounds, F.FloatToHalf;
    var x := RoundsExists(s);
    StoredIs(f, s, x);
    ScaleLimits(x, s);
  }

  // ---------- one group ----------

  /**
   What an element of a group with largest magnitude m is read back as. Below 127 * (65520 - 2^-9) it is a real within
   9/16 of a scale step m / 127 and 2^-18. From there on it is never a real: NaN below half a scale step, zeros included,
   and the infinity of its sign otherwise.
   */
  ghost predicate ReadBack(value: real, decoded: Float, m: real) {
    if m < 127.0 * (65520.0 - 1.0 / 512.0) then
      decoded.Finite? && Abs(decoded.value - value) <= m * 9.0 / 2032.0 + 1.0 / 262144.0
    else
      decoded == if 254.0 * Abs(value) < m then NaN else if value > 0.0 then PlusInfinity else MinusInfinity
  }

  /** So it is for whatever the codec's promise about the stored scale allows. */
  lemma RecoversReadBack(f: HalfFormat, values: seq<real>, lane: nat, decoded: Float, m: real)
    requires lane < |values| && Library(f) && Recovers(f, values, lane, decoded) && Largest(values, m)
    ensures ReadBack(values[lane], decoded, m)
  {
    hide Library, Rounds, Real32;
    var s := m / 127.0;
    assert s >= 0.0;
    InfiniteScale(f, s);
    var x := RoundsExists(s);
    ScaleLimits(x, s);
    assert Returned(values[lane], decoded, s, ReadScale(f, s));
    hide ReadScale, Recovers;
    if x < 0x3880_0000 {
      SubnormalScale(f, s, x);
    } else if x < 0x477f_f000 {
      NormalScale(f, s, x);
    }
  }

  /** The whole way of one group through codes and stored scale. */
  function Cached(f: HalfFormat, values: seq<real>): (decoded: seq<Float>)
    ensures |decoded| == |values|
  {
    Decoded(Codes(values), ReadScale(f, Scale(values)))
  }

  lemma GroupReadBack(f: HalfFormat, values: seq<real>, m: real, lane: nat)
    requires lane < |values| && Library(f) && Largest(values, m)
    ensures ReadBack(values[lane], Cached(f, values)[lane], m)
  {
    hide Codes, Decoded, ReadScale, Scale, Recovers, Library, ReadBack;
    GroupRecovers(f, values, lane);
    RecoversReadBack(f, values, lane, Cached(f, values)[lane], m);
  }

  /** A group whose scale vanishes comes back as zeros. */
  lemma VanishingGroup(f: HalfFormat, values: seq<real>, m: real, lane: nat)
    requires lane < |values| && Library(f) && Largest(values, m) && m <= 127.0 * VANISHING_SCALE
    ensures Cached(f, values)[lane] == Finite(0.0)
  {
    LargestIs(values, m);
    VanishingScale(f, m / 127.0);
    hide Codes, ReadScale, Scale, Library, Times;
    TimesZero(Codes(values)[lane] as real);
  }

  /** Finite values whose scale is 65520: the first one is read back as infinity, the zeros as NaN. */
  function OverflowingGroup(): (values: seq<real>)
    ensures |values| == 32
  {
    [127.0 * 65520.0] + seq(31, i => 0.0)
  }

  lemma OverflowingGroupLost(f: HalfFormat)
    requires Library(f)
    ensures var out := Cached(f, OverflowingGroup());
      out[0] == PlusInfinity && forall lane | 1 <= lane < 32 :: out[lane] == NaN
  {
    var values, m := OverflowingGroup(), 127.0 * 65520.0;
    assert values[0] == m && forall i | 0 <= i < 32 :: -m <= values[i] <= m;
    assert Largest(values, m);
    hide Cached, Library, Largest;
    forall lane | 0 <= lane < 32 ensures ReadBack(values[lane], Cached(f, values)[lane], m) {
      GroupReadBack(f, values, m, lane);
    }
  }

  // ---------- scatter, then gather ----------

  /** Every element that the table leads back to is read back. */
  ghost predicate AllReadBack(source: seq<real>, slots: seq<int>, p: Paging, cumulative: seq<nat>, tokens: nat,
                              width: nat, out: seq<Float>)
    requires Covers(p, cumulative)
  {
    forall t: nat, token: nat, s: nat, c: nat, lane: nat |
      token < tokens && LeadsTo(p, cumulative, slots, t, token, s) && c < width && lane < 32 ::
      ElementReadBack(source, out, width, t, token, c, lane)
  }

  ghost predicate ElementReadBack(source: seq<real>, out: seq<Float>, width: nat, t: nat, token: nat, c: nat, lane: nat)
    requires lane < 32
  {
    var from, to := Arith.Flat(t, width, c), Arith.Flat(token, width, c);
    && 32 * from + 32 <= |source| && 32 * to + 32 <= |out|
    && forall m: real | Largest(Lanes(source, from), m) ::
         ReadBack(source[32 * from + lane], out[32 * to + lane], m)
  }

  lemma RecoveredReadBack(f: HalfFormat, source: seq<real>, slots: seq<int>, p: Paging, cumulative: seq<nat>,
                          tokens: nat, width: nat, out: seq<Float>)
    requires Library(f) && Covers(p, cumulative)
    requires Recovered(f, source, slots, p, cumulative, tokens, width, out)
    ensures AllReadBack(source, slots, p, cumulative, tokens, width, out)
  {
    hide Covers, LeadsTo, Recovers, ReadBack, Library, Largest;
    forall t: nat, token: nat, s: nat, c: nat, lane: nat |
      token < tokens && LeadsTo(p, cumulative, slots, t, token, s) && c < width && lane < 32
      ensures ElementReadBack(source, out, width, t, token, c, lane)
    {
      assert ElementRecovered(f, source, out, width, t, token, c, lane);
      var from, to := Arith.Flat(t, width, c), Arith.Flat(token, width, c);
      forall m: real | Largest(Lanes(source, from), m) ensures ReadBack(source[32 * from + lane], out[32 * to + lane], m) {
        RecoversReadBack(f, Lanes(source, from), lane, out[32 * to + lane], m);
      }
    }
  }

  /** Both oracles, one after the other, with the library's conversions of the scales. */
  method ScatterThenGatherHalves(f: HalfFormat, key: seq<real>, value: seq<real>, slots: seq<int>,
                                 keyCodes: array<int>, keyScales: array<Half>, valueCodes: array<int>,
                                 valueScales: array<Half>, p: Paging, cumulative: seq<nat>, keyOut: array<Float>,
                                 valueOut: array<Float>, tokens: nat, heads: nat, dim: nat)
    requires Library(f) && dim % 32 == 0 && Covers(p, cumulative) && Offsets(cumulative, tokens)
    requires DistinctSlots(slots) && forall t | 0 <= t < |slots| :: slots[t] < Arith.Flat(p.blocks, p.page, 0)
    requires |key| == |value| == 32 * Arith.Flat(|slots|, Arith.Flat(heads, dim / 32, 0), 0)
    requires Sized(keyCodes[..], keyScales[..], p, Arith.Flat(heads, dim / 32, 0))
    requires Sized(valueCodes[..], valueScales[..], p, Arith.Flat(heads, dim / 32, 0))
    requires keyCodes != valueCodes && keyScales != valueScales && keyOut != valueOut
    requires keyOut.Length == valueOut.Length == 32 * Arith.Flat(tokens, Arith.Flat(heads, dim / 32, 0), 0)
    modifies keyCodes, keyScales, valueCodes, valueScales, keyOut, valueOut
    ensures AllReadBack(key, slots, p, cumulative, tokens, Arith.Flat(heads, dim / 32, 0), keyOut[..])
    ensures AllReadBack(value, slots, p, cumulative, tokens, Arith.Flat(heads, dim / 32, 0), valueOut[..])
  {
    hide AllReadBack, Recovered, Library, Covers, Offsets, DistinctSlots;
    ScatterThenGather(f, key, value, slots, keyCodes, keyScales, valueCodes, valueScales, p, cumulative, keyOut,
                      valueOut, tokens, heads, dim);
    ghost var width := Arith.Flat(heads, dim / 32, 0);
    RecoveredReadBack(f, key, slots, p, cumulative, tokens, width, keyOut[..]);
    RecoveredReadBack(f, value, slots, p, cumulative, tokens, width, valueOut[..]);
  }
}
