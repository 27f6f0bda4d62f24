/**
 FP16 and BF16 storage conversions on bit patterns: benchmarks/cases/float_storage.cpp and
 kernels/common/fp16.h. Words are natural numbers; masks and constant shifts are written with / and %.
 */
module FloatStorage {
  import opened Arith
  import opened Bits
  import opened Rounding

  type Bits16 = b: nat | b < 0x1_0000
  type Bits32 = b: nat | b < 0x1_0000_0000

  // ---------- binary32 ----------

  const SIGN32 := 0x8000_0000
  const INF32 := 0x7f80_0000
  const SIGN16 := 0x8000

  // Fraction bits of the three formats, and what has to be dropped from binary32.
  const FRACTION32 := 23
  const FRACTION_BF16 := 7
  const FRACTION_F16 := 10
  const DROP_BF16 := 16
  const DROP_F16 := 13

  predicate IsNaN32(bits: Bits32) {
    bits % SIGN32 > INF32
  }

  predicate IsFinite32(bits: Bits32) {
    bits % SIGN32 < INF32
  }

  function Signed(negative: bool, magnitude: nat): int {
    if negative then 0 - magnitude else magnitude
  }

  /** Exact value of a finite pattern in units of 2^-149. */
  function Value32(bits: Bits32): int {
    Signed(bits >= SIGN32, Mag(FRACTION32, bits % SIGN32))
  }

  lemma Shl4(a: nat, n: nat)
    ensures Shl(a, n + 4) == 16 * Shl(a, n)
  {
    assert Shl(a, n + 4) == 2 * Shl(a, n + 3);
    assert Shl(a, n + 3) == 2 * Shl(a, n + 2);
    assert Shl(a, n + 2) == 2 * Shl(a, n + 1);
  }

  /**
   The shifts by constants that occur below, as multiplications. The shift counts are built up from a variable n: a
   literal count would make the solver unfold all its doublings at once.
   */
  lemma ConstantShifts(a: nat)
    ensures Shl(a, FRACTION_BF16) == a * 0x80 && Shl(a, FRACTION_F16) == a * 0x400
    ensures Shl(a, DROP_F16 - 1) == a * 0x1000 && Shl(a, DROP_F16) == a * 0x2000
    ensures Shl(a, DROP_BF16 - 1) == a * 0x8000 && Shl(a, DROP_BF16) == a * 0x1_0000
    ensures Shl(a, FRACTION32) == a * 0x80_0000
  {
    var n := Low(0, 1);
    assert Shl(a, n + 1) == 2 * a && Shl(a, n + 2) == 2 * Shl(a, n + 1) && Shl(a, n + 3) == 2 * Shl(a, n + 2);
    Shl4(a, n);
    Shl4(a, n + 1);
    Shl4(a, n + 2);
    Shl4(a, n + 3);
    Shl4(a, n + 4);
    Shl4(a, n + 5);
    Shl4(a, n + 6);
    Shl4(a, n + 7);
    Shl4(a, n + 8);
    Shl4(a, n + 9);
    Shl4(a, n + 11);
    Shl4(a, n + 12);
    Shl4(a, n + 15);
    Shl4(a, n + 19);
  }

  /** Shifting right by a constant is integer division. */
  lemma ShrBf16(a: nat)
    ensures Shr(a, DROP_BF16) == a / 0x1_0000 && Low(a, DROP_BF16) == a % 0x1_0000
  {
    ConstantShifts(a / 0x1_0000);
    ConstantShifts(1);
    SplitUnique(a, DROP_BF16, a / 0x1_0000, a % 0x1_0000);
  }

  lemma ShrF16(a: nat)
    ensures Shr(a, DROP_F16) == a / 0x2000 && Low(a, DROP_F16) == a % 0x2000
  {
    ConstantShifts(a / 0x2000);
    ConstantShifts(1);
    SplitUnique(a, DROP_F16, a / 0x2000, a % 0x2000);
  }

  // ---------- BF16 ----------

  const INFBF16 := 0x7f80

  function Bf16ToFloat(bits: Bits16): Bits32 {
    bits * 0x1_0000
  }

  /** word | 0x40 */
  function SetQuietBit(word: Bits16): Bits16 {
    if (word / 64) % 2 == 1 then word else word + 64
  }

  /** The sum is a 32-bit addition, which would wrap. */
  function FloatToBf16(bits: Bits32): Bits16 {
    if (bits / 0x80_0000) % 256 == 255 && bits % 0x80_0000 != 0 then
      SetQuietBit(bits / 0x1_0000)
    else
      ((bits + 0x7fff + (bits / 0x1_0000) % 2) % 0x1_0000_0000) / 0x1_0000
  }

  lemma Drop16(k: nat, j: nat)
    requires j < 0x1_0000
    ensures RoundByRemainder(k * 0x1_0000 + j, DROP_BF16) == Carried(k, j, 0x8000)
  {
    ShrBf16(k * 0x1_0000 + j);
    ConstantShifts(1);
  }

  /** On the whole word, where the sum does not reach past the sign bit. */
  lemma SumOfHalves(s: nat, k: nat, j: nat)
    requires s < 2 && j < 0x1_0000 && k + 1 < SIGN16
    ensures s * SIGN32 + k * 0x1_0000 + j + 0x7fff + k % 2 < 0x1_0000_0000
    ensures (s * SIGN32 + k * 0x1_0000 + j + 0x7fff + k % 2) / 0x1_0000 == s * SIGN16 + Carried(k, j, 0x8000)
  {
    var u := j + 0x7fff + k % 2;
    var c := Carried(k, j, 0x8000) - k;
    assert s * SIGN32 + k * 0x1_0000 + u == (s * SIGN16 + k + c) * 0x1_0000 + (u - c * 0x1_0000);
  }

  /** Sign, upper and lower half of a pattern. */
  lemma Halves(bits: Bits32) returns (s: nat, k: nat, j: nat)
    ensures s < 2 && k < 0x8000 && j < 0x1_0000
    ensures bits == s * SIGN32 + k * 0x1_0000 + j
    ensures bits % SIGN32 == k * 0x1_0000 + j && (bits >= SIGN32 <==> s == 1)
    ensures bits / 0x1_0000 == s * 0x8000 + k && (s * 0x8000 + k) % 2 == k % 2
  {
    s, k, j := bits / SIGN32, (bits % SIGN32) / 0x1_0000, bits % 0x1_0000;
  }

  lemma CarryThreshold(k: nat, j: nat)
    requires j < 0x1_0000 && k * 0x1_0000 + j <= INF32
    ensures Carried(k, j, 0x8000) <= INFBF16
    ensures Carried(k, j, 0x8000) == INFBF16 <==> k * 0x1_0000 + j >= 0x7f7f_8000
  {
    if k < 0x7f7f {
      assert k * 0x1_0000 + j < 0x7f7f_0000;
    } else if k == 0x7f7f {
      assert k % 2 == 1;
    } else {
      assert k == INFBF16 && j == 0;
    }
  }

  lemma Bf16Parts(bits: Bits32) returns (s: nat, k: nat, j: nat)
    requires !IsNaN32(bits)
    ensures s < 2 && j < 0x1_0000
    ensures bits % SIGN32 == k * 0x1_0000 + j && (bits >= SIGN32 <==> s == 1)
    ensures bits + 0x7fff + (bits / 0x1_0000) % 2 < 0x1_0000_0000
    ensures FloatToBf16(bits) == s * SIGN16 + Carried(k, j, 0x8000)
    ensures Carried(k, j, 0x8000) <= INFBF16
    ensures Carried(k, j, 0x8000) == INFBF16 <==> bits % SIGN32 >= 0x7f7f_8000
  {
    s, k, j := Halves(bits);
    SumOfHalves(s, k, j);
    CarryThreshold(k, j);
    NaNTest(bits);
  }

  /** The mask test of the source selects exactly the NaN patterns. */
  lemma NaNTest(bits: Bits32)
    ensures IsNaN32(bits) <==> (bits / 0x80_0000) % 256 == 255 && bits % 0x80_0000 != 0
  {
    var e := (bits % SIGN32) / 0x80_0000;
    assert bits == (bits / SIGN32) * SIGN32 + e * 0x80_0000 + bits % 0x80_0000;
    assert bits / 0x80_0000 == (bits / SIGN32) * 256 + e;
    assert (bits / 0x80_0000) % 256 == e;
  }

  lemma Assemble(s: nat, r: nat)
    requires s < 2 && r < SIGN16
    ensures (s * SIGN16 + r) % SIGN16 == r
    ensures s * SIGN16 + r >= SIGN16 <==> s == 1
  {
  }

  /**
   * BF16 encoding of everything but NaN: the addition never wraps, the sign is kept, the result is
   * finite exactly below the overflow threshold, and it is the nearest-even magnitude.
   */
  lemma Bf16NearestEven(bits: Bits32)
    requires !IsNaN32(bits)
    ensures bits + 0x7fff + (bits / 0x1_0000) % 2 < 0x1_0000_0000
    ensures FloatToBf16(bits) >= SIGN16 <==> bits >= SIGN32
    ensures FloatToBf16(bits) % SIGN16 <= INFBF16
    ensures FloatToBf16(bits) % SIGN16 == INFBF16 <==> bits % SIGN32 >= 0x7f7f_8000
    ensures NearestEven(FRACTION_BF16, DROP_BF16, Mag(FRACTION32, bits % SIGN32), FloatToBf16(bits) % SIGN16)
  {
    var s, k, j := Bf16Parts(bits);
    Assemble(s, Carried(k, j, 0x8000));
    Drop16(k, j);
    RoundFormsAgree(bits % SIGN32, DROP_BF16);
    RoundDropNearest(FRACTION_BF16, DROP_BF16, bits % SIGN32);
  }

  /** NaN stays NaN, quiet, with its sign and its upper payload bits. */
  lemma Bf16KeepsNaN(bits: Bits32)
    requires IsNaN32(bits)
    ensures FloatToBf16(bits) % SIGN16 > INFBF16
    ensures (FloatToBf16(bits) / 64) % 2 == 1
    ensures FloatToBf16(bits) / 128 == bits / 0x80_0000
    ensures FloatToBf16(bits) % 64 == (bits / 0x1_0000) % 64
  {
    NaNTest(bits);
    QuietBit(bits / 0x1_0000);
    var s, k, j := Halves(bits);
    assert bits / 0x80_0000 == (bits / 0x1_0000) / 128;
  }

  lemma QuietBit(word: Bits16)
    ensures (SetQuietBit(word) / 64) % 2 == 1
    ensures SetQuietBit(word) / 128 == word / 128 && SetQuietBit(word) % 64 == word % 64
    ensures word % SIGN16 >= INFBF16 ==> SetQuietBit(word) % SIGN16 > INFBF16
  {
    var h, l := word / 128, word % 64;
    QuietFields(h, l);
    WordFields(word);
  }

  lemma WordFields(word: Bits16)
    ensures SetQuietBit(word) == word / 128 * 128 + 64 + word % 64
    ensures word % SIGN16 == word / 128 % 256 * 128 + word % 128
  {
  }

  /** The fields of a word whose quiet bit is set. */
  lemma QuietFields(h: nat, l: nat)
    requires l < 64
    ensures var q := h * 128 + 64 + l;
      (q / 64) % 2 == 1 && q / 128 == h && q % 64 == l && q % SIGN16 == h % 256 * 128 + 64 + l
  {
    Divided64(2 * h + 1, l);
    Divided128(h, 64 + l);
    DividedSign(h / 256, h % 256 * 128 + 64 + l);
  }

  lemma Divided64(k: nat, r: nat)
    requires r < 64
    ensures (k * 64 + r) / 64 == k && (k * 64 + r) % 64 == r
  {
  }

  lemma Divided128(k: nat, r: nat)
    requires r < 128
    ensures (k * 128 + r) / 128 == k
  {
  }

  lemma DividedSign(k: nat, r: nat)
    requires r < SIGN16
    ensures (k * SIGN16 + r) % SIGN16 == r
  {
  }

  function ValueBf16(q: Bits16): int {
    Value32(Bf16ToFloat(q))
  }

  /** Decoding is exact. */
  lemma Bf16Exact(q: Bits16)
    ensures ValueBf16(q) == Signed(q >= SIGN16, Shl(Mag(FRACTION_BF16, q % SIGN16), DROP_BF16))
  {
    var a := q % SIGN16;
    assert Bf16ToFloat(q) % SIGN32 == a * 0x1_0000;
    ConstantShifts(a);
    MagExtended(FRACTION_BF16, DROP_BF16, a);
  }

  /** `mine`, with pattern r, is at least as close to v as `other`; a tie needs an even pattern. */
  predicate Closest(mine: int, other: int, v: int, r: nat) {
    IntAbs(mine - v) <= IntAbs(other - v) &&
    (IntAbs(mine - v) == IntAbs(other - v) && mine != other ==> r % 2 == 0)
  }

  /**
   * In signed real values: whenever the encoding is finite, no finite BF16 value of either sign is
   * closer, and a different value that is equally close leaves the even pattern as the result.
   */
  lemma Bf16Closest(bits: Bits32, q: Bits16)
    requires IsFinite32(bits) && FloatToBf16(bits) % SIGN16 < INFBF16
    ensures Closest(ValueBf16(FloatToBf16(bits)), ValueBf16(q), Value32(bits), FloatToBf16(bits))
  {
    var r := FloatToBf16(bits);
    Bf16NearestEven(bits);
    Bf16Exact(r);
    Bf16Exact(q);
    SignedClosest(FRACTION_BF16, DROP_BF16, Mag(FRACTION32, bits % SIGN32), bits >= SIGN32, r, q);
  }

  /** A value of the other sign is never closer than zero is. */
  lemma SignedClosest(p: nat, n: nat, v: nat, negative: bool, r: Bits16, q: Bits16)
    requires NearestEven(p, n, v, r % SIGN16)
    requires negative <==> r >= SIGN16
    ensures Closest(Signed(r >= SIGN16, Shl(Mag(p, r % SIGN16), n)),
                    Signed(q >= SIGN16, Shl(Mag(p, q % SIGN16), n)), Signed(negative, v), r)
  {
    assert r % 2 == (r % SIGN16) % 2;
    assert NoCloser(p, n, v, r % SIGN16, q % SIGN16);
    assert NoCloser(p, n, v, r % SIGN16, 0);
    MagZero(p);
    ShlZero(n);
  }

  /** Decoding and encoding again changes nothing but the quiet bit of a NaN. */
  lemma Bf16RoundTrip(q: Bits16)
    ensures FloatToBf16(Bf16ToFloat(q)) == if q % SIGN16 <= INFBF16 then q else SetQuietBit(q)
  {
    var bits := Bf16ToFloat(q);
    assert bits / 0x1_0000 == q;
    assert bits % SIGN32 == (q % SIGN16) * 0x1_0000;
    NaNTest(bits);
    if q % SIGN16 <= INFBF16 {
      var s, k, j := Bf16Parts(bits);
      assert j == 0 && k == q % SIGN16 && Carried(k, j, 0x8000) == k;
    }
  }

  /** The quiet bit is all that can differ. */
  lemma QuietBitStable(q: Bits16)
    ensures SetQuietBit(q) == q <==> (q / 64) % 2 == 1
  {
  }

  // ---------- FP16 ----------

  const INFF16 := 0x7c00

  /** One unit of FP16 is 2^-24, that is 2^125 units of 2^-149. */
  const UNIT_F16 := 125

  function FloatToHalf(bits: Bits32): Bits16 {
    RoundToHalf((bits / SIGN32) * SIGN16, bits % SIGN32)
  }

  /** The branches of fp32_to_fp16: overflow, half subnormal or zero, normal. */
  function RoundToHalf(sign: nat, x: nat): Bits16
    requires sign == 0 || sign == SIGN16
    requires x < SIGN32
  {
    if x >= 0x4780_0000 then sign + (if x > INF32 then 0x7e00 else INFF16)
    else if x < 0x3300_0000 then sign
    else if x < 0x3880_0000 then RoundSubnormal(sign, x % 0x80_0000 + 0x80_0000, 113 - x / 0x80_0000)
    else RoundNormal(sign, x)
  }

  function RoundSubnormal(sign: nat, mant: nat, shift: nat): Bits16
    requires sign == 0 || sign == SIGN16
    requires 0x80_0000 <= mant < 0x100_0000 && 1 <= shift
  {
    SubnormalFits(mant, shift);
    var h := sign + Shr(mant, shift + 13);
    var rem, half := Low(mant, shift + 13), Shl(1, shift + 12);
    if rem > half || (rem == half && h % 2 == 1) then h + 1 else h
  }

  function RoundNormal(sign: nat, x: nat): Bits16
    requires sign == 0 || sign == SIGN16
    requires 0x3880_0000 <= x < 0x4780_0000
  {
    var h := sign + (x / 0x80_0000 - 112) * 1024 + (x / 0x2000) % 1024;
    var rem := x % 0x2000;
    if rem > 0x1000 || (rem == 0x1000 && h % 2 == 1) then h + 1 else h
  }

  /** A shifted 24-bit significand has at most ten bits left. */
  lemma SubnormalFits(mant: nat, shift: nat)
    requires 0x80_0000 <= mant < 0x100_0000 && 1 <= shift
    ensures Shr(mant, shift + 13) < 1024
  {
    var k := Shr(mant, shift + 13);
    Split(mant, shift + 13);
    ShlShl(k, DROP_F16 + 1, shift - 1);
    ShlPositive(Shl(k, DROP_F16 + 1), shift - 1);
    ConstantShifts(k);
  }

  /** Re-biasing the exponent by 112 shifts the value by 112 bits. */
  lemma Rebias(k: nat)
    requires k >= 113 * 1024
    ensures Shl(Mag(FRACTION_F16, k - 112 * 1024), UNIT_F16) == Shl(Mag(FRACTION_F16, k), DROP_F16)
    ensures Scale(FRACTION_F16, k) == Scale(FRACTION_F16, k - 112 * 1024) + 112
  {
    var e, m := Shr(k, FRACTION_F16), Low(k, FRACTION_F16);
    Split(k, FRACTION_F16);
    ConstantShifts(1);
    ConstantShifts(e);
    ConstantShifts(e - 112);
    SplitUnique(k - 112 * 1024, FRACTION_F16, e - 112, m);
    ShlShl(1024 + m, e - 113, UNIT_F16);
    ShlShl(1024 + m, e - 1, DROP_F16);
  }

  /** Nearest-even in FP16, from nearest-even among the patterns of the same exponent in binary32. */
  lemma NormalNearest(x: nat)
    requires x >= 0x3880_0000
    ensures RoundByRemainder(x, DROP_F16) >= 112 * 1024
    ensures NearestEven(FRACTION_F16, UNIT_F16, Mag(FRACTION32, x), RoundByRemainder(x, DROP_F16) - 112 * 1024)
  {
    var k, j, half := Shr(x, DROP_F16), Low(x, DROP_F16), Shl(1, DROP_F16 - 1);
    NormalFields(x);
    NormalGap(k);
    NearestFromFraction(FRACTION_F16, UNIT_F16, Mag(FRACTION32, x), k - 112 * 1024, j, half, Scale(FRACTION_F16, k));
    CarriedShift(k, j, half);
  }

  lemma CarriedShift(k: nat, j: nat, half: nat)
    requires k >= 112 * 1024
    ensures Carried(k - 112 * 1024, j, half) == Carried(k, j, half) - 112 * 1024
  {
  }

  lemma NormalFields(x: nat)
    requires x >= 0x3880_0000
    ensures Shr(x, DROP_F16) >= 113 * 1024
    ensures Low(x, DROP_F16) < 2 * Shl(1, DROP_F16 - 1)
    ensures Mag(FRACTION32, x)
         == Shl(Mag(FRACTION_F16, Shr(x, DROP_F16) - 112 * 1024), UNIT_F16)
            + Shl(Low(x, DROP_F16), Scale(FRACTION_F16, Shr(x, DROP_F16)))
  {
    ShrF16(x);
    ConstantShifts(1);
    MagSplit(FRACTION_F16, DROP_F16, x);
    Rebias(Shr(x, DROP_F16));
  }

  lemma NormalGap(k: nat)
    requires k >= 113 * 1024
    ensures Shl(Mag(FRACTION_F16, k - 112 * 1024 + 1), UNIT_F16)
         == Shl(Mag(FRACTION_F16, k - 112 * 1024), UNIT_F16)
            + 2 * Shl(Shl(1, DROP_F16 - 1), Scale(FRACTION_F16, k))
  {
    GapOfStep(FRACTION_F16, DROP_F16, k);
    Rebias(k);
    Rebias(k + 1);
  }

  lemma SmallMag(k: nat)
    requires k <= 1024
    ensures Mag(FRACTION_F16, k) == k
  {
    ConstantShifts(1);
    ShlZero(FRACTION_F16);
    if k < 1024 {
      SplitUnique(k, FRACTION_F16, 0, k);
    } else {
      SplitUnique(k, FRACTION_F16, 1, 0);
    }
  }

  lemma MagFields(e: nat, m: nat)
    requires e >= 1 && m < 0x80_0000
    ensures Mag(FRACTION32, e * 0x80_0000 + m) == Shl(0x80_0000 + m, e - 1)
  {
    ConstantShifts(1);
    ConstantShifts(e);
    SplitUnique(e * 0x80_0000 + m, FRACTION32, e, m);
  }

  /** The half-subnormal branch: the significand, shifted right by 126 - e, rounded half to even. */
  lemma SubnormalNearest(e: nat, m: nat, n: nat)
    requires 102 <= e <= 112 && m < 0x80_0000 && n == 126 - e
    ensures NearestEven(FRACTION_F16, UNIT_F16, Mag(FRACTION32, e * 0x80_0000 + m),
                        RoundByRemainder(0x80_0000 + m, n))
  {
    hide Mag, Shl, Shr, NearestEven;
    var mant := 0x80_0000 + m;
    var k, j, half := Shr(mant, n), Low(mant, n), Shl(1, n - 1);
    MagFields(e, m);
    Split(mant, n);
    SubnormalFits(mant, n - 13);
    SmallMag(k);
    SmallMag(k + 1);
    Halved(n);
    SubnormalGap(k, j, n, e - 1);
    NearestFromFraction(FRACTION_F16, UNIT_F16, Shl(mant, e - 1), k, j, half, e - 1);
  }

  lemma SubnormalGap(k: nat, j: nat, n: nat, s: nat)
    requires n >= 1 && n + s == UNIT_F16
    ensures Shl(Shl(k, n) + j, s) == Shl(k, UNIT_F16) + Shl(j, s)
    ensures Shl(k + 1, UNIT_F16) == Shl(k, UNIT_F16) + 2 * Shl(Shl(1, n - 1), s)
  {
    hide Shl;
    ShlAdd(Shl(k, n), j, s);
    ShlShl(k, n, s);
    ShlAdd(k, 1, UNIT_F16);
    ShlShl(1, n, s);
    Halved(n);
    ShlAdd(Shl(1, n - 1), Shl(1, n - 1), s);
  }

  lemma Halved(n: nat)
    requires n >= 1
    ensures Shl(1, n) == Shl(1, n - 1) + Shl(1, n - 1)
  {
  }

  /** Below half of the smallest FP16 magnitude the result is zero. */
  lemma TinyNearest(x: nat)
    requires x < 0x3300_0000
    ensures NearestEven(FRACTION_F16, UNIT_F16, Mag(FRACTION32, x), 0)
  {
    TinyBound(x, 102);
    NearestZero(FRACTION_F16, UNIT_F16, Mag(FRACTION32, x));
  }

  lemma TinyBound(x: nat, e: nat)
    requires 1 <= e && x < e * 0x80_0000
    ensures 2 * Mag(FRACTION32, x) < Shl(1, e + FRACTION32)
  {
    MagIncreases(FRACTION32, x, e * 0x80_0000);
    MagFields(e, 0);
    ConstantShifts(1);
    ShlShl(1, FRACTION32, e);
  }

  /** x is the sign-free part of a pattern, r that of its FP16 encoding. */
  ghost predicate HalfRounded(x: nat, r: nat) {
    && r <= INFF16
    && (r == INFF16 <==> x >= 0x477f_f000)
    && (r < INFF16 ==> NearestEven(FRACTION_F16, UNIT_F16, Mag(FRACTION32, x), r))
  }

  lemma HalfThreshold(k: nat, j: nat)
    requires j < 0x2000 && k * 0x2000 + j < 0x4780_0000
    ensures Carried(k, j, 0x1000) <= INFF16 + 112 * 1024
    ensures Carried(k, j, 0x1000) == INFF16 + 112 * 1024 <==> k * 0x2000 + j >= 0x477f_f000
  {
    if k == 0x2_3bff {
      assert k % 2 == 1;
    }
  }

  lemma NormalCase(sign: nat, x: nat) returns (r: nat)
    requires sign == 0 || sign == SIGN16
    requires 0x3880_0000 <= x < 0x4780_0000
    ensures HalfRounded(x, r) && RoundNormal(sign, x) == sign + r
  {
    var e, k, j := x / 0x80_0000, x / 0x2000, x % 0x2000;
    NormalNearest(x);
    r := RoundByRemainder(x, DROP_F16) - 112 * 1024;
    ShrF16(x);
    ConstantShifts(1);
    HalfThreshold(k, j);
    RoundNormalIs(sign, x);
  }

  lemma RoundNormalIs(sign: nat, x: nat)
    requires sign == 0 || sign == SIGN16
    requires 0x3880_0000 <= x < 0x4780_0000
    ensures RoundNormal(sign, x) == sign + Carried(x / 0x2000, x % 0x2000, 0x1000) - 112 * 1024
  {
    var e, k := x / 0x80_0000, x / 0x2000;
    assert k == e * 1024 + k % 1024;
    assert (sign + (k - 112 * 1024)) % 2 == k % 2;
  }

  lemma SubnormalCase(sign: nat, x: nat) returns (r: nat)
    requires sign == 0 || sign == SIGN16
    requires 0x3300_0000 <= x < 0x3880_0000
    ensures HalfRounded(x, r)
    ensures RoundSubnormal(sign, x % 0x80_0000 + 0x80_0000, 113 - x / 0x80_0000) == sign + r
  {
    var e, m := x / 0x80_0000, x % 0x80_0000;
    r := RoundByRemainder(0x80_0000 + m, 126 - e);
    SubnormalNearest(e, m, 126 - e);
    SubnormalFits(0x80_0000 + m, 113 - e);
    var k := Shr(0x80_0000 + m, 126 - e);
    assert (sign + k) % 2 == k % 2;
  }

  lemma RoundToHalfIs(sign: nat, x: nat) returns (r: nat)
    requires sign == 0 || sign == SIGN16
    requires x <= INF32
    ensures HalfRounded(x, r) && RoundToHalf(sign, x) == sign + r
  {
    if x >= 0x4780_0000 {
      r := INFF16;
    } else if x < 0x3300_0000 {
      r := 0;
      TinyNearest(x);
    } else if x < 0x3880_0000 {
      r := SubnormalCase(sign, x);
    } else {
      r := NormalCase(sign, x);
    }
  }

  /**
   * FP16 encoding of everything but NaN: the sign is kept; below the overflow threshold the result
   * is the nearest-even FP16 magnitude, subnormals and the carry into infinity included.
   */
  lemma HalfNearestEven(bits: Bits32)
    requires !IsNaN32(bits)
    ensures HalfRounded(bits % SIGN32, FloatToHalf(bits) % SIGN16)
    ensures FloatToHalf(bits) >= SIGN16 <==> bits >= SIGN32
  {
    var s := bits / SIGN32;
    var r := RoundToHalfIs(s * SIGN16, bits % SIGN32);
    Assemble(s, r);
  }

  lemma HalfKeepsNaN(bits: Bits32)
    requires IsNaN32(bits)
    ensures FloatToHalf(bits) == (if bits >= SIGN32 then SIGN16 else 0) + 0x7e00
  {
  }

  // ---------- FP16 decoding ----------

  /** The shift count after the renormalizing loop has left a leading one in bit 10. */
  function LeadingShift(m: nat): nat
    requires 0 < m < 2048
    decreases 2048 - m
  {
    if m >= 1024 then 0 else 1 + LeadingShift(2 * m)
  }

  function HalfToFloat(h: Bits16): Bits32 {
    (h / SIGN16) * SIGN32 + WidenFields((h / 1024) % 32, h % 1024)
  }

  /** The pattern that fp16_to_fp32 builds below the sign: zero or subnormal, infinity or NaN, normal. */
  function WidenFields(e: nat, mant: nat): (x: nat)
    requires e < 32 && mant < 1024
    ensures x < SIGN32
    ensures e < 31 ==> x < 0x477f_f000
  {
    if e == 0 then
      if mant == 0 then 0
      else
        LeadingShiftBound(mant);
        var shift := LeadingShift(mant);
        (113 - shift) * 0x80_0000 + (Shl(mant, shift) % 1024) * 0x2000
    else if e == 31 then INF32 + mant * 0x2000
    else (e + 112) * 0x80_0000 + mant * 0x2000
  }

  /** Infinities and NaNs keep sign and payload. */
  lemma WidenSpecial(sign: nat, mant: nat)
    requires sign < 2 && mant < 1024
    ensures sign * 0x8000 + 0x7c00 + mant < 0x1_0000
    ensures HalfToFloat(sign * 0x8000 + 0x7c00 + mant) == sign * 0x8000_0000 + 0x7f80_0000 + mant * 0x2000
  {
  }

  lemma {:induction false} LeadingShiftBound(m: nat)
    requires 0 < m < 2048
    ensures 1024 <= Shl(m, LeadingShift(m)) < 2048
    ensures LeadingShift(m) <= 10
    decreases 2048 - m
  {
    if m < 1024 {
      LeadingShiftBound(2 * m);
      var t := LeadingShift(2 * m);
      ShlAdd(m, m, t);
      if t == 10 {
        ConstantShifts(2 * m);
      }
    }
  }

  /** The renormalizing loop of the decoder. */
  method Renormalize(mant: nat) returns (shift: nat, m: nat)
    requires 0 < mant < 1024
    ensures shift == LeadingShift(mant) && m == Shl(mant, shift)
  {
    shift, m := 0, mant;
    while m < 1024
      invariant 0 < m < 2048
      invariant shift + LeadingShift(m) == LeadingShift(mant)
      invariant m == Shl(mant, shift)
      decreases 2048 - m
    {
      m := 2 * m;
      shift := shift + 1;
    }
  }

  method DecodeHalf(h: Bits16) returns (bits: Bits32)
    ensures bits == HalfToFloat(h)
  {
    var sign, e, mant := (h / SIGN16) * SIGN32, (h / 1024) % 32, h % 1024;
    if e == 0 {
      if mant == 0 {
        bits := sign;
      } else {
        LeadingShiftBound(mant);
        var shift, m := Renormalize(mant);
        bits := sign + ((113 - shift) * 0x80_0000 + (m % 1024) * 0x2000);
      }
    } else if e == 31 {
      bits := sign + (INF32 + mant * 0x2000);
    } else {
      bits := sign + ((e + 112) * 0x80_0000 + mant * 0x2000);
    }
  }

  lemma HalfFields(h: Bits16) returns (s: nat, e: nat, m: nat)
    ensures s == h / SIGN16 && e == (h / 1024) % 32 && m == h % 1024
    ensures h % SIGN16 == e * 1024 + m && h == s * SIGN16 + e * 1024 + m
  {
    s, e, m := h / SIGN16, (h / 1024) % 32, h % 1024;
  }

  lemma SignOnTop(s: nat, x: nat)
    requires s < 2 && x < SIGN32
    ensures (s * SIGN32 + x) % SIGN32 == x && (s * SIGN32 + x) / SIGN32 == s
    ensures s * SIGN32 + x >= SIGN32 <==> s == 1
  {
  }

  lemma NormalDecode(e: nat, m: nat)
    requires e >= 1 && m < 1024
    ensures Mag(FRACTION32, (e + 112) * 0x80_0000 + m * 0x2000) == Shl(Mag(FRACTION_F16, e * 1024 + m), UNIT_F16)
  {
    var k := (e + 112) * 1024 + m;
    ConstantShifts(k);
    MagExtended(FRACTION_F16, DROP_F16, k);
    Rebias(k);
  }

  lemma SubnormalDecode(m: nat, t: nat, x: nat)
    requires t <= 10 && 1024 <= Shl(m, t) < 2048
    requires x == (113 - t) * 0x80_0000 + (Shl(m, t) - 1024) * 0x2000
    ensures Mag(FRACTION32, x) == Shl(m, UNIT_F16)
  {
    MagFields(113 - t, (Shl(m, t) - 1024) * 0x2000);
    ConstantShifts(Shl(m, t));
    ShlShl(m, t, DROP_F16);
    ShlShl(m, t + DROP_F16, 112 - t);
  }

  /** Decoding is exact. */
  lemma WidenExact(e: nat, m: nat)
    requires e < 31 && m < 1024
    ensures Mag(FRACTION32, WidenFields(e, m)) == Shl(Mag(FRACTION_F16, e * 1024 + m), UNIT_F16)
  {
    hide Mag, Shl;
    if e == 0 && m == 0 {
      MagZero(FRACTION_F16);
      MagZero(FRACTION32);
      ShlZero(UNIT_F16);
    } else if e == 0 {
      LeadingShiftBound(m);
      SmallMag(m);
      SubnormalDecode(m, LeadingShift(m), WidenFields(e, m));
    } else {
      NormalDecode(e, m);
    }
  }

  function ValueF16(h: Bits16): int {
    Value32(HalfToFloat(h))
  }

  lemma HalfExact(h: Bits16)
    requires h % SIGN16 < INFF16
    ensures ValueF16(h) == Signed(h >= SIGN16, Shl(Mag(FRACTION_F16, h % SIGN16), UNIT_F16))
  {
    var s, e, m := HalfFields(h);
    SignOnTop(s, WidenFields(e, m));
    WidenExact(e, m);
  }

  /** In signed real values, as for BF16: no finite FP16 value is closer than a finite encoding. */
  lemma HalfClosest(bits: Bits32, q: Bits16)
    requires IsFinite32(bits) && FloatToHalf(bits) % SIGN16 < INFF16 && q % SIGN16 < INFF16
    ensures Closest(ValueF16(FloatToHalf(bits)), ValueF16(q), Value32(bits), FloatToHalf(bits))
  {
    var r := FloatToHalf(bits);
    HalfNearestEven(bits);
    HalfExact(r);
    HalfExact(q);
    SignedClosest(FRACTION_F16, UNIT_F16, Mag(FRACTION32, bits % SIGN32), bits >= SIGN32, r, q);
  }

  /** The nearest of two neighbours is within half their gap. */
  lemma WithinHalfGap(p: nat, n: nat, v: nat, r: nat, k: nat, gap: nat)
    requires NearestEven(p, n, v, r)
    requires Shl(Mag(p, k), n) <= v <= Shl(Mag(p, k + 1), n) == Shl(Mag(p, k), n) + gap
    ensures 2 * IntAbs(Shl(Mag(p, r), n) - v) <= gap
  {
    hide Mag;
    assert NoCloser(p, n, v, r, k) && NoCloser(p, n, v, r, k + 1);
  }

  /** A normal result is off by at most one part in 2048. */
  lemma NormalError(x: nat, r: nat)
    requires 0x3880_0000 <= x && NearestEven(FRACTION_F16, UNIT_F16, Mag(FRACTION32, x), r)
    ensures 2048 * IntAbs(Shl(Mag(FRACTION_F16, r), UNIT_F16) - Mag(FRACTION32, x)) <= Mag(FRACTION32, x)
  {
    hide Mag, Shl, Shr, Low, NearestEven, Scale;
    var k, j := Shr(x, DROP_F16), Low(x, DROP_F16);
    var s := Scale(FRACTION_F16, k);
    NormalFields(x);
    NormalGap(k);
    Rebias(k);
    SignificandBound(k);
    ShlGap(j, 2 * Shl(1, DROP_F16 - 1), s);
    ShlAdd(Shl(1, DROP_F16 - 1), Shl(1, DROP_F16 - 1), s);
    var step := Shl(Shl(1, DROP_F16 - 1), s);
    WithinHalfGap(FRACTION_F16, UNIT_F16, Mag(FRACTION32, x), r, k - 112 * 1024, 2 * step);
  }

  /** A normal significand is 2048 half steps or more. */
  lemma SignificandBound(k: nat)
    requires k >= 113 * 1024
    ensures Shl(Mag(FRACTION_F16, k), DROP_F16) >= 2048 * Shl(Shl(1, DROP_F16 - 1), Scale(FRACTION_F16, k))
  {
    var s := Scale(FRACTION_F16, k);
    ConstantShifts(1);
    ConstantShifts(Shr(k, FRACTION_F16));
    Split(k, FRACTION_F16);
    ShlAdd(Shl(1, FRACTION_F16), Low(k, FRACTION_F16), s);
    ShlAdd(Shl(Shl(1, FRACTION_F16), s), Shl(Low(k, FRACTION_F16), s), DROP_F16);
    ShlShl(1, FRACTION_F16, s);
    ShlShl(1, FRACTION_F16 + s, DROP_F16);
    ShlShl(1, DROP_F16 - 1, s);
    ShlShl(1, DROP_F16 - 1 + s, 11);
    ConstantShifts11(Shl(1, DROP_F16 - 1 + s));
  }

  lemma ConstantShifts11(a: nat)
    ensures Shl(a, 11) == 2048 * a
  {
    ConstantShifts(a);
    var n := FRACTION_F16;
    assert Shl(a, n + 1) == 2 * Shl(a, n);
  }

  /** A subnormal result is off by at most half the smallest magnitude. */
  lemma SubnormalError(x: nat, r: nat)
    requires x < 0x3880_0000 && NearestEven(FRACTION_F16, UNIT_F16, Mag(FRACTION32, x), r)
    ensures 2 * IntAbs(Shl(Mag(FRACTION_F16, r), UNIT_F16) - Mag(FRACTION32, x)) <= Shl(1, UNIT_F16)
  {
    hide Mag, Shl, Shr, Low, NearestEven;
    var v := Mag(FRACTION32, x);
    var k := Shr(v, UNIT_F16);
    SubnormalMag(x);
    Split(v, UNIT_F16);
    if k > 1024 {
      ShlGap(1024, k, UNIT_F16);
    }
    SmallMag(k);
    SmallMag(k + 1);
    ShlAdd(k, 1, UNIT_F16);
    WithinHalfGap(FRACTION_F16, UNIT_F16, v, r, k, Shl(1, UNIT_F16));
  }

  lemma SubnormalMag(x: nat)
    requires x < 0x3880_0000
    ensures Mag(FRACTION32, x) < Shl(1024, UNIT_F16)
  {
    TinyBound(x, 113);
    Shl1024(UNIT_F16);
  }

  lemma Shl1024(n: nat)
    ensures Shl(1, n + 11) == 2 * Shl(1024, n)
  {
    ConstantShifts(1);
    ShlShl(1, FRACTION_F16, n);
  }

  /** Up to half the smallest magnitude, a tie that goes to the even pattern included, the result is zero. */
  lemma ZeroIff(x: nat, r: nat)
    requires NearestEven(FRACTION_F16, UNIT_F16, Mag(FRACTION32, x), r)
    ensures r == 0 <==> x <= 0x3300_0000
  {
    var v, one := Mag(FRACTION32, x), Shl(1, UNIT_F16);
    HalfOfSmallest(x);
    MagZero(FRACTION_F16);
    SmallMag(1);
    ShlZero(UNIT_F16);
    assert NoCloser(FRACTION_F16, UNIT_F16, v, r, 0) && NoCloser(FRACTION_F16, UNIT_F16, v, r, 1);
    ShlPositive(1, UNIT_F16);
    if r > 0 {
      LargerPattern(r);
    }
    hide Mag, Shl;
  }

  lemma LargerPattern(r: nat)
    requires r > 0
    ensures Shl(Mag(FRACTION_F16, r), UNIT_F16) >= Shl(1, UNIT_F16)
    ensures r > 1 ==> Shl(Mag(FRACTION_F16, r), UNIT_F16) > Shl(1, UNIT_F16)
  {
    SmallMag(1);
    if r > 1 {
      MagIncreases(FRACTION_F16, 1, r);
      ShlGap(1, Mag(FRACTION_F16, r), UNIT_F16);
    }
  }

  lemma HalfOfSmallest(x: nat)
    ensures 2 * Mag(FRACTION32, x) <= Shl(1, UNIT_F16) <==> x <= 0x3300_0000
  {
    Threshold(102);
    if x < 0x3300_0000 {
      MagIncreases(FRACTION32, x, 0x3300_0000);
    } else if x > 0x3300_0000 {
      MagIncreases(FRACTION32, 0x3300_0000, x);
    }
  }

  lemma Threshold(e: nat)
    requires e >= 1
    ensures 2 * Mag(FRACTION32, e * 0x80_0000) == Shl(1, e + FRACTION32)
  {
    MagFields(e, 0);
    ConstantShifts(1);
    ShlShl(1, FRACTION32, e);
  }

  /**
   The FP16 encoding of a positive binary32 value: infinite from 65520 up, otherwise within one part in 2048 or, for
   subnormal results, within half the smallest magnitude; zero up to half the smallest magnitude.
   */
  lemma HalfError(x: Bits32)
    requires x <= INF32
    ensures FloatToHalf(x) <= INFF16 && (FloatToHalf(x) == INFF16 <==> x >= 0x477f_f000)
    ensures 0x3880_0000 <= x < 0x477f_f000 ==> 2048 * IntAbs(ValueF16(FloatToHalf(x)) - Value32(x)) <= Value32(x)
    ensures x < 0x3880_0000 ==> 2 * IntAbs(ValueF16(FloatToHalf(x)) - Value32(x)) <= Shl(1, UNIT_F16)
    ensures FloatToHalf(x) == 0 <==> x <= 0x3300_0000
  {
    hide Mag, Shl, NearestEven, FloatToHalf, ValueF16, Value32;
    var r := HalfParts(x);
    hide *;
    if r < INFF16 {
      ZeroIff(x, r);
      if x >= 0x3880_0000 {
        NormalError(x, r);
      } else {
        SubnormalError(x, r);
      }
    }
  }

  lemma HalfParts(x: Bits32) returns (r: nat)
    requires x <= INF32
    ensures r == FloatToHalf(x) <= INFF16 && (r == INFF16 <==> x >= 0x477f_f000) && Value32(x) == Mag(FRACTION32, x)
    ensures r < INFF16 ==> NearestEven(FRACTION_F16, UNIT_F16, Mag(FRACTION32, x), r)
    ensures r < INFF16 ==> ValueF16(r) == Shl(Mag(FRACTION_F16, r), UNIT_F16)
  {
    hide FloatToHalf, HalfRounded, NearestEven, Mag, Shl, ValueF16, Value32, Signed;
    r := FloatToHalf(x);
    HalfNearestEven(x);
    UnsignedParts(x, r);
    if r < INFF16 {
      assert r % SIGN16 == r;
      HalfExact(r);
      UnsignedHalf(r);
    }
  }

  lemma UnsignedParts(x: Bits32, r: Bits16)
    requires x <= INF32 && HalfRounded(x % SIGN32, r % SIGN16) && (r >= SIGN16 <==> x >= SIGN32)
    ensures r <= INFF16 && (r == INFF16 <==> x >= 0x477f_f000) && Value32(x) == Mag(FRACTION32, x)
    ensures r < INFF16 ==> NearestEven(FRACTION_F16, UNIT_F16, Mag(FRACTION32, x), r)
  {
    hide NearestEven, Mag, Shl;
  }

  lemma UnsignedHalf(r: Bits16)
    requires r < INFF16 && ValueF16(r) == Signed(r >= SIGN16, Shl(Mag(FRACTION_F16, r % SIGN16), UNIT_F16))
    ensures ValueF16(r) == Shl(Mag(FRACTION_F16, r), UNIT_F16)
  {
    hide ValueF16, Mag, Shl;
  }

  lemma SmallestHalf()
    ensures ValueF16(1) == Shl(1, UNIT_F16) && ValueF16(1) > 0
  {
    HalfExact(1);
    SmallMag(1);
    ShlPositive(1, UNIT_F16);
  }

  lemma ZeroHalf()
    ensures ValueF16(0) == 0
  {
    HalfExact(0);
    SmallMag(0);
    ShlZero(UNIT_F16);
  }

  /** Encoding undoes decoding for every FP16 pattern that is not NaN. */
  lemma HalfRoundTrip(h: Bits16)
    requires h % SIGN16 <= INFF16
    ensures FloatToHalf(HalfToFloat(h)) == h
  {
    hide Mag, Shl, NearestEven;
    var s, e, m := HalfFields(h);
    var x := WidenFields(e, m);
    SignOnTop(s, x);
    if e < 31 {
      WidenExact(e, m);
    }
    var r := RoundToHalfIs(s * SIGN16, x);
    if e < 31 {
      NearestOfExact(FRACTION_F16, UNIT_F16, e * 1024 + m, r);
    }
  }

  /** Every NaN half comes back as the quiet NaN of its sign, whatever its payload was. */
  lemma HalfNaNRoundTrip(h: Bits16)
    requires h % SIGN16 > INFF16
    ensures FloatToHalf(HalfToFloat(h)) == (if h >= SIGN16 then SIGN16 else 0) + 0x7e00
  {
    var s, e, m := HalfFields(h);
    SignOnTop(s, WidenFields(e, m));
    HalfKeepsNaN(HalfToFloat(h));
  }

  // ---------- buffers ----------

  datatype StorageType = F16 | BF16

  function Decode(t: StorageType, q: Bits16): Bits32 {
    match t
    case F16 => HalfToFloat(q)
    case BF16 => Bf16ToFloat(q)
  }

  function Encode(t: StorageType, bits: Bits32): Bits16 {
    match t
    case F16 => FloatToHalf(bits)
    case BF16 => FloatToBf16(bits)
  }

  /** The patterns that survive: all but NaNs, and of the NaNs only the quiet ones (BF16) or the canonical ones (FP16). */
  predicate Stable(t: StorageType, q: Bits16) {
    match t
    case F16 => q % SIGN16 <= INFF16 || q % SIGN16 == 0x7e00
    case BF16 => q % SIGN16 <= INFBF16 || (q / 64) % 2 == 1
  }

  /** Encoding undoes decoding exactly on the stable patterns. */
  lemma StorageRoundTrip(t: StorageType, q: Bits16)
    ensures Encode(t, Decode(t, q)) == q <==> Stable(t, q)
  {
    hide FloatToHalf, HalfToFloat, FloatToBf16, Bf16ToFloat;
    match t {
      case F16 =>
        if q % SIGN16 <= INFF16 {
          HalfRoundTrip(q);
        } else {
          HalfNaNRoundTrip(q);
        }
      case BF16 =>
        Bf16RoundTrip(q);
        QuietBitStable(q);
    }
  }

  /** A quiet half NaN and a signalling BF16 NaN that do not come back. */
  lemma UnstablePatterns()
    ensures Encode(F16, Decode(F16, 0x7e01)) == 0x7e00 && Encode(BF16, Decode(BF16, 0x7f81)) == 0x7fc1
  {
    hide FloatToHalf, HalfToFloat, FloatToBf16, Bf16ToFloat;
    HalfNaNRoundTrip(0x7e01);
    Bf16RoundTrip(0x7f81);
  }

  /** What both conversion loops leave behind. */
  ghost predicate Converted(t: StorageType, input: seq<Bits16>, before: seq<Bits16>, output: seq<Bits16>, count: nat)
    requires count <= |input| && count <= |before|
  {
    && |output| == |before|
    && (forall i | 0 <= i < count :: output[i] == Encode(t, Decode(t, input[i])))
    && (forall i | count <= i < |output| :: output[i] == before[i])
  }

  method ScalarRoundtrip(t: StorageType, input: array<Bits16>, scratch: array<Bits32>, output: array<Bits16>,
                         count: nat)
    requires count <= input.Length && count <= scratch.Length && count <= output.Length
    requires input != output && scratch as object != output && scratch as object != input
    modifies scratch, output
    ensures Converted(t, input[..], old(output[..]), output[..], count)
    ensures forall i | 0 <= i < count :: output[i] == input[i] <==> Stable(t, input[i])
  {
    for i := 0 to count
      invariant forall c | 0 <= c < i :: scratch[c] == Decode(t, input[c])
      invariant output[..] == old(output[..])
    {
      scratch[i] := Decode(t, input[i]);
    }
    for i := 0 to count
      invariant forall c | 0 <= c < count :: scratch[c] == Decode(t, input[c])
      invariant forall c | 0 <= c < i :: output[c] == Encode(t, scratch[c])
      invariant forall c | i <= c < output.Length :: output[c] == old(output[c])
    {
      output[i] := Encode(t, scratch[i]);
    }
    StableElements(t, input[..], output[..], count);
  }

  lemma StableElements(t: StorageType, input: seq<Bits16>, output: seq<Bits16>, count: nat)
    requires count <= |input| && count <= |output|
    requires forall i | 0 <= i < count :: output[i] == Encode(t, Decode(t, input[i]))
    ensures forall i | 0 <= i < count :: output[i] == input[i] <==> Stable(t, input[i])
  {
    forall i | 0 <= i < count ensures output[i] == input[i] <==> Stable(t, input[i]) {
      StorageRoundTrip(t, input[i]);
    }
  }

  /** Four elements at a time, then the remainder; the result is that of the plain loop. */
  method UnrolledRoundtrip(t: StorageType, input: array<Bits16>, scratch: array<Bits32>, output: array<Bits16>,
                           count: nat)
    requires count <= input.Length && count <= scratch.Length && count <= output.Length
    requires input != output && scratch as object != output && scratch as object != input
    modifies scratch, output
    ensures Converted(t, input[..], old(output[..]), output[..], count)
    ensures forall i | 0 <= i < count :: output[i] == input[i] <==> Stable(t, input[i])
  {
    DecodeUnrolled(t, input, scratch, count);
    EncodeUnrolled(t, scratch, output, count);
    StableElements(t, input[..], output[..], count);
  }

  method DecodeUnrolled(t: StorageType, input: array<Bits16>, scratch: array<Bits32>, count: nat)
    requires count <= input.Length && count <= scratch.Length && scratch as object != input
    modifies scratch
    ensures forall c | 0 <= c < count :: scratch[c] == Decode(t, input[c])
  {
    var i := 0;
    while i + 3 < count
      invariant i <= count
      invariant forall c | 0 <= c < i :: scratch[c] == Decode(t, input[c])
    {
      scratch[i] := Decode(t, input[i]);
      scratch[i + 1] := Decode(t, input[i + 1]);
      scratch[i + 2] := Decode(t, input[i + 2]);
      scratch[i + 3] := Decode(t, input[i + 3]);
      i := i + 4;
    }
    while i < count
      invariant i <= count
      invariant forall c | 0 <= c < i :: scratch[c] == Decode(t, input[c])
    {
      scratch[i] := Decode(t, input[i]);
      i := i + 1;
    }
  }

  method EncodeUnrolled(t: StorageType, scratch: array<Bits32>, output: array<Bits16>, count: nat)
    requires count <= scratch.Length && count <= output.Length && scratch as object != output
    modifies output
    ensures forall c | 0 <= c < count :: output[c] == Encode(t, scratch[c])
    ensures forall c | count <= c < output.Length :: output[c] == old(output[c])
  {
    var i := 0;
    while i + 3 < count
      invariant i <= count
      invariant forall c | 0 <= c < i :: output[c] == Encode(t, scratch[c])
      invariant forall c | i <= c < output.Length :: output[c] == old(output[c])
    {
      output[i] := Encode(t, scratch[i]);
      output[i + 1] := Encode(t, scratch[i + 1]);
      output[i + 2] := Encode(t, scratch[i + 2]);
      output[i + 3] := Encode(t, scratch[i + 3]);
      i := i + 4;
    }
    while i < count
      invariant i <= count
      invariant forall c | 0 <= c < i :: output[c] == Encode(t, scratch[c])
      invariant forall c | i <= c < output.Length :: output[c] == old(output[c])
    {
      output[i] := Encode(t, scratch[i]);
      i := i + 1;
    }
  }
}
