/**
 The uniform variate of the samplers: uniform01 of benchmarks/cases/colibri_ops.cpp and of
 kernels/sampling/sampling_ref.cpp, as the double that the code computes.
 */
module Uniform {
  import opened Arith
  import opened Bits
  import opened Rounding

  // ---------- the mixing rounds ----------

  const SEED_OFFSET: bv64 := 0x9E3779B97F4A7C15
  const LAST_CELL: bv53 := 0x1FFFFFFFFFFFFF

  // Each round is a shift folded in and, but for the last round, a multiplication.

  function Fold30(z: bv64): bv64 {
    z ^ (z >> 30)
  }

  function Fold27(z: bv64): bv64 {
    z ^ (z >> 27)
  }

  function Fold31(z: bv64): bv64 {
    z ^ (z >> 31)
  }

  function FirstTimes(z: bv64): bv64 {
    z * 0xBF58476D1CE4E5B9
  }

  function SecondTimes(z: bv64): bv64 {
    z * 0x94D049BB133111EB
  }

  function Mixed(start: bv64): bv64 {
    Fold31(SecondTimes(Fold27(FirstTimes(Fold30(start)))))
  }

  function Start(seed: bv32, row: bv64): bv64 {
    ((seed as bv64) << 32) ^ row ^ SEED_OFFSET
  }

  /** The 53 top bits of a mixed word. The benchmark has no row, which is row zero. */
  function Cell(seed: bv32, row: bv64): bv53 {
    (Mixed(Start(seed, row)) >> 11) as bv53
  }

  // ---------- the double ----------

  function Index(cell: bv53): (n: nat)
    ensures n < 0x20000000000000
  {
    cell as nat
  }

  /** cell + 0.5 as a double, in halves: from cell 2^52 up the half needs a 54th bit, which is rounded away. */
  function HalfUnits(cell: nat): nat
    requires cell < 0x20000000000000
  {
    if cell < 0x10000000000000 then 2 * cell + 1 else 2 * RoundDrop(2 * cell + 1, 1)
  }

  /** The doubles between 0 and 2^53 that are multiples of a half. */
  predicate IsDouble(halves: nat) {
    halves <= 0x40000000000000 && (halves < 0x20000000000000 || halves % 2 == 0)
  }

  lemma HalfUnitsIs(cell: nat)
    requires cell < 0x20000000000000
    ensures HalfUnits(cell)
         == if cell < 0x10000000000000 then 2 * cell + 1 else if cell % 2 == 0 then 2 * cell else 2 * cell + 2
  {
    var a := 2 * cell + 1;
    SplitUnique(a, 1, cell, 1);
    RoundFormsAgree(a, 1);
  }

  /** It is roundTiesToEven of cell + 0.5: a closest double, with an even significand when two are equally close. */
  lemma HalfUnitsNearest(cell: nat, other: nat)
    requires cell < 0x20000000000000 && IsDouble(other)
    ensures IsDouble(HalfUnits(cell))
    ensures var mine, theirs := IntAbs(HalfUnits(cell) - (2 * cell + 1)), IntAbs(other - (2 * cell + 1));
      mine <= theirs && (mine == theirs && other != HalfUnits(cell) ==> HalfUnits(cell) % 4 == 0)
  {
    HalfUnitsIs(cell);
  }

  /** The scaling by 2^-53 is exact. Only the last cell is rounded up to one. */
  function Midpoint(cell: nat): (u: real)
    requires cell < 0x20000000000000
    ensures 0.0 < u <= 1.0 && (u == 1.0 <==> cell == 0x1FFFFFFFFFFFFF)
  {
    HalfUnitsIs(cell);
    HalfUnits(cell) as real / 18014398509481984.0
  }

  function Uniform01(seed: bv32, row: bv64): (u: real)
    ensures 0.0 < u <= 1.0
  {
    Midpoint(Index(Cell(seed, row)))
  }

  /** The variate is the cell and a half over 2^53, where the half is rounded to an even double. */
  lemma VariateWrittenOut(seed: bv32, row: bv64, cell: nat)
    requires cell == Index(Cell(seed, row))
    ensures Uniform01(seed, row) * 9007199254740992.0
         == if cell < 0x10000000000000 then cell as real + 0.5 else (cell + cell % 2) as real
  {
    hide Cell, Index;
    HalfUnitsIs(cell);
  }

  /** The exact condition under which the variate is not below one. */
  lemma OneIsLastCell(seed: bv32, row: bv64)
    ensures Uniform01(seed, row) == 1.0 <==> Cell(seed, row) == LAST_CELL
  {
    LastIndex(Cell(seed, row));
    hide Cell, Midpoint, Index;
  }

  lemma LastIndex(cell: bv53)
    ensures Index(cell) == 0x1FFFFFFFFFFFFF <==> cell == LAST_CELL
  {
  }

  /** The kernel, which mixes in the row, does reach one. */
  lemma KernelReachesOne()
    ensures Cell(0xE2BCB6CF, 310006) == LAST_CELL && Uniform01(0xE2BCB6CF, 310006) == 1.0
  {
    OneIsLastCell(0xE2BCB6CF, 310006);
  }

  /** Three words, two of them of the benchmark, which has no row. */
  lemma CellExamples()
    ensures Cell(0, 0) == 0x1C4415072F63B9 && Cell(1, 0) == 0x433F827AD78B6
    ensures Cell(0xFFFFFFFF, 0xFFFFFFFFFFFFFFFF) == 0x15BDE2D9CE5F26
  {
  }

  /**
   Below one the variate stays harmless in double arithmetic. A total is m * 2^e with m of 53 bits; its product with
   h / 2^54 lies closer to the double just below m, given in halves, than to m, so rounding cannot reach the total.
   */
  lemma ProductStaysBelow(h: nat, m: nat)
    requires IsDouble(h) && h < 0x40000000000000
    requires 0x10000000000000 <= m < 0x20000000000000
    ensures var below := if m == 0x10000000000000 then 2 * m - 1 else 2 * m - 2;
      && IsDouble(below)
      && IntAbs(0x20000000000000 * below - h * m) < IntAbs(0x40000000000000 * m - h * m)
  {
    assert h <= 0x3FFFFFFFFFFFFE;
    ProductBound(h, 0x3FFFFFFFFFFFFE, m);
  }

  lemma ProductBound(x: nat, y: nat, m: nat)
    requires x <= y
    ensures x * m <= y * m
  {
  }

  // ---------- the benchmark never does ----------

  function Unfold30(y: bv64): bv64 {
    y ^ (y >> 30) ^ (y >> 60)
  }

  function Unfold27(y: bv64): bv64 {
    y ^ (y >> 27) ^ (y >> 54)
  }

  function Unfold31(y: bv64): bv64 {
    y ^ (y >> 31) ^ (y >> 62)
  }

  function FirstOver(z: bv64): bv64 {
    z * 0x96DE1B173F119089
  }

  function SecondOver(z: bv64): bv64 {
    z * 0x319642B2D24D8EC3
  }

  /** Mixing is a bijection: every step can be undone. */
  function Unmixed(w: bv64): bv64 {
    Unfold30(FirstOver(Unfold27(SecondOver(Unfold31(w)))))
  }

  lemma Folds(z: bv64)
    ensures Unfold30(z ^ (z >> 30)) == z
    ensures Unfold27(z ^ (z >> 27)) == z
    ensures Unfold31(z ^ (z >> 31)) == z
  {
  }

  lemma Products(z: bv64)
    ensures FirstOver(z * 0xBF58476D1CE4E5B9) == z
    ensures SecondOver(z * 0x94D049BB133111EB) == z
  {
  }

  lemma FoldsUndone(z: bv64)
    ensures Unfold30(Fold30(z)) == z && Unfold27(Fold27(z)) == z && Unfold31(Fold31(z)) == z
  {
    Folds(z);
    hide Unfold30, Unfold27, Unfold31;
  }

  lemma ProductsUndone(z: bv64)
    ensures FirstOver(FirstTimes(z)) == z && SecondOver(SecondTimes(z)) == z
  {
    Products(z);
    hide FirstOver, SecondOver;
  }

  lemma MixedUndone(start: bv64)
    ensures Unmixed(Mixed(start)) == start
  {
    hide Fold30, Fold27, Fold31, Unfold30, Unfold27, Unfold31, FirstTimes, FirstOver, SecondTimes, SecondOver;
    var a := Fold30(start);
    var b := Fold27(FirstTimes(a));
    FoldsUndone(SecondTimes(b));
    ProductsUndone(b);
    FoldsUndone(FirstTimes(a));
    ProductsUndone(a);
    FoldsUndone(start);
  }

  /** The row bits, below the seed, of the word that is mixed into the last cell with low bits j. */
  function RowBits(j: bv64): bv64 {
    (Unmixed(0xFFFFFFFFFFFFF800 | j) ^ SEED_OFFSET) & 0xFFFFFFFF
  }

  // None of the 2048 words of the last cell comes from row zero; 128 of them at a time.

  lemma NoRowZero0(j: bv64)
    requires 0 <= j < 128
    ensures RowBits(j) != 0
  {
  }

  lemma NoRowZero1(j: bv64)
    requires 128 <= j < 256
    ensures RowBits(j) != 0
  {
  }

  lemma NoRowZero2(j: bv64)
    requires 256 <= j < 384
    ensures RowBits(j) != 0
  {
  }

  lemma NoRowZero3(j: bv64)
    requires 384 <= j < 512
    ensures RowBits(j) != 0
  {
  }

  lemma NoRowZero4(j: bv64)
    requires 512 <= j < 640
    ensures RowBits(j) != 0
  {
  }

  lemma NoRowZero5(j: bv64)
    requires 640 <= j < 768
    ensures RowBits(j) != 0
  {
  }

  lemma NoRowZero6(j: bv64)
    requires 768 <= j < 896
    ensures RowBits(j) != 0
  {
  }

  lemma NoRowZero7(j: bv64)
    requires 896 <= j < 1024
    ensures RowBits(j) != 0
  {
  }

  lemma NoRowZero8(j: bv64)
    requires 1024 <= j < 1152
    ensures RowBits(j) != 0
  {
  }

  lemma NoRowZero9(j: bv64)
    requires 1152 <= j < 1280
    ensures RowBits(j) != 0
  {
  }

  lemma NoRowZero10(j: bv64)
    requires 1280 <= j < 1408
    ensures RowBits(j) != 0
  {
  }

  lemma NoRowZero11(j: bv64)
    requires 1408 <= j < 1536
    ensures RowBits(j) != 0
  {
  }

  lemma NoRowZero12(j: bv64)
    requires 1536 <= j < 1664
    ensures RowBits(j) != 0
  {
  }

  lemma NoRowZero13(j: bv64)
    requires 1664 <= j < 1792
    ensures RowBits(j) != 0
  {
  }

  lemma NoRowZero14(j: bv64)
    requires 1792 <= j < 1920
    ensures RowBits(j) != 0
  {
  }

  lemma NoRowZero15(j: bv64)
    requires 1920 <= j < 2048
    ensures RowBits(j) != 0
  {
  }

  lemma NoRowZero(j: bv64)
    requires j < 2048
    ensures RowBits(j) != 0
  {
    hide RowBits;
    if j < 128 {
      NoRowZero0(j);
    } else if j < 256 {
      NoRowZero1(j);
    } else if j < 384 {
      NoRowZero2(j);
    } else if j < 512 {
      NoRowZero3(j);
    } else if j < 640 {
      NoRowZero4(j);
    } else if j < 768 {
      NoRowZero5(j);
    } else if j < 896 {
      NoRowZero6(j);
    } else if j < 1024 {
      NoRowZero7(j);
    } else if j < 1152 {
      NoRowZero8(j);
    } else if j < 1280 {
      NoRowZero9(j);
    } else if j < 1408 {
      NoRowZero10(j);
    } else if j < 1536 {
      NoRowZero11(j);
    } else if j < 1664 {
      NoRowZero12(j);
    } else if j < 1792 {
      NoRowZero13(j);
    } else if j < 1920 {
      NoRowZero14(j);
    } else {
      NoRowZero15(j);
    }
  }

  lemma LastCellWord(w: bv64)
    requires (w >> 11) as bv53 == LAST_CELL
    ensures w & 0x7FF < 2048 && w == 0xFFFFFFFFFFFFF800 | (w & 0x7FF)
  {
  }

  lemma StartRowZero(seed: bv32)
    ensures (Start(seed, 0) ^ SEED_OFFSET) & 0xFFFFFFFF == 0
  {
  }

  /** Without a row, no seed is mapped to the last cell. */
  lemma BenchmarkBelowOne(seed: bv32)
    ensures Cell(seed, 0) != LAST_CELL && Uniform01(seed, 0) < 1.0
  {
    OneIsLastCell(seed, 0);
    var w := Mixed(Start(seed, 0));
    MixedUndone(Start(seed, 0));
    StartRowZero(seed);
    hide Mixed, Unmixed, Start, Uniform01;
    if Cell(seed, 0) == LAST_CELL {
      LastCellWord(w);
      NoRowZero(w & 0x7FF);
      assert false;
    }
  }
}
