/** Integer arithmetic on products, quotients and row-major indices. */
module Arith {

  lemma MulSucc(x: int, y: int)
    ensures (x + 1) * y == x * y + y
  {
  }

  lemma MulAdd(x: int, y: int, z: int)
    ensures (x + y) * z == x * z + y * z
  {
  }

  lemma MulAssoc(x: int, y: int, z: int)
    ensures x * y * z == x * (y * z)
  {
  }

  lemma MulComm(x: int, y: int)
    ensures x * y == y * x
  {
  }

  lemma MulMono(x: int, y: int, z: nat)
    requires x <= y
    ensures x * z <= y * z
  {
  }

  lemma MulGap(x: int, y: int, z: nat)
    requires x < y
    ensures x * z + z <= y * z
  {
    MulMono(x + 1, y, z);
    MulSucc(x, z);
  }

  function Min(a: nat, b: nat): nat {
    if b < a then b else a
  }

  /** The magnitude of an integer. */
  function IntAbs(x: int): nat {
    if x < 0 then -x else x
  }

  /** a / d for natural numbers. */
  function Quot(a: nat, d: nat): (q: nat)
    requires d > 0
  {
    if a < d then 0 else 1 + Quot(a - d, d)
  }

  /** a % d for natural numbers. */
  function Rem(a: nat, d: nat): (r: nat)
    requires d > 0
    ensures r < d
  {
    if a < d then a else Rem(a - d, d)
  }

  lemma {:induction false} QuotRem(a: nat, d: nat)
    requires d > 0
    ensures a == Quot(a, d) * d + Rem(a, d)
  {
    if a >= d {
      QuotRem(a - d, d);
      MulSucc(Quot(a - d, d), d);
    }
  }

  /** Quotient and remainder are determined by their defining equation. */
  lemma {:induction false} QuotRemUnique(a: nat, d: nat, q: nat, r: nat)
    requires d > 0 && a == q * d + r && r < d
    ensures Quot(a, d) == q && Rem(a, d) == r
  {
    if q > 0 {
      MulSucc(q - 1, d);
      MulMono(0, q - 1, d);
      QuotRemUnique(a - d, d, q - 1, r);
    }
  }

  lemma DivMod(a: nat, d: nat)
    requires d > 0
    ensures a / d == Quot(a, d) && a % d == Rem(a, d)
  {
    QuotRemUnique(a, d, a / d, a % d);
  }

  function Pow2(n: nat): (r: nat)
    ensures r >= 1
  {
    if n == 0 then 1 else 2 * Pow2(n - 1)
  }

  lemma {:induction false} Pow2Add(a: nat, b: nat)
    ensures Pow2(a + b) == Pow2(a) * Pow2(b)
  {
    if a > 0 {
      Pow2Add(a - 1, b);
      MulAssoc(2, Pow2(a - 1), Pow2(b));
    }
  }

  // ---------- row-major indices ----------

  /** r * w + c, by repeated addition: the index of column c of row r in a matrix of width w. */
  function Flat(r: nat, w: nat, c: nat): nat
    decreases r, w, c
  {
    if r == 0 then c else Flat(r - 1, w, c) + w
  }

  lemma {:induction false} FlatProduct(r: nat, w: nat, c: nat)
    ensures Flat(r, w, c) == r * w + c
    decreases r
  {
    if r > 0 {
      FlatProduct(r - 1, w, c);
      MulSucc(r - 1, w);
    }
  }

  /** The same index, as the sources compute it. */
  function RowMajor(r: nat, w: nat, c: nat): (i: nat)
    ensures i == Flat(r, w, c)
  {
    FlatProduct(r, w, c);
    r * w + c
  }

  lemma {:induction false} FlatShift(r: nat, w: nat, c: nat, d: nat)
    ensures Flat(r, w, c + d) == Flat(r, w, c) + d
    decreases r
  {
    if r > 0 {
      FlatShift(r - 1, w, c, d);
    }
  }

  /** The end of a row is the start of the next. */
  lemma FlatNext(r: nat, w: nat)
    ensures Flat(r, w, w) == Flat(r + 1, w, 0) && Flat(0, w, 0) == 0
  {
    FlatShift(r, w, 0, w);
  }

  /** Whole rows come before the rows that follow them. */
  lemma {:induction false} FlatOrder(a: nat, b: nat, w: nat, c: nat, d: nat)
    requires a < b && c < w
    ensures Flat(a, w, c) < Flat(b, w, d)
    ensures Flat(a, w, c) + (w - c) <= Flat(b, w, 0)
    decreases b
  {
    if a == b - 1 {
      FlatShift(a, w, 0, c);
      FlatShift(b - 1, w, 0, d);
    } else {
      FlatOrder(a, b - 1, w, c, d);
    }
    if b > 0 {
      FlatShift(b, w, 0, d);
    }
  }

  lemma FlatInjective(a: nat, b: nat, w: nat, c: nat, d: nat)
    requires c < w && d < w && Flat(a, w, c) == Flat(b, w, d)
    ensures a == b && c == d
  {
    if a < b {
      FlatOrder(a, b, w, c, d);
    } else if b < a {
      FlatOrder(b, a, w, d, c);
    } else {
      FlatShift(a, w, 0, c);
      FlatShift(a, w, 0, d);
    }
  }

  lemma {:induction false} FlatFlat(a: nat, m: nat, b: nat, n: nat, c: nat)
    ensures Flat(Flat(a, m, b), n, c) == Flat(a, Flat(m, n, 0), Flat(b, n, c))
    decreases a
  {
    if a > 0 {
      FlatFlat(a - 1, m, b, n, c);
      FlatSum(Flat(a - 1, m, b), m, n, c);
    }
  }

  lemma {:induction false} FlatSum(a: nat, b: nat, w: nat, c: nat)
    ensures Flat(a + b, w, c) == Flat(a, w, c) + Flat(b, w, 0)
    decreases b
  {
    if b > 0 {
      FlatSum(a, b - 1, w, c);
    }
  }

  /** Every index below n rows is in exactly one row and column. */
  lemma FlatSplit(i: nat, n: nat, w: nat)
    requires i < Flat(n, w, 0)
    ensures w > 0 && Quot(i, w) < n && i == Flat(Quot(i, w), w, Rem(i, w))
  {
    if w == 0 {
      FlatProduct(n, w, 0);
    }
    var q, r := Quot(i, w), Rem(i, w);
    QuotRem(i, w);
    FlatProduct(q, w, r);
    if q >= n {
      FlatProduct(n, w, 0);
      MulMono(n, q, w);
    }
  }

  lemma FlatQuotRem(q: nat, w: nat, r: nat)
    requires r < w
    ensures Quot(Flat(q, w, r), w) == q && Rem(Flat(q, w, r), w) == r
  {
    FlatProduct(q, w, r);
    QuotRemUnique(Flat(q, w, r), w, q, r);
  }

  // ---------- tiles ----------

  /** Position k of whole tile o of a line. */
  lemma InTile(size: nat, tile: nat, o: nat, k: nat)
    requires tile > 0 && o < Quot(size, tile) && k < tile
    ensures Flat(o, tile, k) < size
  {
    QuotRem(size, tile);
    FlatProduct(Quot(size, tile), tile, 0);
    FlatOrder(o, Quot(size, tile), tile, k, 0);
  }

  /** A line of whole tiles has every position in one of them. */
  lemma TileOf(size: nat, tile: nat, i: nat)
    requires tile > 0 && Rem(size, tile) == 0 && i < size
    ensures Quot(i, tile) < Quot(size, tile) && Flat(Quot(i, tile), tile, Rem(i, tile)) == i
  {
    QuotRem(size, tile);
    FlatProduct(Quot(size, tile), tile, 0);
    FlatSplit(i, Quot(size, tile), tile);
  }
}
