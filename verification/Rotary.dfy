/**
 Positioned and multimodal rotary embedding: the reference of benchmarks/cases/rotary_extended.cpp and the grouped
 row kernel of kernels/attention/rotary_positioned_ref.cpp.
 */
module Rotary {
  import opened Arith
  import opened Reals
  import opened Rows
  import opened Sums

  datatype Config = Config(cosine: seq<real>, sine: seq<real>, positions: seq<nat>, section0: nat, section1: nat,
                           section2: nat, batch: nat, heads: nat, tokens: nat, headDim: nat, pairs: nat, maxPosition: nat,
                           interleaved: bool, multimodal: bool, perBatch: bool)

  function RotaryDim(g: Config): nat {
    2 * g.pairs
  }

  /** Sections that the kernel accepts for the pairs of a row. */
  predicate ValidSections(g: Config) {
    && g.section0 + g.section1 + g.section2 == g.pairs
    && (g.interleaved ==>
          g.section0 == (g.pairs + 2) / 3 && g.section1 == (g.pairs + 1) / 3 && g.section2 == g.pairs / 3)
  }

  function Axes(g: Config): nat {
    if g.multimodal then 3 else 1
  }

  predicate Valid(g: Config) {
    && RotaryDim(g) <= g.headDim && (g.multimodal ==> ValidSections(g))
    && |g.cosine| == |g.sine| == Flat(g.maxPosition, g.pairs, 0)
    && |g.positions| == Flat(Flat(if g.perBatch then g.batch else 1, Axes(g), 0), g.tokens, 0)
    && forall i | 0 <= i < |g.positions| :: g.positions[i] < g.maxPosition
  }

  // ---------- which elements a pair rotates ----------

  function First(g: Config, pair: nat): nat {
    if !g.multimodal && g.interleaved then 2 * pair else pair
  }

  function Second(g: Config, pair: nat): nat {
    if !g.multimodal && g.interleaved then 2 * pair + 1 else g.pairs + pair
  }

  /** The pair that rotates element d. */
  function PairOf(g: Config, d: nat): nat {
    if !g.multimodal && g.interleaved then d / 2 else if d < g.pairs then d else d - g.pairs
  }

  /** The pairs partition the rotated elements, in both layouts. */
  lemma PairsPartition(g: Config, d: nat)
    requires d < RotaryDim(g)
    ensures var p := PairOf(g, d);
      && p < g.pairs && (d == First(g, p) || d == Second(g, p)) && First(g, p) != Second(g, p)
      && forall q: nat | q < g.pairs && (d == First(g, q) || d == Second(g, q)) :: q == p
  {
  }

  lemma PairInRow(g: Config, pair: nat)
    requires pair < g.pairs
    ensures First(g, pair) < RotaryDim(g) && Second(g, pair) < RotaryDim(g) && First(g, pair) != Second(g, pair)
    ensures forall q: nat | q < g.pairs && q != pair ::
      First(g, q) != First(g, pair) && First(g, q) != Second(g, pair)
      && Second(g, q) != First(g, pair) && Second(g, q) != Second(g, pair)
  {
  }

  // ---------- which position a pair uses ----------

  function AxisOf(g: Config, pair: nat): (axis: nat)
    ensures axis < Axes(g)
  {
    if !g.multimodal then 0
    else if g.interleaved then pair % 3
    else if pair < g.section0 then 0
    else if pair < g.section0 + g.section1 then 1
    else 2
  }

  /** How many of the first n pairs use an axis. */
  function AxisCount(g: Config, axis: nat, n: nat): nat {
    if n == 0 then 0 else AxisCount(g, axis, n - 1) + (if AxisOf(g, n - 1) == axis then 1 else 0)
  }

  lemma {:induction false} InterleavedCounts(g: Config, n: nat)
    requires g.multimodal && g.interleaved
    ensures AxisCount(g, 0, n) == (n + 2) / 3 && AxisCount(g, 1, n) == (n + 1) / 3 && AxisCount(g, 2, n) == n / 3
    decreases n
  {
    if n > 0 {
      InterleavedCounts(g, n - 1);
    }
  }

  lemma {:induction false} SectionCounts(g: Config, n: nat)
    requires g.multimodal && !g.interleaved
    ensures var a, b := g.section0, g.section1;
      && AxisCount(g, 0, n) == (if n < a then n else a)
      && AxisCount(g, 1, n) == (if n < a then 0 else if n < a + b then n - a else b)
      && AxisCount(g, 2, n) == (if n < a + b then 0 else n - a - b)
    decreases n
  {
    if n > 0 {
      SectionCounts(g, n - 1);
    }
  }

  /** The section sizes are the numbers of pairs each axis rotates, in both layouts. */
  lemma SectionsCountPairs(g: Config)
    requires g.multimodal && ValidSections(g)
    ensures g.section0 == AxisCount(g, 0, g.pairs)
    ensures g.section1 == AxisCount(g, 1, g.pairs)
    ensures g.section2 == AxisCount(g, 2, g.pairs)
  {
    if g.interleaved {
      InterleavedCounts(g, g.pairs);
    } else {
      SectionCounts(g, g.pairs);
    }
  }

  /** The section sizes that make_rotary fills in: the kernel accepts them, and they count the pairs of every axis. */
  method MakeSections(g: Config) returns (r: Config)
    requires g.multimodal
    ensures r == g.(section0 := r.section0, section1 := r.section1, section2 := r.section2) && ValidSections(r)
    ensures r.section0 == AxisCount(r, 0, r.pairs)
    ensures r.section1 == AxisCount(r, 1, r.pairs)
    ensures r.section2 == AxisCount(r, 2, r.pairs)
  {
    r := g;
    if g.interleaved {
      r := r.(section0 := (g.pairs + 2) / 3);
      r := r.(section1 := (g.pairs + 1) / 3);
      r := r.(section2 := g.pairs / 3);
    } else {
      r := r.(section0 := g.pairs / 2);
      r := r.(section1 := g.pairs / 3);
      r := r.(section2 := g.pairs - r.section0 - r.section1);
    }
    SectionsCountPairs(r);
  }

  predicate RowIn(g: Config, item: nat, token: nat) {
    item < g.batch && token < g.tokens
  }

  /** The position of a token on one axis. */
  function PositionAt(g: Config, item: nat, token: nat, axis: nat): (position: nat)
    requires Valid(g) && RowIn(g, item, token) && axis < Axes(g)
    ensures position < g.maxPosition
  {
    var base := if g.perBatch then item else 0;
    FlatOrder(base, if g.perBatch then g.batch else 1, Axes(g), axis, 0);
    FlatOrder(Flat(base, Axes(g), axis), Flat(if g.perBatch then g.batch else 1, Axes(g), 0), g.tokens, token, 0);
    g.positions[Flat(Flat(base, Axes(g), axis), g.tokens, token)]
  }

  function PositionOf(g: Config, item: nat, token: nat, pair: nat): (position: nat)
    requires Valid(g) && RowIn(g, item, token)
    ensures position < g.maxPosition
  {
    PositionAt(g, item, token, AxisOf(g, pair))
  }

  /** Cosine and sine of a pair of a row. */
  function AngleOf(g: Config, item: nat, token: nat, pair: nat): (real, real)
    requires Valid(g) && RowIn(g, item, token) && pair < g.pairs
  {
    var position := PositionOf(g, item, token, pair);
    FlatOrder(position, g.maxPosition, g.pairs, pair, 0);
    (g.cosine[Flat(position, g.pairs, pair)], g.sine[Flat(position, g.pairs, pair)])
  }

  // ---------- rotating a row ----------

  function Angles(g: Config, item: nat, token: nat): (angles: seq<(real, real)>)
    requires Valid(g) && RowIn(g, item, token)
    ensures |angles| == g.pairs
  {
    seq(g.pairs, pair requires 0 <= pair < g.pairs => AngleOf(g, item, token, pair))
  }

  /** y is x with every pair rotated by its angle, and the tail copied. */
  ghost predicate Rotated(g: Config, angles: seq<(real, real)>, x: seq<real>, y: seq<real>) {
    && |angles| == g.pairs && |x| == |y| == g.headDim && RotaryDim(g) <= g.headDim
    && (forall pair: nat | pair < g.pairs :: PairRotated(g, angles, x, y, pair))
    && forall d | RotaryDim(g) <= d < g.headDim :: y[d] == x[d]
  }

  ghost predicate PairRotated(g: Config, angles: seq<(real, real)>, x: seq<real>, y: seq<real>, pair: nat)
    requires pair < g.pairs == |angles| && |x| == |y| && RotaryDim(g) <= |x|
  {
    PairInRow(g, pair);
    var (c, s) := angles[pair];
    && y[First(g, pair)] == Times(x[First(g, pair)], c) - Times(x[Second(g, pair)], s)
    && y[Second(g, pair)] == Times(x[Second(g, pair)], c) + Times(x[First(g, pair)], s)
  }

  /** The rotation is a function of the row. */
  lemma RotationUnique(g: Config, angles: seq<(real, real)>, x: seq<real>, y: seq<real>, z: seq<real>)
    requires Rotated(g, angles, x, y) && Rotated(g, angles, x, z)
    ensures y == z
  {
    hide Times;
    forall d | 0 <= d < g.headDim ensures y[d] == z[d] {
      if d < RotaryDim(g) {
        PairsPartition(g, d);
        assert PairRotated(g, angles, x, y, PairOf(g, d)) && PairRotated(g, angles, x, z, PairOf(g, d));
      }
    }
  }

  function Negated(angles: seq<(real, real)>): (r: seq<(real, real)>)
    ensures |r| == |angles|
  {
    seq(|angles|, i requires 0 <= i < |angles| => (angles[i].0, -angles[i].1))
  }

  predicate UnitAngles(angles: seq<(real, real)>) {
    forall i | 0 <= i < |angles| :: Times(angles[i].0, angles[i].0) + Times(angles[i].1, angles[i].1) == 1.0
  }

  /** Negating the sine table undoes the rotation. */
  lemma NegatedUndoes(g: Config, angles: seq<(real, real)>, x: seq<real>, y: seq<real>)
    requires Rotated(g, angles, x, y) && UnitAngles(angles)
    ensures Rotated(g, Negated(angles), y, x)
  {
    forall pair: nat | pair < g.pairs ensures PairRotated(g, Negated(angles), y, x, pair) {
      assert PairRotated(g, angles, x, y, pair);
      PairInRow(g, pair);
      var (c, s) := angles[pair];
      hide Times, Rotated;
      Undo(x[First(g, pair)], x[Second(g, pair)], c, s);
    }
  }

  lemma Undo(a: real, b: real, c: real, s: real)
    requires Times(c, c) + Times(s, s) == 1.0
    ensures var u, v := Times(a, c) - Times(b, s), Times(b, c) + Times(a, s);
      && a == Times(u, c) - Times(v, -s) && b == Times(v, c) + Times(u, -s)
  {
    var u, v := Times(a, c) - Times(b, s), Times(b, c) + Times(a, s);
    Negate(v, s);
    Negate(u, s);
    Combine(a, b, c, s);
    Combine(b, -a, c, s);
    NegateFirst(a, s);
    NegateFirst(a, c);
  }

  lemma Negate(x: real, y: real)
    ensures Times(x, -y) == -Times(x, y)
  {
  }

  lemma NegateFirst(x: real, y: real)
    ensures Times(-x, y) == -Times(x, y)
  {
  }

  /** (a c - b s) c + (b c + a s) s = a (c^2 + s^2) */
  lemma Combine(a: real, b: real, c: real, s: real)
    requires Times(c, c) + Times(s, s) == 1.0
    ensures Times(Times(a, c) - Times(b, s), c) + Times(Times(b, c) + Times(a, s), s) == a
  {
    hide Times;
    TimesAdd(Times(a, c), Times(b, s), c);
    TimesAdd(Times(b, c), Times(a, s), s);
    TimesAssoc(a, c, c);
    TimesAssoc(a, s, s);
    TimesAssoc(b, s, c);
    TimesAssoc(b, c, s);
    TimesComm(s, c);
    TimesComm(a, Times(c, c) + Times(s, s));
    TimesAdd(Times(c, c), Times(s, s), a);
    TimesComm(a, Times(c, c));
    TimesComm(a, Times(s, s));
    TimesZero(a);
  }

  // ---------- the sum of squares ----------

  function Square(x: seq<real>, d: nat): real {
    if d < |x| then Times(x[d], x[d]) else 0.0
  }

  function Squares(x: seq<real>): nat -> real {
    (d: nat) => Square(x, d)
  }

  /** The sum of squares of a row. */
  function Energy(x: seq<real>): real {
    SumTo(Squares(x), |x|)
  }

  function PairEnergy(g: Config, x: seq<real>): nat -> real
    requires RotaryDim(g) <= |x|
  {
    (pair: nat) => Square(x, First(g, pair)) + Square(x, Second(g, pair))
  }

  lemma {:induction false} SumConcat(f: nat -> real, h: nat -> real, n: nat, m: nat)
    requires forall k: nat | k < m :: f(n + k) == h(k)
    ensures SumTo(f, n + m) == SumTo(f, n) + SumTo(h, m)
    decreases m
  {
    if m > 0 {
      SumConcat(f, h, n, m - 1);
      assert f(n + (m - 1)) == h(m - 1);
    }
  }

  lemma {:induction false} SumPairwise(f: nat -> real, h: nat -> real, n: nat)
    requires forall k: nat | k < n :: h(k) == f(2 * k) + f(2 * k + 1)
    ensures SumTo(f, 2 * n) == SumTo(h, n)
    decreases n
  {
    if n > 0 {
      SumPairwise(f, h, n - 1);
      assert h(n - 1) == f(2 * (n - 1)) + f(2 * (n - 1) + 1);
      assert 2 * n - 1 == 2 * (n - 1) + 1;
    }
  }

  lemma {:induction false} SumAdd(f: nat -> real, h: nat -> real, e: nat -> real, n: nat)
    requires forall k: nat | k < n :: e(k) == f(k) + h(k)
    ensures SumTo(e, n) == SumTo(f, n) + SumTo(h, n)
    decreases n
  {
    if n > 0 {
      SumAdd(f, h, e, n - 1);
    }
  }

  /** The rotated elements' squares, summed pair by pair. */
  lemma EnergyByPairs(g: Config, x: seq<real>)
    requires RotaryDim(g) <= |x|
    ensures SumTo(Squares(x), RotaryDim(g)) == SumTo(PairEnergy(g, x), g.pairs)
  {
    if !g.multimodal && g.interleaved {
      SumPairwise(Squares(x), PairEnergy(g, x), g.pairs);
    } else {
      SplitEnergy(g, x);
    }
  }

  function Upper(g: Config, x: seq<real>): nat -> real {
    (k: nat) => Square(x, g.pairs + k)
  }

  lemma SplitEnergy(g: Config, x: seq<real>)
    requires RotaryDim(g) <= |x| && (g.multimodal || !g.interleaved)
    ensures SumTo(Squares(x), RotaryDim(g)) == SumTo(PairEnergy(g, x), g.pairs)
  {
    hide Square;
    SumConcat(Squares(x), Upper(g, x), g.pairs, g.pairs);
    SumAdd(Squares(x), Upper(g, x), PairEnergy(g, x), g.pairs);
  }

  lemma PairKeepsEnergy(a: real, b: real, c: real, s: real)
    requires Times(c, c) + Times(s, s) == 1.0
    ensures var u, v := Times(a, c) - Times(b, s), Times(b, c) + Times(a, s);
      Times(u, u) + Times(v, v) == Times(a, a) + Times(b, b)
  {
    var u, v := Times(a, c) - Times(b, s), Times(b, c) + Times(a, s);
    Combine(a, b, c, s);
    Combine(b, -a, c, s);
    Expand(a, b, c, s, u, v);
  }

  /** u^2 + v^2 = a (u c + v s) + b (v c - u s) */
  lemma Expand(a: real, b: real, c: real, s: real, u: real, v: real)
    requires u == Times(a, c) - Times(b, s) && v == Times(b, c) + Times(a, s)
    requires Times(u, c) + Times(v, s) == a
    requires Times(Times(b, c) - Times(-a, s), c) + Times(Times(-a, c) + Times(b, s), s) == b
    ensures Times(u, u) + Times(v, v) == Times(a, a) + Times(b, b)
  {
    NegateFirst(a, s);
    NegateFirst(a, c);
    NegateFirst(u, s);
    hide Times;
    assert Times(v, c) + Times(-u, s) == b;
    TimesAdd(Times(a, c), Times(b, s), u);
    TimesComm(u, u);
    TimesAdd(Times(b, c), Times(a, s), v);
    Rearrange(a, c, u);
    Rearrange(b, s, u);
    Rearrange(b, c, v);
    Rearrange(a, s, v);
    Distribute(a, Times(u, c), Times(v, s));
    Distribute(b, Times(v, c), Times(-u, s));
    Negate(b, Times(u, s));
  }

  lemma Rearrange(a: real, c: real, u: real)
    ensures Times(Times(a, c), u) == Times(a, Times(u, c))
  {
    hide Times;
    TimesAssoc(a, c, u);
    TimesComm(c, u);
  }

  lemma Distribute(a: real, x: real, y: real)
    ensures Times(a, x + y) == Times(a, x) + Times(a, y)
  {
  }

  /** Unit angles keep the sum of squares of every row. */
  lemma RotationKeepsEnergy(g: Config, angles: seq<(real, real)>, x: seq<real>, y: seq<real>)
    requires Rotated(g, angles, x, y) && UnitAngles(angles)
    ensures Energy(y) == Energy(x)
  {
    EnergyByPairs(g, x);
    EnergyByPairs(g, y);
    forall pair: nat | pair < g.pairs ensures PairEnergy(g, y)(pair) == PairEnergy(g, x)(pair) {
      SamePairEnergy(g, angles, x, y, pair);
    }
    SumSame(PairEnergy(g, y), PairEnergy(g, x), g.pairs);
    TailKeepsEnergy(g, x, y);
  }

  function Tail(g: Config, x: seq<real>): nat -> real {
    (k: nat) => Square(x, RotaryDim(g) + k)
  }

  lemma TailKeepsEnergy(g: Config, x: seq<real>, y: seq<real>)
    requires |x| == |y| == g.headDim && RotaryDim(g) <= g.headDim
    requires forall d | RotaryDim(g) <= d < g.headDim :: y[d] == x[d]
    requires SumTo(Squares(y), RotaryDim(g)) == SumTo(Squares(x), RotaryDim(g))
    ensures Energy(y) == Energy(x)
  {
    var m := g.headDim - RotaryDim(g);
    SumConcat(Squares(x), Tail(g, x), RotaryDim(g), m);
    SumConcat(Squares(y), Tail(g, y), RotaryDim(g), m);
    SumSame(Tail(g, y), Tail(g, x), m);
  }

  lemma SamePairEnergy(g: Config, angles: seq<(real, real)>, x: seq<real>, y: seq<real>, pair: nat)
    requires Rotated(g, angles, x, y) && UnitAngles(angles) && pair < g.pairs
    ensures PairEnergy(g, y)(pair) == PairEnergy(g, x)(pair)
  {
    assert PairRotated(g, angles, x, y, pair);
    PairInRow(g, pair);
    hide Times;
    PairKeepsEnergy(x[First(g, pair)], x[Second(g, pair)], angles[pair].0, angles[pair].1);
  }

  // ---------- multimodal against positioned ----------

  /** A multimodal row whose three axes share one position rotates like a positioned split-half row. */
  lemma EqualAxesIsPositioned(m: Config, p: Config, item: nat, token: nat, x: seq<real>, y: seq<real>)
    requires Valid(m) && Valid(p) && m.multimodal && !p.multimodal && !p.interleaved
    requires m.headDim == p.headDim && m.pairs == p.pairs && m.cosine == p.cosine && m.sine == p.sine
    requires m.maxPosition == p.maxPosition && RowIn(m, item, token) && RowIn(p, item, token)
    requires forall axis: nat | axis < 3 :: PositionAt(m, item, token, axis) == PositionAt(p, item, token, 0)
    ensures Rotated(m, Angles(m, item, token), x, y) <==> Rotated(p, Angles(p, item, token), x, y)
  {
    forall pair | 0 <= pair < m.pairs ensures AngleOf(m, item, token, pair) == AngleOf(p, item, token, pair) {
    }
    var angles := Angles(m, item, token);
    assert angles == Angles(p, item, token);
    hide Angles, Valid, Times;
    if Rotated(m, angles, x, y) {
      forall pair: nat | pair < p.pairs ensures PairRotated(p, angles, x, y, pair) {
        assert PairRotated(m, angles, x, y, pair);
      }
    }
    if Rotated(p, angles, x, y) {
      forall pair: nat | pair < m.pairs ensures PairRotated(m, angles, x, y, pair) {
        assert PairRotated(p, angles, x, y, pair);
      }
    }
  }

  // ---------- the row loops ----------

  /** The first n pairs of a row are rotated. */
  ghost predicate PairsDone(g: Config, angles: seq<(real, real)>, x: seq<real>, y: seq<real>, n: nat) {
    && |angles| == g.pairs && |x| == |y| == g.headDim && RotaryDim(g) <= g.headDim && n <= g.pairs
    && forall pair: nat | pair < n :: PairRotated(g, angles, x, y, pair)
  }

  lemma PairDone(g: Config, angles: seq<(real, real)>, x: seq<real>, before: seq<real>, after: seq<real>, n: nat)
    requires PairsDone(g, angles, x, before, n) && n < g.pairs && |after| == g.headDim
    requires forall d | 0 <= d < g.headDim && d != First(g, n) && d != Second(g, n) :: after[d] == before[d]
    requires PairRotated(g, angles, x, after, n)
    ensures PairsDone(g, angles, x, after, n + 1)
  {
    hide Times;
    PairInRow(g, n);
    var next := n + 1;
    forall pair: nat | pair < next ensures PairRotated(g, angles, x, after, pair) {
      if pair < n {
        assert PairRotated(g, angles, x, before, pair);
        PairInRow(g, pair);
      }
    }
  }

  /** A row of the input and of the output, and the angles that belong to it. */
  ghost predicate Turning(g: Config, item: nat, token: nat, x: seq<real>, row: nat, before: seq<real>, out: array<real>,
                          n: nat)
    reads out
  {
    && Valid(g) && RowIn(g, item, token) && row + g.headDim <= |x| && row + g.headDim <= out.Length
    && Framed(before, out[..], row, g.headDim)
    && PairsDone(g, Angles(g, item, token), x[row..row + g.headDim], out[row..row + g.headDim], n)
  }

  /** One pair of a row, given the axis its position comes from. */
  method RotatePair(g: Config, item: nat, token: nat, x: seq<real>, row: nat, ghost before: seq<real>, out: array<real>,
                    pair: nat, axis: nat)
    requires pair < g.pairs && axis == AxisOf(g, pair) && Turning(g, item, token, x, row, before, out, pair)
    modifies out
    ensures Turning(g, item, token, x, row, before, out, pair + 1)
  {
    hide Times, PairsDone, AngleOf, Angles, PositionOf, AxisOf, Framed;
    assert RotaryDim(g) <= g.headDim;
    PairInRow(g, pair);
    AngleIs(g, item, token, pair);
    hide Valid, First, Second;
    var c, s := ReadAngle(g, item, token, pair, axis);
    ghost var xs, middle := x[row..row + g.headDim], out[row..row + g.headDim];
    var first, second := First(g, pair), Second(g, pair);
    var a, b := x[row + first], x[row + second];
    assert a == xs[first] && b == xs[second];
    StoreTwo(before, out, row, g.headDim, first, second, Times(a, c) - Times(b, s), Times(b, c) + Times(a, s));
    WrittenPair(g, Angles(g, item, token), xs, middle, out[row..row + g.headDim], pair, first, second);
  }

  /** Writes two elements of a row. */
  method StoreTwo(ghost before: seq<real>, out: array<real>, row: nat, n: nat, first: nat, second: nat, u: real, v: real)
    requires row + n <= out.Length && first < n && second < n && first != second && Framed(before, out[..], row, n)
    modifies out
    ensures out[row..row + n] == old(out[row..row + n])[first := u][second := v]
    ensures Framed(before, out[..], row, n)
  {
    ghost var whole := out[..];
    out[row + first] := u;
    out[row + second] := v;
    FramedStep(before, whole, out[..], row, n, row + first, row + second);
  }

  lemma FramedStep(before: seq<real>, middle: seq<real>, after: seq<real>, at: nat, n: nat, i: nat, j: nat)
    requires Framed(before, middle, at, n) && |after| == |middle| && at <= i < at + n && at <= j < at + n
    requires forall k | 0 <= k < |after| && k != i && k != j :: after[k] == middle[k]
    ensures Framed(before, after, at, n)
  {
  }

  lemma WrittenPair(g: Config, angles: seq<(real, real)>, x: seq<real>, before: seq<real>, after: seq<real>, pair: nat,
                    first: nat, second: nat)
    requires PairsDone(g, angles, x, before, pair) && pair < g.pairs
    requires first == First(g, pair) < g.headDim && second == Second(g, pair) < g.headDim
    requires var (c, s) := angles[pair];
      after == before[first := Times(x[first], c) - Times(x[second], s)]
                     [second := Times(x[second], c) + Times(x[first], s)]
    ensures PairsDone(g, angles, x, after, pair + 1)
  {
    hide Times;
    PairInRow(g, pair);
    PairDone(g, angles, x, before, after, pair);
  }

  lemma AngleIs(g: Config, item: nat, token: nat, pair: nat)
    requires Valid(g) && RowIn(g, item, token) && pair < g.pairs
    ensures Angles(g, item, token)[pair] == AngleOf(g, item, token, pair)
  {
  }

  method ReadAngle(g: Config, item: nat, token: nat, pair: nat, axis: nat) returns (c: real, s: real)
    requires Valid(g) && RowIn(g, item, token) && pair < g.pairs && axis == AxisOf(g, pair)
    ensures (c, s) == AngleOf(g, item, token, pair)
  {
    var base := if g.perBatch then item else 0;
    FlatOrder(base, if g.perBatch then g.batch else 1, Axes(g), axis, 0);
    FlatOrder(Flat(base, Axes(g), axis), Flat(if g.perBatch then g.batch else 1, Axes(g), 0), g.tokens, token, 0);
    hide RowMajor;
    var position := g.positions[RowMajor(RowMajor(base, Axes(g), axis), g.tokens, token)];
    FlatOrder(position, g.maxPosition, g.pairs, pair, 0);
    var table := RowMajor(position, g.pairs, pair);
    c, s := g.cosine[table], g.sine[table];
  }

  lemma NoPairs(g: Config, angles: seq<(real, real)>, x: seq<real>, y: seq<real>)
    requires |angles| == g.pairs && |x| == |y| == g.headDim && RotaryDim(g) <= g.headDim
    ensures PairsDone(g, angles, x, y, 0)
  {
  }

  /** The copy of the elements past the rotated ones. */
  method CopyTail(g: Config, item: nat, token: nat, x: seq<real>, row: nat, ghost before: seq<real>, out: array<real>)
    requires Turning(g, item, token, x, row, before, out, g.pairs)
    modifies out
    ensures Framed(before, out[..], row, g.headDim)
    ensures Rotated(g, Angles(g, item, token), x[row..row + g.headDim], out[row..row + g.headDim])
  {
    hide Times, Angles, PairRotated;
    ghost var angles, xs, middle := Angles(g, item, token), x[row..row + g.headDim], out[row..row + g.headDim];
    ghost var whole := out[..];
    forall d | RotaryDim(g) <= d < g.headDim {
      out[row + d] := x[row + d];
    }
    FramedTail(before, whole, out[..], row, g.headDim);
    TailCopied(g, angles, xs, middle, out[row..row + g.headDim]);
  }

  lemma FramedTail(before: seq<real>, middle: seq<real>, after: seq<real>, at: nat, n: nat)
    requires Framed(before, middle, at, n) && |after| == |middle|
    requires forall k | 0 <= k < |after| && !(at <= k < at + n) :: after[k] == middle[k]
    ensures Framed(before, after, at, n)
  {
  }

  lemma TailCopied(g: Config, angles: seq<(real, real)>, x: seq<real>, before: seq<real>, after: seq<real>)
    requires PairsDone(g, angles, x, before, g.pairs) && |after| == g.headDim
    requires forall d | 0 <= d < RotaryDim(g) :: after[d] == before[d]
    requires forall d | RotaryDim(g) <= d < g.headDim :: after[d] == x[d]
    ensures Rotated(g, angles, x, after)
  {
    hide Times;
    forall pair: nat | pair < g.pairs ensures PairRotated(g, angles, x, after, pair) {
      assert PairRotated(g, angles, x, before, pair);
      PairInRow(g, pair);
    }
  }

  /** The pair loop of rotary_reference. */
  method RotateRow(g: Config, item: nat, token: nat, x: seq<real>, row: nat, out: array<real>)
    requires Valid(g) && RowIn(g, item, token) && row + g.headDim <= |x| && row + g.headDim <= out.Length
    modifies out
    ensures Framed(old(out[..]), out[..], row, g.headDim)
    ensures Rotated(g, Angles(g, item, token), x[row..row + g.headDim], out[row..row + g.headDim])
  {
    ghost var before := out[..];
    NoPairs(g, Angles(g, item, token), x[row..row + g.headDim], out[row..row + g.headDim]);
    assert Turning(g, item, token, x, row, before, out, 0);
    hide Turning, Valid;
    for pair := 0 to g.pairs
      invariant Turning(g, item, token, x, row, before, out, pair)
    {
      RotatePair(g, item, token, x, row, before, out, pair, AxisOf(g, pair));
    }
    CopyTail(g, item, token, x, row, before, out);
  }

  /** The grouped loop of the multimodal kernel: three pairs at a time, one per axis. */
  method RotateRowGrouped(g: Config, item: nat, token: nat, x: seq<real>, row: nat, out: array<real>)
    requires g.multimodal && g.interleaved
    requires Valid(g) && RowIn(g, item, token) && row + g.headDim <= |x| && row + g.headDim <= out.Length
    modifies out
    ensures Framed(old(out[..]), out[..], row, g.headDim)
    ensures Rotated(g, Angles(g, item, token), x[row..row + g.headDim], out[row..row + g.headDim])
  {
    ghost var before := out[..];
    NoPairs(g, Angles(g, item, token), x[row..row + g.headDim], out[row..row + g.headDim]);
    assert Turning(g, item, token, x, row, before, out, 0);
    hide Turning, Valid;
    var firstPair := 0;
    while firstPair < g.pairs
      invariant firstPair % 3 == 0
      invariant Turning(g, item, token, x, row, before, out, Min(firstPair, g.pairs))
    {
      RotateGroup(g, item, token, x, row, before, out, firstPair);
      firstPair := firstPair + 3;
    }
    CopyTail(g, item, token, x, row, before, out);
  }

  /** One group: the pair at offset `axis` of a group takes its position from that axis. */
  method RotateGroup(g: Config, item: nat, token: nat, x: seq<real>, row: nat, ghost before: seq<real>, out: array<real>,
                     firstPair: nat)
    requires g.multimodal && g.interleaved && firstPair < g.pairs && firstPair % 3 == 0
    requires Turning(g, item, token, x, row, before, out, firstPair)
    modifies out
    ensures Turning(g, item, token, x, row, before, out, Min(firstPair + 3, g.pairs))
  {
    hide Turning;
    var group := Min(3, g.pairs - firstPair);
    for axis := 0 to group
      invariant Turning(g, item, token, x, row, before, out, firstPair + axis)
    {
      GroupAxis(g, firstPair, axis);
      RotatePair(g, item, token, x, row, before, out, firstPair + axis, axis);
    }
  }

  lemma GroupAxis(g: Config, firstPair: nat, axis: nat)
    requires g.multimodal && g.interleaved && firstPair % 3 == 0 && axis < 3
    ensures AxisOf(g, firstPair + axis) == axis
  {
  }

  // ---------- all rows ----------

  function RowIndex(g: Config, item: nat, head: nat, token: nat): nat {
    Flat(Flat(item, g.heads, head), g.tokens, token)
  }

  function RowCount(g: Config): nat {
    Flat(Flat(g.batch, g.heads, 0), g.tokens, 0)
  }

  lemma RowInRange(g: Config, item: nat, head: nat, token: nat)
    requires RowIn(g, item, token) && head < g.heads
    ensures RowIndex(g, item, head, token) < RowCount(g)
    ensures Flat(RowIndex(g, item, head, token), g.headDim, 0) + g.headDim <= Flat(RowCount(g), g.headDim, 0)
  {
    FlatOrder(item, g.batch, g.heads, head, 0);
    FlatOrder(Flat(item, g.heads, head), Flat(g.batch, g.heads, 0), g.tokens, token, 0);
    RowInside(RowIndex(g, item, head, token), RowCount(g), g.headDim);
  }

  /** The first `done` rows, in row-major order, are rotated. */
  ghost predicate RowsRotated(g: Config, x: seq<real>, out: seq<real>, done: nat)
    requires Valid(g)
  {
    && |x| == |out| == Flat(RowCount(g), g.headDim, 0)
    && forall item: nat, head: nat, token: nat |
         RowIn(g, item, token) && head < g.heads && RowIndex(g, item, head, token) < done ::
         RowRotated(g, x, out, item, head, token)
  }

  ghost predicate RowRotated(g: Config, x: seq<real>, out: seq<real>, item: nat, head: nat, token: nat)
    requires Valid(g) && RowIn(g, item, token)
  {
    var row := RowIndex(g, item, head, token);
    && Flat(row, g.headDim, 0) + g.headDim <= |x| && Flat(row, g.headDim, 0) + g.headDim <= |out|
    && Rotated(g, Angles(g, item, token), RowOf(x, row, g.headDim), RowOf(out, row, g.headDim))
  }

  lemma RowWritten(g: Config, x: seq<real>, before: seq<real>, after: seq<real>, item: nat, head: nat, token: nat)
    requires Valid(g) && RowIn(g, item, token) && head < g.heads
    requires RowsRotated(g, x, before, RowIndex(g, item, head, token))
    requires Framed(before, after, Flat(RowIndex(g, item, head, token), g.headDim, 0), g.headDim)
    requires RowRotated(g, x, after, item, head, token)
    ensures RowsRotated(g, x, after, RowIndex(g, item, head, token) + 1)
  {
    hide Rotated, Valid, Angles, RowOf;
    var row, next := RowIndex(g, item, head, token), RowIndex(g, item, head, token) + 1;
    forall i: nat, h: nat, t: nat | RowIn(g, i, t) && h < g.heads && RowIndex(g, i, h, t) < next
      ensures RowRotated(g, x, after, i, h, t)
    {
      var other := RowIndex(g, i, h, t);
      if other == row {
        FlatInjective(Flat(i, g.heads, h), Flat(item, g.heads, head), g.tokens, t, token);
        FlatInjective(i, item, g.heads, h, head);
      } else {
        assert RowRotated(g, x, before, i, h, t);
        OtherRowKept(before, after, row, g.headDim, other);
      }
    }
  }

  lemma NothingRotated(g: Config, x: seq<real>, out: seq<real>)
    requires Valid(g) && |x| == |out| == Flat(RowCount(g), g.headDim, 0)
    ensures RowsRotated(g, x, out, 0)
  {
  }

  method RotateOne(g: Config, x: seq<real>, out: array<real>, item: nat, head: nat, token: nat, grouped: bool)
    requires Valid(g) && RowIn(g, item, token) && head < g.heads
    requires RowsRotated(g, x, out[..], RowIndex(g, item, head, token))
    modifies out
    ensures RowsRotated(g, x, out[..], RowIndex(g, item, head, token) + 1)
  {
    RowInRange(g, item, head, token);
    assert |x| == out.Length == Flat(RowCount(g), g.headDim, 0);
    hide RowsRotated, Valid, Rotated, RowMajor;
    ghost var before := out[..];
    var row := RowMajor(RowMajor(RowMajor(item, g.heads, head), g.tokens, token), g.headDim, 0);
    if grouped && g.multimodal && g.interleaved {
      RotateRowGrouped(g, item, token, x, row, out);
    } else {
      RotateRow(g, item, token, x, row, out);
    }
    assert RowOf(out[..], RowIndex(g, item, head, token), g.headDim) == out[row..row + g.headDim];
    RowWritten(g, x, before, out[..], item, head, token);
  }

  /** rotary_reference; `grouped` selects the kernel's loop for interleaved sections, which changes nothing. */
  method RotaryReference(g: Config, x: seq<real>, grouped: bool) returns (out: array<real>)
    requires Valid(g) && |x| == Flat(RowCount(g), g.headDim, 0)
    ensures RowsRotated(g, x, out[..], RowCount(g))
  {
    out := new real[|x|](i => 0.0);
    NothingRotated(g, x, out[..]);
    FlatNext(0, g.heads);
    FlatNext(0, g.tokens);
    RotateAll(g, x, out, grouped);
  }

  method RotateAll(g: Config, x: seq<real>, out: array<real>, grouped: bool)
    requires Valid(g) && RowsRotated(g, x, out[..], Flat(Flat(0, g.heads, 0), g.tokens, 0))
    modifies out
    ensures RowsRotated(g, x, out[..], RowCount(g))
  {
    hide RowsRotated, Valid, Flat;
    for item := 0 to g.batch
      invariant RowsRotated(g, x, out[..], Flat(Flat(item, g.heads, 0), g.tokens, 0))
    {
      for head := 0 to g.heads
        invariant RowsRotated(g, x, out[..], Flat(Flat(item, g.heads, head), g.tokens, 0))
      {
        RotateHead(g, x, out, item, head, grouped);
        FlatShift(item, g.heads, head, 1);
      }
      FlatNext(item, g.heads);
    }
  }

  /** The token loop of one head. */
  method RotateHead(g: Config, x: seq<real>, out: array<real>, item: nat, head: nat, grouped: bool)
    requires Valid(g) && item < g.batch && head < g.heads
    requires RowsRotated(g, x, out[..], Flat(Flat(item, g.heads, head), g.tokens, 0))
    modifies out
    ensures RowsRotated(g, x, out[..], Flat(Flat(item, g.heads, head) + 1, g.tokens, 0))
  {
    hide RowsRotated, Valid, Flat;
    for token := 0 to g.tokens
      invariant RowsRotated(g, x, out[..], RowIndex(g, item, head, token))
    {
      RotateOne(g, x, out, item, head, token, grouped);
      FlatShift(Flat(item, g.heads, head), g.tokens, token, 1);
    }
    FlatNext(Flat(item, g.heads, head), g.tokens);
  }

  /** Hence the whole multimodal output is the positioned one. */
  lemma MultimodalIsPositioned(m: Config, p: Config, x: seq<real>, y: seq<real>, z: seq<real>)
    requires Valid(m) && Valid(p) && m.multimodal && !p.multimodal && !p.interleaved
    requires m.batch == p.batch && m.heads == p.heads && m.tokens == p.tokens && m.headDim == p.headDim
    requires m.pairs == p.pairs && m.cosine == p.cosine && m.sine == p.sine && m.maxPosition == p.maxPosition
    requires forall item: nat, token: nat, axis: nat | RowIn(m, item, token) && axis < 3 ::
      PositionAt(m, item, token, axis) == PositionAt(p, item, token, 0)
    requires RowsRotated(m, x, y, RowCount(m)) && RowsRotated(p, x, z, RowCount(p))
    ensures y == z
  {
    hide Rotated, Angles, PositionAt;
    forall row: nat | row < RowCount(m)
      ensures Flat(row, m.headDim, 0) + m.headDim <= |y| && RowOf(y, row, m.headDim) == RowOf(z, row, m.headDim)
    {
      RowInside(row, RowCount(m), m.headDim);
      FlatSplit(row, Flat(m.batch, m.heads, 0), m.tokens);
      var plane, token := Quot(row, m.tokens), Rem(row, m.tokens);
      FlatSplit(plane, m.batch, m.heads);
      var item, head := Quot(plane, m.heads), Rem(plane, m.heads);
      assert RowRotated(m, x, y, item, head, token) && RowRotated(p, x, z, item, head, token);
      var xs, ys, zs := RowOf(x, row, m.headDim), RowOf(y, row, m.headDim), RowOf(z, row, m.headDim);
      EqualAxesIsPositioned(m, p, item, token, xs, ys);
      RotationUnique(p, Angles(p, item, token), xs, ys, zs);
    }
    EqualRows(y, z, RowCount(m), m.headDim);
  }

  // ---------- written out ----------

  lemma PositionWrittenOut(g: Config, item: nat, token: nat, pair: nat, axis: nat)
    requires Valid(g) && RowIn(g, item, token) && pair < g.pairs
    requires axis == if !g.multimodal then 0 else if g.interleaved then pair % 3
                     else if pair < g.section0 then 0 else if pair < g.section0 + g.section1 then 1 else 2
    ensures var base := RowMajor(if g.perBatch then item else 0, if g.multimodal then 3 else 1, axis);
      PositionOf(g, item, token, pair) == At(g.positions, RowMajor(base, g.tokens, token), 0)
  {
    hide Flat, RowMajor;
    var base := if g.perBatch then item else 0;
    FlatOrder(base, if g.perBatch then g.batch else 1, Axes(g), axis, 0);
    FlatOrder(Flat(base, Axes(g), axis), Flat(if g.perBatch then g.batch else 1, Axes(g), 0), g.tokens, token, 0);
  }

  lemma AngleWrittenOut(g: Config, item: nat, token: nat, pair: nat, position: nat)
    requires Valid(g) && RowIn(g, item, token) && pair < g.pairs && position == PositionOf(g, item, token, pair)
    ensures Angles(g, item, token)[pair]
         == (At(g.cosine, RowMajor(position, g.pairs, pair), 0.0), At(g.sine, RowMajor(position, g.pairs, pair), 0.0))
  {
    hide Flat, RowMajor, PositionOf;
    FlatOrder(position, g.maxPosition, g.pairs, pair, 0);
  }

  /**
   Both elements of every pair of every row: interleaved rows turn elements 2p and 2p + 1, split ones p and pairs + p,
   by the angle that the tables hold for the pair at the position of its axis.
   */
  lemma PairWrittenOut(g: Config, x: seq<real>, y: seq<real>, item: nat, head: nat, token: nat, pair: nat, row: nat,
                       axis: nat, position: nat)
    requires Valid(g) && |x| == Flat(RowCount(g), g.headDim, 0) && RowsRotated(g, x, y, RowCount(g))
    requires item < g.batch && head < g.heads && token < g.tokens && pair < g.pairs
    requires row == RowMajor(RowMajor(RowMajor(item, g.heads, head), g.tokens, token), g.headDim, 0)
    requires axis == if !g.multimodal then 0 else if g.interleaved then pair % 3
                     else if pair < g.section0 then 0 else if pair < g.section0 + g.section1 then 1 else 2
    requires position == At(g.positions, RowMajor(RowMajor(if g.perBatch then item else 0, if g.multimodal then 3 else 1,
                                                           axis), g.tokens, token), 0)
    ensures row + g.headDim <= |x| == |y| && 2 * g.pairs <= g.headDim
    ensures var c, s := At(g.cosine, RowMajor(position, g.pairs, pair), 0.0), At(g.sine, RowMajor(position, g.pairs, pair), 0.0);
      var first := if g.interleaved && !g.multimodal then row + 2 * pair else row + pair;
      var second := if g.interleaved && !g.multimodal then row + 2 * pair + 1 else row + g.pairs + pair;
      && At(y, first, 0.0) == Times(At(x, first, 0.0), c) - Times(At(x, second, 0.0), s)
      && At(y, second, 0.0) == Times(At(x, second, 0.0), c) + Times(At(x, first, 0.0), s)
  {
    hide Flat, RowMajor, Times, Angles, PositionOf;
    RowInRange(g, item, head, token);
    assert RowRotated(g, x, y, item, head, token);
    PositionWrittenOut(g, item, token, pair, axis);
    AngleWrittenOut(g, item, token, pair, position);
    var angles, xs, ys := Angles(g, item, token), RowOf(x, RowIndex(g, item, head, token), g.headDim),
                          RowOf(y, RowIndex(g, item, head, token), g.headDim);
    hide Valid, RowsRotated;
    assert PairRotated(g, angles, xs, ys, pair);
    assert forall d | 0 <= d < g.headDim :: xs[d] == x[row + d] && ys[d] == y[row + d];
  }

  /** The elements behind the rotated ones are copied. */
  lemma TailWrittenOut(g: Config, x: seq<real>, y: seq<real>, item: nat, head: nat, token: nat, d: nat, row: nat)
    requires Valid(g) && |x| == Flat(RowCount(g), g.headDim, 0) && RowsRotated(g, x, y, RowCount(g))
    requires item < g.batch && head < g.heads && token < g.tokens && 2 * g.pairs <= d < g.headDim
    requires row == RowMajor(RowMajor(RowMajor(item, g.heads, head), g.tokens, token), g.headDim, 0)
    ensures row + d < |x| == |y| && At(y, row + d, 0.0) == At(x, row + d, 0.0)
  {
    hide Flat, RowMajor, Angles, PairRotated;
    RowInRange(g, item, head, token);
    assert RowRotated(g, x, y, item, head, token);
    var xs, ys := RowOf(x, RowIndex(g, item, head, token), g.headDim), RowOf(y, RowIndex(g, item, head, token), g.headDim);
    assert xs[d] == x[row + d] && ys[d] == y[row + d];
  }
}
