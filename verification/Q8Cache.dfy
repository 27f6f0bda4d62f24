/**
 The paged Q8_0 key/value cache of benchmarks/cases/q8_kv.cpp: a quantizing scatter into slots, and a gather of
 packed sequences through a block table. A plane is a code array and a scale array; a cell is one group of 32
 codes with its scale, and each slot owns a row of `width` cells, one per head and group.
 */
module Q8Cache {
  import opened Arith
  import opened Q8Codec
  import opened Reals
  import opened Rows

  // ---------- planes as values ----------

  /** The 32 elements of cell `cell`. */
  function Lanes<T>(data: seq<T>, cell: nat): (s: seq<T>)
    requires 32 * cell + 32 <= |data|
    ensures |s| == 32
  {
    data[32 * cell..32 * cell + 32]
  }

  predicate HasCell(codes: seq<int>, scales: seq<Half>, cell: nat) {
    cell < |scales| && 32 * cell + 32 <= |codes|
  }

  predicate Stored(f: HalfFormat, codes: seq<int>, scales: seq<Half>, cell: nat, values: seq<real>) {
    && HasCell(codes, scales, cell)
    && Lanes(codes, cell) == Codes(values) && scales[cell] == f.encode(Scale(values))
  }

  predicate Zeroed(codes: seq<int>, scales: seq<Half>, cell: nat) {
    && HasCell(codes, scales, cell)
    && Lanes(codes, cell) == seq(32, i => 0) && scales[cell] == ZERO
  }

  /** The last of the first n tokens written to a slot, or -1. */
  function LastToken(slots: seq<int>, slot: nat, n: nat): (t: int)
    requires n <= |slots|
    ensures -1 <= t < n
    ensures t >= 0 ==> slots[t] == slot
    ensures forall u | t < u < n :: slots[u] != slot
  {
    if n == 0 then -1 else if slots[n - 1] == slot then n - 1 else LastToken(slots, slot, n - 1)
  }

  /** Cell c of a slot holds group c of the last token written there, or zeros. */
  ghost predicate CellHolds(f: HalfFormat, codes: seq<int>, scales: seq<Half>, source: seq<real>, slots: seq<int>,
                            n: nat, width: nat, slot: nat, c: nat)
    requires n <= |slots|
  {
    var t := LastToken(slots, slot, n);
    if t < 0 then Zeroed(codes, scales, Flat(slot, width, c))
    else
      && 32 * Flat(t, width, c) + 32 <= |source|
      && Stored(f, codes, scales, Flat(slot, width, c), Lanes(source, Flat(t, width, c)))
  }

  /** What scattering the first n tokens leaves in a plane of `rows` slots; the slot of token n may be partly done. */
  ghost predicate Scattered(f: HalfFormat, codes: seq<int>, scales: seq<Half>, source: seq<real>, slots: seq<int>,
                            n: nat, width: nat, rows: nat, done: nat)
    requires n <= |slots| && (done > 0 ==> n < |slots|)
  {
    forall slot: nat, c: nat | slot < rows && c < width ::
      CellDone(f, codes, scales, source, slots, n, width, done, slot, c)
  }

  ghost predicate CellDone(f: HalfFormat, codes: seq<int>, scales: seq<Half>, source: seq<real>, slots: seq<int>,
                           n: nat, width: nat, done: nat, slot: nat, c: nat)
    requires n <= |slots| && (done > 0 ==> n < |slots|)
  {
    var seen := if done > 0 && slot == slots[n] && c < done then n + 1 else n;
    CellHolds(f, codes, scales, source, slots, seen, width, slot, c)
  }

  lemma ClearedPlane(f: HalfFormat, codes: seq<int>, scales: seq<Half>, source: seq<real>, slots: seq<int>,
                     width: nat, rows: nat)
    requires |scales| == Flat(rows, width, 0) && |codes| == 32 * |scales|
    requires (forall i | 0 <= i < |codes| :: codes[i] == 0) && (forall i | 0 <= i < |scales| :: scales[i] == ZERO)
    ensures Scattered(f, codes, scales, source, slots, 0, width, rows, 0)
  {
    forall slot: nat, c: nat | slot < rows && c < width
      ensures CellDone(f, codes, scales, source, slots, 0, width, 0, slot, c)
    {
      FlatOrder(slot, rows, width, c, 0);
      assert Lanes(codes, Flat(slot, width, c)) == seq(32, i => 0);
    }
  }

  /** The planes before and after one group is encoded into `cell`. */
  predicate OneCellWritten(codes: seq<int>, scales: seq<Half>, codes': seq<int>, scales': seq<Half>, cell: nat) {
    && HasCell(codes, scales, cell)
    && |scales'| == |scales|
    && Framed(codes, codes', 32 * cell, 32)
    && forall i | 0 <= i < |scales| && i != cell :: scales'[i] == scales[i]
  }

  lemma OtherCellsKeep(codes: seq<int>, scales: seq<Half>, codes': seq<int>, scales': seq<Half>, cell: nat, other: nat)
    requires OneCellWritten(codes, scales, codes', scales', cell) && other != cell
    requires HasCell(codes, scales, other)
    ensures Lanes(codes', other) == Lanes(codes, other) && scales'[other] == scales[other]
  {
    StretchKept(codes, codes', 32 * cell, 32, 32 * other, 32);
  }

  /** Writing group c of token n advances the scatter by one cell. */
  lemma StoreStep(f: HalfFormat, codes: seq<int>, scales: seq<Half>, codes': seq<int>, scales': seq<Half>,
                  source: seq<real>, slots: seq<int>, n: nat, width: nat, rows: nat, c: nat)
    requires n < |slots| && 0 <= slots[n] < rows && c < width
    requires Scattered(f, codes, scales, source, slots, n, width, rows, c)
    requires OneCellWritten(codes, scales, codes', scales', Flat(slots[n], width, c))
    requires 32 * Flat(n, width, c) + 32 <= |source|
    requires Stored(f, codes', scales', Flat(slots[n], width, c), Lanes(source, Flat(n, width, c)))
    ensures Scattered(f, codes', scales', source, slots, n, width, rows, c + 1)
  {
    hide Codes, Scale;
    var slot, next := slots[n], c + 1;
    forall s: nat, d: nat | s < rows && d < width
      ensures CellDone(f, codes', scales', source, slots, n, width, next, s, d)
    {
      if s == slot && d == c {
        assert LastToken(slots, slot, n + 1) == n;
      } else {
        var m := if s == slot && d < c then n + 1 else n;
        assert CellDone(f, codes, scales, source, slots, n, width, c, s, d);
        CellKept(f, codes, scales, codes', scales', source, slots, m, width, s, d, slot, c);
      }
    }
  }

  lemma CellKept(f: HalfFormat, codes: seq<int>, scales: seq<Half>, codes': seq<int>, scales': seq<Half>,
                 source: seq<real>, slots: seq<int>, m: nat, width: nat, s: nat, d: nat, slot: nat, c: nat)
    requires m <= |slots| && c < width && d < width && (s != slot || d != c)
    requires OneCellWritten(codes, scales, codes', scales', Flat(slot, width, c))
    requires CellHolds(f, codes, scales, source, slots, m, width, s, d)
    ensures CellHolds(f, codes', scales', source, slots, m, width, s, d)
  {
    hide Codes, Scale, LastToken;
    if Flat(s, width, d) == Flat(slot, width, c) {
      FlatInjective(s, slot, width, d, c);
    }
    OtherCellsKeep(codes, scales, codes', scales', Flat(slot, width, c), Flat(s, width, d));
  }

  /** A finished token, or a skipped one, is one more token scattered. */
  lemma TokenDone(f: HalfFormat, codes: seq<int>, scales: seq<Half>, source: seq<real>, slots: seq<int>, n: nat,
                  width: nat, rows: nat, done: nat)
    requires n < |slots| && Scattered(f, codes, scales, source, slots, n, width, rows, done)
    requires if slots[n] < 0 then done == 0 else done == width
    ensures Scattered(f, codes, scales, source, slots, n + 1, width, rows, 0)
  {
    hide Stored, Zeroed;
    var next := n + 1;
    forall s: nat, d: nat | s < rows && d < width
      ensures CellDone(f, codes, scales, source, slots, next, width, 0, s, d)
    {
      assert CellDone(f, codes, scales, source, slots, n, width, done, s, d);
    }
  }

  // ---------- scatter ----------

  /** The indices of a group, as the source computes them. */
  function ScaleIndex(row: nat, heads: nat, head: nat, groups: nat, group: nat): nat {
    (row * heads + head) * groups + group
  }

  function ElementIndex(row: nat, heads: nat, head: nat, dim: nat, group: nat): nat {
    (row * heads + head) * dim + group * 32
  }

  lemma GroupIndex(row: nat, heads: nat, head: nat, groups: nat, group: nat)
    requires head < heads && group < groups
    ensures ScaleIndex(row, heads, head, groups, group)
         == Flat(row, Flat(heads, groups, 0), Flat(head, groups, group))
    ensures ElementIndex(row, heads, head, groups * 32, group)
         == 32 * Flat(row, Flat(heads, groups, 0), Flat(head, groups, group))
    ensures Flat(head, groups, group) < Flat(heads, groups, 0)
  {
    FlatFlat(row, heads, head, groups, group);
    FlatProduct(row, heads, head);
    FlatProduct(row * heads + head, groups, group);
    FlatOrder(head, heads, groups, group, 0);
    MulAssoc(row * heads + head, groups, 32);
  }

  /** The two lane loops for one plane: the largest magnitude, the scale, the codes. */
  method EncodeGroup(f: HalfFormat, source: seq<real>, at: nat, codes: array<int>, to: nat, scales: array<Half>,
                     cell: nat)
    requires at + 32 <= |source| && to + 32 <= codes.Length && cell < scales.Length
    modifies codes, scales
    ensures codes[to..to + 32] == Codes(source[at..at + 32])
    ensures codes[..to] == old(codes[..to]) && codes[to + 32..] == old(codes[to + 32..])
    ensures scales[..] == old(scales[..])[cell := f.encode(Scale(source[at..at + 32]))]
  {
    hide EncodeQ8, Inverse;
    ghost var values := source[at..at + 32];
    var amax := 0.0;
    for lane := 0 to 32
      invariant amax == Amax(values[..lane])
    {
      var magnitude := Abs(source[at + lane]);
      assert values[..lane + 1][..lane] == values[..lane];
      amax := if amax < magnitude then magnitude else amax;
    }
    assert values[..32] == values;
    var scale := amax / 127.0;
    scales[cell] := f.encode(scale);
    var inverse := Inverse(scale);
    for lane := 0 to 32
      invariant codes[to..to + lane] == Codes(values)[..lane]
      invariant codes[..to] == old(codes[..to]) && codes[to + 32..] == old(codes[to + 32..])
      invariant scales[..] == old(scales[..])[cell := f.encode(Scale(values))]
    {
      codes[to + lane] := EncodeQ8(source[at + lane], inverse);
    }
  }

  ghost predicate Plane(f: HalfFormat, codes: array<int>, scales: array<Half>, source: seq<real>, slots: seq<int>,
                        n: nat, width: nat, rows: nat, done: nat)
    reads codes, scales
    requires n <= |slots| && (done > 0 ==> n < |slots|)
  {
    && scales.Length == Flat(rows, width, 0) && codes.Length == 32 * scales.Length
    && |source| == 32 * Flat(|slots|, width, 0)
    && Scattered(f, codes[..], scales[..], source, slots, n, width, rows, done)
  }

  /** One group of token n for one plane, at the indices the source computes. */
  method StoreGroup(f: HalfFormat, codes: array<int>, scales: array<Half>, source: seq<real>, slots: seq<int>,
                    n: nat, heads: nat, head: nat, groups: nat, group: nat, ghost rows: nat)
    requires n < |slots| && 0 <= slots[n] < rows && head < heads && group < groups
    requires Plane(f, codes, scales, source, slots, n, Flat(heads, groups, 0), rows, Flat(head, groups, group))
    modifies codes, scales
    ensures Plane(f, codes, scales, source, slots, n, Flat(heads, groups, 0), rows, Flat(head, groups, group) + 1)
  {
    hide Scattered, Codes, Scale, ScaleIndex, ElementIndex;
    var slot, dim := slots[n], groups * 32;
    ghost var width, c := Flat(heads, groups, 0), Flat(head, groups, group);
    GroupIndex(n, heads, head, groups, group);
    GroupIndex(slot, heads, head, groups, group);
    FlatOrder(n, |slots|, width, c, 0);
    FlatOrder(slot, rows, width, c, 0);
    ghost var codes0, scales0 := codes[..], scales[..];
    var at := ElementIndex(n, heads, head, dim, group);
    var to := ElementIndex(slot, heads, head, dim, group);
    var cell := ScaleIndex(slot, heads, head, groups, group);
    EncodeGroup(f, source, at, codes, to, scales, cell);
    assert codes[..][..to] == codes[..to] && codes[..][to + 32..] == codes[to + 32..];
    assert codes[..][to..to + 32] == codes[to..to + 32];
    StoreStep(f, codes0, scales0, codes[..], scales[..], source, slots, n, width, rows, c);
  }

  /** scatter_oracle: both planes are cleared, then every token with a slot is quantized into it. */
  method Scatter(f: HalfFormat, key: seq<real>, value: seq<real>, slots: seq<int>, keyCodes: array<int>,
                 keyScales: array<Half>, valueCodes: array<int>, valueScales: array<Half>,
                 heads: nat, dim: nat, ghost rows: nat)
    requires dim % 32 == 0 && forall t | 0 <= t < |slots| :: slots[t] < rows
    requires |key| == |value| == 32 * Flat(|slots|, Flat(heads, dim / 32, 0), 0)
    requires keyScales.Length == valueScales.Length == Flat(rows, Flat(heads, dim / 32, 0), 0)
    requires keyCodes.Length == valueCodes.Length == 32 * keyScales.Length
    requires keyCodes != valueCodes && keyScales != valueScales
    modifies keyCodes, keyScales, valueCodes, valueScales
    ensures Plane(f, keyCodes, keyScales, key, slots, |slots|, Flat(heads, dim / 32, 0), rows, 0)
    ensures Plane(f, valueCodes, valueScales, value, slots, |slots|, Flat(heads, dim / 32, 0), rows, 0)
  {
    hide Scattered;
    var groups := dim / 32;
    ghost var width := Flat(heads, groups, 0);
    Clear(f, keyCodes, keyScales, key, slots, width, rows);
    Clear(f, valueCodes, valueScales, value, slots, width, rows);
    for token := 0 to |slots|
      invariant Plane(f, keyCodes, keyScales, key, slots, token, width, rows, 0)
      invariant Plane(f, valueCodes, valueScales, value, slots, token, width, rows, 0)
    {
      if slots[token] >= 0 {
        for head := 0 to heads
          invariant Plane(f, keyCodes, keyScales, key, slots, token, width, rows, Flat(head, groups, 0))
          invariant Plane(f, valueCodes, valueScales, value, slots, token, width, rows, Flat(head, groups, 0))
        {
          for group := 0 to groups
            invariant Plane(f, keyCodes, keyScales, key, slots, token, width, rows, Flat(head, groups, group))
            invariant Plane(f, valueCodes, valueScales, value, slots, token, width, rows, Flat(head, groups, group))
          {
            FlatShift(head, groups, group, 1);
            StoreGroup(f, keyCodes, keyScales, key, slots, token, heads, head, groups, group, rows);
            StoreGroup(f, valueCodes, valueScales, value, slots, token, heads, head, groups, group, rows);
          }
          FlatShift(head, groups, 0, groups);
        }
      }
      TokenDone(f, keyCodes[..], keyScales[..], key, slots, token, width, rows, if slots[token] < 0 then 0 else width);
      TokenDone(f, valueCodes[..], valueScales[..], value, slots, token, width, rows,
                if slots[token] < 0 then 0 else width);
    }
  }

  method Clear(f: HalfFormat, codes: array<int>, scales: array<Half>, ghost source: seq<real>, ghost slots: seq<int>,
               ghost width: nat, ghost rows: nat)
    requires scales.Length == Flat(rows, width, 0) && codes.Length == 32 * scales.Length
    requires |source| == 32 * Flat(|slots|, width, 0)
    modifies codes, scales
    ensures Plane(f, codes, scales, source, slots, 0, width, rows, 0)
  {
    forall i | 0 <= i < codes.Length {
      codes[i] := 0;
    }
    forall i | 0 <= i < scales.Length {
      scales[i] := ZERO;
    }
    ClearedPlane(f, codes[..], scales[..], source, slots, width, rows);
  }
}
