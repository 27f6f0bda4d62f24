/**
 The paged Q8_0 cache written out over its buffers: which code and scale a scatter leaves where, which cell a gather
 reads for which output, and what comes back, in terms of the largest magnitude m of a group of 32 elements.
 */
module Q8Formula {
  import opened Arith
  import opened Options
  import opened Rows
  import opened Reals
  import opened Q8Codec
  import opened Q8Cache
  import opened Q8Gather
  import HalfScale

  /** Element `lane` of a group of a head of a token. */
  function Element(source: seq<real>, token: nat, heads: nat, head: nat, dim: nat, group: nat, lane: nat): real {
    At(source, RowMajor(RowMajor(token, heads, head), dim, 32 * group + lane), 0.0)
  }

  /** The largest magnitude of that group. */
  ghost predicate GroupLargest(source: seq<real>, token: nat, heads: nat, head: nat, dim: nat, group: nat, m: real) {
    && (forall l: nat | l < 32 :: -m <= Element(source, token, heads, head, dim, group, l) <= m)
    && exists l: nat :: l < 32 && (Element(source, token, heads, head, dim, group, l) == m
                                   || Element(source, token, heads, head, dim, group, l) == -m)
  }

  /** The indices of a group among the cells of its plane. */
  lemma CellIndex(row: nat, heads: nat, head: nat, dim: nat, group: nat, l: nat)
    requires dim % 32 == 0 && head < heads && group < dim / 32 && l < 32
    ensures var cell := Flat(row, Flat(heads, dim / 32, 0), Flat(head, dim / 32, group));
      && RowMajor(RowMajor(row, heads, head), dim, 32 * group + l) == 32 * cell + l
      && RowMajor(RowMajor(row, heads, head), dim / 32, group) == cell
    ensures Flat(head, dim / 32, group) < Flat(heads, dim / 32, 0)
  {
    var groups := dim / 32;
    GroupIndex(row, heads, head, groups, group);
    FlatProduct(row, heads, head);
    FlatProduct(row * heads + head, dim, 32 * group + l);
    FlatProduct(row * heads + head, groups, group);
    assert groups * 32 == dim;
  }

  lemma LanesLargest(source: seq<real>, token: nat, heads: nat, head: nat, dim: nat, group: nat, m: real)
    requires dim % 32 == 0 && head < heads && group < dim / 32 && GroupLargest(source, token, heads, head, dim, group, m)
    requires 32 * Flat(token, Flat(heads, dim / 32, 0), Flat(head, dim / 32, group)) + 32 <= |source|
    ensures Largest(Lanes(source, Flat(token, Flat(heads, dim / 32, 0), Flat(head, dim / 32, group))), m)
  {
    var cell := Flat(token, Flat(heads, dim / 32, 0), Flat(head, dim / 32, group));
    var values := Lanes(source, cell);
    hide Flat, RowMajor;
    forall l: nat | l < 32 ensures Element(source, token, heads, head, dim, group, l) == values[l] {
      CellIndex(token, heads, head, dim, group, l);
    }
    hide Element;
    var l: nat :| l < 32 && (Element(source, token, heads, head, dim, group, l) == m
                             || Element(source, token, heads, head, dim, group, l) == -m);
    assert values[l] == m || values[l] == -m;
  }

  /**
   After a scatter, a slot holds for every group of the last token t that names it the scale m / 127 and the codes
   value * 127 / m, rounded.
   */
  lemma ScatterWrittenOut(f: HalfFormat, codes: seq<int>, scales: seq<Half>, source: seq<real>, slots: seq<int>,
                          heads: nat, dim: nat, rows: nat, t: nat, head: nat, group: nat, lane: nat, m: real)
    requires dim % 32 == 0 && |source| == 32 * Flat(|slots|, Flat(heads, dim / 32, 0), 0)
    requires Scattered(f, codes, scales, source, slots, |slots|, Flat(heads, dim / 32, 0), rows, 0)
    requires t < |slots| && 0 <= slots[t] < rows && forall u | t < u < |slots| :: slots[u] != slots[t]
    requires head < heads && group < dim / 32 && lane < 32 && GroupLargest(source, t, heads, head, dim, group, m)
    ensures At(scales, RowMajor(RowMajor(slots[t], heads, head), dim / 32, group), ZERO) == f.encode(m / 127.0)
    ensures CodeIs(At(codes, RowMajor(RowMajor(slots[t], heads, head), dim, 32 * group + lane), 0),
                   At(source, RowMajor(RowMajor(t, heads, head), dim, 32 * group + lane), 0.0), m)
  {
    var width, c := Flat(heads, dim / 32, 0), Flat(head, dim / 32, group);
    hide Scattered, GroupLargest, Flat, RowMajor, CodeIs, Largest, At;
    CellIndex(t, heads, head, dim, group, lane);
    FlatOrder(t, |slots|, width, c, 0);
    CellIndex(slots[t], heads, head, dim, group, lane);
    LanesLargest(source, t, heads, head, dim, group, m);
    ScatteredCell(f, codes, scales, source, slots, width, rows, t, c, lane, m);
  }

  /** The same, by the number of the cell. */
  lemma ScatteredCell(f: HalfFormat, codes: seq<int>, scales: seq<Half>, source: seq<real>, slots: seq<int>, width: nat,
                      rows: nat, t: nat, c: nat, lane: nat, m: real)
    requires Scattered(f, codes, scales, source, slots, |slots|, width, rows, 0) && c < width && lane < 32
    requires t < |slots| && 0 <= slots[t] < rows && forall u | t < u < |slots| :: slots[u] != slots[t]
    requires 32 * Flat(t, width, c) + 32 <= |source| && Largest(Lanes(source, Flat(t, width, c)), m)
    ensures At(scales, Flat(slots[t], width, c), ZERO) == f.encode(m / 127.0)
    ensures CodeIs(At(codes, 32 * Flat(slots[t], width, c) + lane, 0), At(source, 32 * Flat(t, width, c) + lane, 0.0), m)
  {
    assert LastToken(slots, slots[t], |slots|) == t;
    assert CellDone(f, codes, scales, source, slots, |slots|, width, 0, slots[t], c);
    hide Scattered, Flat, CodeIs, LastToken, Codes, Scale, Largest;
    var values := Lanes(source, Flat(t, width, c));
    LargestIs(values, m);
    CodesNearest(values, m, lane);
    assert Lanes(codes, Flat(slots[t], width, c))[lane] == codes[32 * Flat(slots[t], width, c) + lane];
  }

  /** A gathered element is the code times the scale that the block table leads to, and zero for a missing block. */
  lemma GatherWrittenOut(f: HalfFormat, codes: seq<int>, scales: seq<Half>, p: Paging, cumulative: seq<nat>,
                         tokens: nat, heads: nat, dim: nat, out: seq<Float>, token: nat, s: nat, head: nat, group: nat,
                         lane: nat)
    requires dim % 32 == 0 && Sized(codes, scales, p, Flat(heads, dim / 32, 0))
    requires Covers(p, cumulative) && Offsets(cumulative, tokens) && |out| == 32 * Flat(tokens, Flat(heads, dim / 32, 0), 0)
    requires Gathered(f, codes, scales, p, cumulative, Flat(heads, dim / 32, 0), out,
                      Flat(tokens, Flat(heads, dim / 32, 0), 0))
    requires token < tokens && s + 1 < |cumulative| && cumulative[s] <= token < cumulative[s + 1]
    requires head < heads && group < dim / 32 && lane < 32
    ensures var local := token - cumulative[s];
      var block := At(p.table, RowMajor(s, p.maxBlocks, Quot(local, p.page)), -1);
      At(out, RowMajor(RowMajor(token, heads, head), dim, 32 * group + lane), NaN) ==
      if block < 0 then Finite(0.0)
      else
        var slot := RowMajor(block, p.page, Rem(local, p.page));
        Product(At(codes, RowMajor(RowMajor(slot, heads, head), dim, 32 * group + lane), 0),
                f.decode(At(scales, RowMajor(RowMajor(slot, heads, head), dim / 32, group), ZERO)))
  {
    var width, c := Flat(heads, dim / 32, 0), Flat(head, dim / 32, group);
    assert InSequence(cumulative, token, s);
    hide Gathered, Flat, RowMajor, Product, Covers, Sized, Offsets, At, BlockOf, SlotOf;
    CellIndex(token, heads, head, dim, group, lane);
    GatheredCell(f, codes, scales, p, cumulative, tokens, width, out, token, s, c, lane);
    BlockIs(p, cumulative, token, s);
    if BlockOf(p, cumulative, token, s) >= 0 {
      CellIndex(SlotOf(p, cumulative, token, s), heads, head, dim, group, lane);
    }
  }

  lemma BlockIs(p: Paging, cumulative: seq<nat>, token: nat, s: nat)
    requires Covers(p, cumulative) && InSequence(cumulative, token, s) && p.page > 0
    ensures var local := token - cumulative[s];
      var block := At(p.table, RowMajor(s, p.maxBlocks, Quot(local, p.page)), -1);
      && BlockOf(p, cumulative, token, s) == block
      && (block >= 0 ==> SlotOf(p, cumulative, token, s) == RowMajor(block, p.page, Rem(local, p.page)))
  {
    hide RowMajor, Flat;
    EntryInTable(p, cumulative, token, s);
  }

  /** The same, by the number of the cell. */
  lemma GatheredCell(f: HalfFormat, codes: seq<int>, scales: seq<Half>, p: Paging, cumulative: seq<nat>, tokens: nat,
                     width: nat, out: seq<Float>, token: nat, s: nat, c: nat, lane: nat)
    requires Sized(codes, scales, p, width) && Covers(p, cumulative) && |out| == 32 * Flat(tokens, width, 0)
    requires Gathered(f, codes, scales, p, cumulative, width, out, Flat(tokens, width, 0))
    requires token < tokens && InSequence(cumulative, token, s) && c < width && lane < 32
    ensures At(out, 32 * Flat(token, width, c) + lane, NaN) ==
      if BlockOf(p, cumulative, token, s) < 0 then Finite(0.0)
      else
        var slot := SlotOf(p, cumulative, token, s);
        Product(At(codes, 32 * Flat(slot, width, c) + lane, 0), f.decode(At(scales, Flat(slot, width, c), ZERO)))
  {
    FlatOrder(token, tokens, width, c, 0);
    assert GroupGathered(f, codes, scales, p, cumulative, width, out, token, c);
    hide Gathered, Flat, Product, Covers, InSequence, BlockOf, SlotOf, Offsets;
    assert At(out, 32 * Flat(token, width, c) + lane, NaN) == Lanes(out, Flat(token, width, c))[lane];
    if BlockOf(p, cumulative, token, s) >= 0 {
      SlotInCache(p, cumulative, token, s, width, c);
      var slot := SlotOf(p, cumulative, token, s);
      assert At(codes, 32 * Flat(slot, width, c) + lane, 0) == Lanes(codes, Flat(slot, width, c))[lane];
    }
  }

  /**
   Scatter, then gather: the element of token t that the block table leads token `token` to comes back within half of
   the scale m / 127 and 127 times the rounding of that scale, if the scale is read back as a real.
   */
  lemma RoundTripWrittenOut(f: HalfFormat, source: seq<real>, slots: seq<int>, p: Paging, cumulative: seq<nat>,
                            tokens: nat, heads: nat, dim: nat, out: seq<Float>, t: nat, token: nat, s: nat, head: nat,
                            group: nat, lane: nat, m: real)
    requires dim % 32 == 0 && Covers(p, cumulative)
    requires Recovered(f, source, slots, p, cumulative, tokens, Flat(heads, dim / 32, 0), out)
    requires token < tokens && s + 1 < |cumulative| && cumulative[s] <= token < cumulative[s + 1]
    requires var block := At(p.table, RowMajor(s, p.maxBlocks, Quot(token - cumulative[s], p.page)), -1);
      t < |slots| && block >= 0 && slots[t] == RowMajor(block, p.page, Rem(token - cumulative[s], p.page))
    requires head < heads && group < dim / 32 && lane < 32 && GroupLargest(source, t, heads, head, dim, group, m)
    ensures var value := At(source, RowMajor(RowMajor(t, heads, head), dim, 32 * group + lane), 0.0);
      var decoded := At(out, RowMajor(RowMajor(token, heads, head), dim, 32 * group + lane), NaN);
      var stored := f.decode(f.encode(m / 127.0));
      if stored.Finite? then
        decoded.Finite? && Abs(decoded.value - value) <= m / 254.0 + 127.0 * Abs(stored.value - m / 127.0)
      else
        !decoded.Finite?
  {
    var width, c := Flat(heads, dim / 32, 0), Flat(head, dim / 32, group);
    CellIndex(t, heads, head, dim, group, lane);
    CellIndex(token, heads, head, dim, group, lane);
    TableLeads(p, cumulative, slots, t, token, s);
    assert ElementRecovered(f, source, out, width, t, token, c, lane);
    hide Recovered, GroupLargest, Flat, RowMajor, Covers, Largest, Product, CodeSign;
    LanesLargest(source, t, heads, head, dim, group, m);
    assert Lanes(source, Flat(t, width, c))[lane] == source[32 * Flat(t, width, c) + lane];
    NotFinite(CodeSign(source[32 * Flat(t, width, c) + lane], m / 127.0), f.decode(f.encode(m / 127.0)));
  }

  lemma NotFinite(code: int, stored: Float)
    ensures !stored.Finite? ==> !Product(code, stored).Finite?
  {
  }

  lemma TableLeads(p: Paging, cumulative: seq<nat>, slots: seq<int>, t: nat, token: nat, s: nat)
    requires Covers(p, cumulative) && s + 1 < |cumulative| && cumulative[s] <= token < cumulative[s + 1]
    requires var block := At(p.table, RowMajor(s, p.maxBlocks, Quot(token - cumulative[s], p.page)), -1);
      t < |slots| && block >= 0 && slots[t] == RowMajor(block, p.page, Rem(token - cumulative[s], p.page))
    ensures LeadsTo(p, cumulative, slots, t, token, s)
  {
    hide RowMajor, Flat;
    EntryInTable(p, cumulative, token, s);
  }

  /** With the library's halves for the scales, every condition is one on m. */
  lemma HalvesWrittenOut(source: seq<real>, slots: seq<int>, p: Paging, cumulative: seq<nat>, tokens: nat, heads: nat,
                         dim: nat, out: seq<Float>, t: nat, token: nat, s: nat, head: nat, group: nat, lane: nat, m: real)
    requires dim % 32 == 0 && Covers(p, cumulative)
    requires HalfScale.AllReadBack(source, slots, p, cumulative, tokens, Flat(heads, dim / 32, 0), out)
    requires token < tokens && s + 1 < |cumulative| && cumulative[s] <= token < cumulative[s + 1]
    requires var block := At(p.table, RowMajor(s, p.maxBlocks, Quot(token - cumulative[s], p.page)), -1);
      t < |slots| && block >= 0 && slots[t] == RowMajor(block, p.page, Rem(token - cumulative[s], p.page))
    requires head < heads && group < dim / 32 && lane < 32 && GroupLargest(source, t, heads, head, dim, group, m)
    ensures var value := At(source, RowMajor(RowMajor(t, heads, head), dim, 32 * group + lane), 0.0);
      var decoded := At(out, RowMajor(RowMajor(token, heads, head), dim, 32 * group + lane), NaN);
      if m < 127.0 * (65520.0 - 1.0 / 512.0) then
        decoded.Finite? && Abs(decoded.value - value) <= m * 9.0 / 2032.0 + 1.0 / 262144.0
      else
        decoded == if 254.0 * Abs(value) < m then NaN else if value > 0.0 then PlusInfinity else MinusInfinity
  {
    var width, c := Flat(heads, dim / 32, 0), Flat(head, dim / 32, group);
    CellIndex(t, heads, head, dim, group, lane);
    CellIndex(token, heads, head, dim, group, lane);
    TableLeads(p, cumulative, slots, t, token, s);
    assert HalfScale.ElementReadBack(source, out, width, t, token, c, lane);
    hide HalfScale.AllReadBack, GroupLargest, Flat, RowMajor, Covers, Largest;
    LanesLargest(source, t, heads, head, dim, group, m);
  }
}
