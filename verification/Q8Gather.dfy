/**
 Gathering packed sequences from the paged Q8_0 cache (benchmarks/cases/q8_kv.cpp), and what a scatter followed by
 a gather returns.
 */
module Q8Gather {
  import opened Arith
  import opened Options
  import opened Q8Codec
  import opened Q8Cache

  // ---------- which sequence a token belongs to ----------

  /** Offsets of the packed sequences: nondecreasing, from 0 to the token count. Sequences may be empty. */
  ghost predicate Offsets(cumulative: seq<nat>, tokens: nat) {
    && |cumulative| >= 2 && cumulative[0] == 0 && cumulative[|cumulative| - 1] == tokens
    && forall a, b | 0 <= a <= b < |cumulative| :: cumulative[a] <= cumulative[b]
  }

  predicate InSequence(cumulative: seq<nat>, token: nat, s: nat) {
    s + 1 < |cumulative| && cumulative[s] <= token < cumulative[s + 1]
  }

  lemma SequenceUnique(cumulative: seq<nat>, tokens: nat, token: nat, a: nat, b: nat)
    requires Offsets(cumulative, tokens) && InSequence(cumulative, token, a) && InSequence(cumulative, token, b)
    ensures a == b
  {
  }

  lemma {:induction false} SequenceExists(cumulative: seq<nat>, tokens: nat, token: nat, s: nat) returns (r: nat)
    requires Offsets(cumulative, tokens) && token < tokens
    requires s + 1 < |cumulative| && cumulative[s] <= token
    ensures InSequence(cumulative, token, r)
    decreases |cumulative| - s
  {
    if token < cumulative[s + 1] {
      return s;
    }
    r := SequenceExists(cumulative, tokens, token, s + 1);
  }

  /** The inner while loop: the cursor only moves forward, and stops at the token's sequence. */
  method AdvanceCursor(cumulative: seq<nat>, ghost tokens: nat, token: nat, start: nat) returns (sequence: nat)
    requires Offsets(cumulative, tokens) && token < tokens
    requires start + 1 < |cumulative| && cumulative[start] <= token
    ensures start <= sequence && InSequence(cumulative, token, sequence)
  {
    sequence := start;
    while sequence + 1 < |cumulative| - 1 && token >= cumulative[sequence + 1]
      invariant start <= sequence && sequence + 1 < |cumulative| && cumulative[sequence] <= token
      decreases |cumulative| - sequence
    {
      sequence := sequence + 1;
    }
  }

  // ---------- what a token's row is ----------

  /** A block table of `maxBlocks` entries per sequence over a cache of `blocks` pages; negative entries are holes. */
  datatype Paging = Paging(table: seq<int>, maxBlocks: nat, page: nat, blocks: nat)

  /** What the gather validates before it reads anything. */
  ghost predicate Covers(p: Paging, cumulative: seq<nat>) {
    && p.page > 0 && |cumulative| >= 1
    && |p.table| == Flat(|cumulative| - 1, p.maxBlocks, 0)
    && (forall i | 0 <= i < |p.table| :: p.table[i] < p.blocks)
    && forall s | 0 <= s < |cumulative| - 1 :: cumulative[s + 1] - cumulative[s] <= Flat(p.maxBlocks, p.page, 0)
  }

  lemma EntryInTable(p: Paging, cumulative: seq<nat>, token: nat, s: nat)
    requires Covers(p, cumulative) && InSequence(cumulative, token, s)
    ensures Quot(token - cumulative[s], p.page) < p.maxBlocks
    ensures Flat(s, p.maxBlocks, Quot(token - cumulative[s], p.page)) < |p.table|
  {
    FlatSplit(token - cumulative[s], p.maxBlocks, p.page);
    FlatOrder(s, |cumulative| - 1, p.maxBlocks, Quot(token - cumulative[s], p.page), 0);
  }

  function BlockOf(p: Paging, cumulative: seq<nat>, token: nat, s: nat): (block: int)
    requires Covers(p, cumulative) && InSequence(cumulative, token, s)
    ensures block < p.blocks
  {
    EntryInTable(p, cumulative, token, s);
    p.table[Flat(s, p.maxBlocks, Quot(token - cumulative[s], p.page))]
  }

  /** The cache slot of a token whose block is not a hole. */
  function SlotOf(p: Paging, cumulative: seq<nat>, token: nat, s: nat): nat
    requires Covers(p, cumulative) && InSequence(cumulative, token, s) && BlockOf(p, cumulative, token, s) >= 0
  {
    Flat(BlockOf(p, cumulative, token, s), p.page, Rem(token - cumulative[s], p.page))
  }

  lemma SlotInCache(p: Paging, cumulative: seq<nat>, token: nat, s: nat, width: nat, c: nat)
    requires Covers(p, cumulative) && InSequence(cumulative, token, s) && BlockOf(p, cumulative, token, s) >= 0
    requires c < width
    ensures SlotOf(p, cumulative, token, s) < Flat(p.blocks, p.page, 0)
    ensures Flat(SlotOf(p, cumulative, token, s), width, c) < Flat(Flat(p.blocks, p.page, 0), width, 0)
  {
    FlatOrder(BlockOf(p, cumulative, token, s), p.blocks, p.page, Rem(token - cumulative[s], p.page), 0);
    FlatOrder(SlotOf(p, cumulative, token, s), Flat(p.blocks, p.page, 0), width, c, 0);
  }

  predicate Sized<T, U>(codes: seq<T>, scales: seq<U>, p: Paging, width: nat) {
    |scales| == Flat(Flat(p.blocks, p.page, 0), width, 0) && |codes| == 32 * |scales|
  }

  function ZeroLanes(): (z: seq<Float>)
    ensures |z| == 32
  {
    seq(32, i => Finite(0.0))
  }

  /** Group c of a token's row: zeros for a hole, else the decoded cell of its slot. */
  function RowGroup(f: HalfFormat, codes: seq<int>, scales: seq<Half>, p: Paging, cumulative: seq<nat>,
                    width: nat, token: nat, s: nat, c: nat): (values: seq<Float>)
    requires Sized(codes, scales, p, width) && c < width
    requires Covers(p, cumulative) && InSequence(cumulative, token, s)
    ensures |values| == 32
  {
    if BlockOf(p, cumulative, token, s) < 0 then ZeroLanes()
    else
      SlotInCache(p, cumulative, token, s, width, c);
      var cell := Flat(SlotOf(p, cumulative, token, s), width, c);
      Decoded(Lanes(codes, cell), f.decode(scales[cell]))
  }

  /** Group c of the token's output row is what the cache denotes for it. */
  ghost predicate GroupGathered(f: HalfFormat, codes: seq<int>, scales: seq<Half>, p: Paging, cumulative: seq<nat>,
                                width: nat, out: seq<Float>, token: nat, c: nat)
    requires Sized(codes, scales, p, width) && Covers(p, cumulative)
  {
    c < width && 32 * Flat(token, width, c) + 32 <= |out| ==>
      forall s: nat | InSequence(cumulative, token, s) ::
        Lanes(out, Flat(token, width, c)) == RowGroup(f, codes, scales, p, cumulative, width, token, s, c)
  }

  /** The first `done` groups of the output, in row-major order, are finished. */
  ghost predicate Gathered(f: HalfFormat, codes: seq<int>, scales: seq<Half>, p: Paging, cumulative: seq<nat>,
                           width: nat, out: seq<Float>, done: nat)
    requires Sized(codes, scales, p, width) && Covers(p, cumulative)
  {
    forall token: nat, c: nat | c < width && Flat(token, width, c) < done ::
      GroupGathered(f, codes, scales, p, cumulative, width, out, token, c)
  }

  lemma GroupWritten(f: HalfFormat, codes: seq<int>, scales: seq<Half>, p: Paging, cumulative: seq<nat>, tokens: nat,
                     width: nat, out: seq<Float>, out': seq<Float>, token: nat, s: nat, c: nat)
    requires Sized(codes, scales, p, width) && Covers(p, cumulative) && Offsets(cumulative, tokens)
    requires InSequence(cumulative, token, s) && c < width
    requires var g := Flat(token, width, c);
      && 32 * g + 32 <= |out| == |out'| && out'[..32 * g] == out[..32 * g]
      && Lanes(out', g) == RowGroup(f, codes, scales, p, cumulative, width, token, s, c)
      && Gathered(f, codes, scales, p, cumulative, width, out, g)
    ensures Gathered(f, codes, scales, p, cumulative, width, out', Flat(token, width, c) + 1)
  {
    hide RowGroup;
    var g := Flat(token, width, c);
    forall t: nat, d: nat | d < width && Flat(t, width, d) < g + 1
      ensures GroupGathered(f, codes, scales, p, cumulative, width, out', t, d)
    {
      var h := Flat(t, width, d);
      if h == g {
        FlatInjective(t, token, width, d, c);
        forall r: nat | InSequence(cumulative, token, r) ensures r == s {
          SequenceUnique(cumulative, tokens, token, r, s);
        }
      } else {
        assert GroupGathered(f, codes, scales, p, cumulative, width, out, t, d);
        assert Lanes(out', h) == out'[..32 * g][32 * h..32 * h + 32];
        assert Lanes(out, h) == out[..32 * g][32 * h..32 * h + 32];
      }
    }
  }

  /** A whole row of zeros is what a hole denotes. */
  lemma HoleWritten(f: HalfFormat, codes: seq<int>, scales: seq<Half>, p: Paging, cumulative: seq<nat>, tokens: nat,
                    width: nat, out: seq<Float>, out': seq<Float>, token: nat, s: nat)
    requires Sized(codes, scales, p, width) && Covers(p, cumulative) && Offsets(cumulative, tokens)
    requires InSequence(cumulative, token, s) && BlockOf(p, cumulative, token, s) < 0
    requires var base, end := 32 * Flat(token, width, 0), 32 * Flat(token + 1, width, 0);
      && end <= |out| == |out'| && out'[..base] == out[..base]
      && (forall i | base <= i < end :: out'[i] == Finite(0.0))
    requires Gathered(f, codes, scales, p, cumulative, width, out, Flat(token, width, 0))
    ensures Gathered(f, codes, scales, p, cumulative, width, out', Flat(token + 1, width, 0))
  {
    var base, end := Flat(token, width, 0), Flat(token + 1, width, 0);
    forall t: nat, d: nat | d < width && Flat(t, width, d) < end
      ensures GroupGathered(f, codes, scales, p, cumulative, width, out', t, d)
    {
      var h := Flat(t, width, d);
      if h < base {
        assert GroupGathered(f, codes, scales, p, cumulative, width, out, t, d);
        assert Lanes(out', h) == out'[..32 * base][32 * h..32 * h + 32];
        assert Lanes(out, h) == out[..32 * base][32 * h..32 * h + 32];
      } else {
        RowOfIndex(t, token, width, d);
        assert Lanes(out', h) == ZeroLanes();
        forall r: nat | InSequence(cumulative, token, r) ensures r == s {
          SequenceUnique(cumulative, tokens, token, r, s);
        }
      }
    }
  }

  lemma RowOfIndex(t: nat, token: nat, width: nat, d: nat)
    requires d < width && Flat(token, width, 0) <= Flat(t, width, d) < Flat(token + 1, width, 0)
    ensures t == token
  {
    if t < token {
      FlatOrder(t, token, width, d, 0);
    } else if t > token {
      FlatShift(t, width, 0, d);
      if t > token + 1 {
        FlatOrder(token + 1, t, width, 0, 0);
      }
    }
  }

  // ---------- gather ----------

  /** Where the source writes a group of a token's row. */
  function OutputIndex(token: nat, heads: nat, head: nat, dim: nat, group: nat): nat {
    token * heads * dim + head * dim + group * 32
  }

  lemma OutputIndexIs(token: nat, heads: nat, head: nat, groups: nat, group: nat)
    requires head < heads && group < groups
    ensures OutputIndex(token, heads, head, groups * 32, group)
         == 32 * Flat(token, Flat(heads, groups, 0), Flat(head, groups, group))
    ensures Flat(head, groups, group) < Flat(heads, groups, 0)
  {
    GroupIndex(token, heads, head, groups, group);
    MulAdd(token * heads, head, groups * 32);
  }

  /** Output and cache of one plane while a gather runs. */
  ghost predicate Gathering(f: HalfFormat, codes: array<int>, scales: array<Half>, p: Paging, cumulative: seq<nat>,
                            tokens: nat, width: nat, out: array<Float>, done: nat)
    reads codes, scales, out
  {
    && Sized(codes[..], scales[..], p, width) && Covers(p, cumulative) && Offsets(cumulative, tokens)
    && out.Length == 32 * Flat(tokens, width, 0)
    && Gathered(f, codes[..], scales[..], p, cumulative, width, out[..], done)
  }

  /** The lane loop for one group of one plane. */
  method DecodeGroup(f: HalfFormat, codes: array<int>, from: nat, scales: array<Half>, cell: nat, out: array<Float>,
                     to: nat)
    requires from + 32 <= codes.Length && cell < scales.Length && to + 32 <= out.Length
    modifies out
    ensures out[to..to + 32] == Decoded(codes[from..from + 32], f.decode(scales[cell]))
    ensures out[..to] == old(out[..to])
  {
    var scale := f.decode(scales[cell]);
    ghost var all := Decoded(codes[from..from + 32], scale);
    hide Product;
    for lane := 0 to 32
      invariant out[to..to + lane] == all[..lane]
      invariant out[..to] == old(out[..to])
    {
      out[to + lane] := Product(codes[from + lane], scale);
      assert all[..lane + 1] == all[..lane] + [all[lane]];
      assert out[to..to + lane + 1] == out[to..to + lane] + [out[to + lane]];
    }
  }

  method LoadGroup(f: HalfFormat, codes: array<int>, scales: array<Half>, p: Paging, cumulative: seq<nat>,
                   ghost tokens: nat, token: nat, ghost sequence: nat, slot: nat, out: array<Float>,
                   heads: nat, head: nat, groups: nat, group: nat)
    requires head < heads && group < groups && token < tokens
    requires Gathering(f, codes, scales, p, cumulative, tokens, Flat(heads, groups, 0), out,
                       Flat(token, Flat(heads, groups, 0), Flat(head, groups, group)))
    requires InSequence(cumulative, token, sequence) && BlockOf(p, cumulative, token, sequence) >= 0
    requires slot == SlotOf(p, cumulative, token, sequence)
    modifies out
    ensures Gathering(f, codes, scales, p, cumulative, tokens, Flat(heads, groups, 0), out,
                      Flat(token, Flat(heads, groups, 0), Flat(head, groups, group) + 1))
  {
    hide Gathered, Covers, BlockOf, SlotOf, OutputIndex, ElementIndex, ScaleIndex;
    ghost var width, c := Flat(heads, groups, 0), Flat(head, groups, group);
    GroupIndex(slot, heads, head, groups, group);
    OutputIndexIs(token, heads, head, groups, group);
    SlotInCache(p, cumulative, token, sequence, width, c);
    FlatOrder(token, tokens, width, c, 0);
    FlatShift(token, width, c, 1);
    var from := ElementIndex(slot, heads, head, groups * 32, group);
    var cell := ScaleIndex(slot, heads, head, groups, group);
    var to := OutputIndex(token, heads, head, groups * 32, group);
    ghost var out0 := out[..];
    DecodeGroup(f, codes, from, scales, cell, out, to);
    assert out[..][..to] == out0[..to];
    assert Lanes(out[..], Flat(token, width, c)) == out[to..to + 32];
    assert Lanes(codes[..], Flat(slot, width, c)) == codes[from..from + 32];
    GroupWritten(f, codes[..], scales[..], p, cumulative, tokens, width, out0, out[..], token, sequence, c);
  }

  /** std::fill_n over one row of one plane. */
  method ZeroRow(f: HalfFormat, codes: array<int>, scales: array<Half>, p: Paging, cumulative: seq<nat>,
                 ghost tokens: nat, token: nat, ghost sequence: nat, out: array<Float>, heads: nat, groups: nat)
    requires token < tokens
    requires Gathering(f, codes, scales, p, cumulative, tokens, Flat(heads, groups, 0), out,
                       Flat(token, Flat(heads, groups, 0), 0))
    requires InSequence(cumulative, token, sequence) && BlockOf(p, cumulative, token, sequence) < 0
    modifies out
    ensures Gathering(f, codes, scales, p, cumulative, tokens, Flat(heads, groups, 0), out,
                      Flat(token + 1, Flat(heads, groups, 0), 0))
  {
    hide Gathered, Covers, BlockOf;
    RowIndexIs(token, heads, groups);
    RowFits(token, tokens, Flat(heads, groups, 0));
    var base, size := RowBase(token, heads, groups * 32), heads * (groups * 32);
    ghost var out0, codes0, scales0 := out[..], codes[..], scales[..];
    forall i | base <= i < base + size {
      out[i] := Finite(0.0);
    }
    assert codes[..] == codes0 && scales[..] == scales0 && out[..][..base] == out0[..base];
    HoleWritten(f, codes0, scales0, p, cumulative, tokens, Flat(heads, groups, 0), out0, out[..], token, sequence);
  }

  function RowBase(token: nat, heads: nat, dim: nat): nat {
    token * heads * dim
  }

  lemma RowIndexIs(token: nat, heads: nat, groups: nat)
    ensures RowBase(token, heads, groups * 32) == 32 * Flat(token, Flat(heads, groups, 0), 0)
    ensures RowBase(token, heads, groups * 32) + heads * (groups * 32) == 32 * Flat(token + 1, Flat(heads, groups, 0), 0)
  {
    FlatProduct(heads, groups, 0);
    FlatProduct(token, Flat(heads, groups, 0), 0);
    FlatShift(token, Flat(heads, groups, 0), 0, Flat(heads, groups, 0));
    MulAssoc(heads, groups, 32);
    MulAssoc(token, heads, groups * 32);
    MulAssoc(token, heads * groups, 32);
  }

  lemma RowFits(token: nat, tokens: nat, width: nat)
    requires token < tokens
    ensures Flat(token + 1, width, 0) <= Flat(tokens, width, 0)
  {
    if width == 0 {
      FlatProduct(token + 1, width, 0);
    } else {
      FlatOrder(token, tokens, width, 0, 0);
    }
  }

  /**
   gather_oracle: every group of every token's row is what the cache denotes for it, and the cursor moves at
   most sequences - 1 times over the whole run.
   */
  method Gather(f: HalfFormat, keyCodes: array<int>, keyScales: array<Half>, valueCodes: array<int>,
                valueScales: array<Half>, p: Paging, cumulative: seq<nat>, keyOut: array<Float>, valueOut: array<Float>,
                tokens: nat, heads: nat, dim: nat)
    returns (ghost moves: nat)
    requires dim % 32 == 0 && Covers(p, cumulative) && Offsets(cumulative, tokens)
    requires Sized(keyCodes[..], keyScales[..], p, Flat(heads, dim / 32, 0))
    requires Sized(valueCodes[..], valueScales[..], p, Flat(heads, dim / 32, 0))
    requires keyOut.Length == valueOut.Length == 32 * Flat(tokens, Flat(heads, dim / 32, 0), 0) && keyOut != valueOut
    modifies keyOut, valueOut
    ensures moves <= |cumulative| - 2
    ensures Gathering(f, keyCodes, keyScales, p, cumulative, tokens, Flat(heads, dim / 32, 0), keyOut,
                      Flat(tokens, Flat(heads, dim / 32, 0), 0))
    ensures Gathering(f, valueCodes, valueScales, p, cumulative, tokens, Flat(heads, dim / 32, 0), valueOut,
                      Flat(tokens, Flat(heads, dim / 32, 0), 0))
  {
    hide Gathered, Covers;
    var groups := dim / 32;
    ghost var width := Flat(heads, groups, 0);
    FlatProduct(0, width, 0);
    NothingGathered(f, keyCodes[..], keyScales[..], p, cumulative, width, keyOut[..]);
    NothingGathered(f, valueCodes[..], valueScales[..], p, cumulative, width, valueOut[..]);
    var sequence := 0;
    moves := 0;
    for token := 0 to tokens
      invariant sequence + 1 < |cumulative| && cumulative[sequence] <= token && moves == sequence
      invariant Gathering(f, keyCodes, keyScales, p, cumulative, tokens, width, keyOut, Flat(token, width, 0))
      invariant Gathering(f, valueCodes, valueScales, p, cumulative, tokens, width, valueOut, Flat(token, width, 0))
    {
      var start := sequence;
      sequence := AdvanceCursor(cumulative, tokens, token, start);
      moves := moves + (sequence - start);
      var local := token - cumulative[sequence];
      var block := ReadBlock(p, cumulative, token, sequence, local);
      if block < 0 {
        ZeroRow(f, keyCodes, keyScales, p, cumulative, tokens, token, sequence, keyOut, heads, groups);
        ZeroRow(f, valueCodes, valueScales, p, cumulative, tokens, token, sequence, valueOut, heads, groups);
      } else {
        var slot := ReadSlot(p, cumulative, token, sequence, local, block);
        LoadRow(f, keyCodes, keyScales, valueCodes, valueScales, p, cumulative, tokens, token, sequence, slot,
                keyOut, valueOut, heads, groups);
      }
    }
  }

  /** The head and group loops of one token. */
  method LoadRow(f: HalfFormat, keyCodes: array<int>, keyScales: array<Half>, valueCodes: array<int>,
                 valueScales: array<Half>, p: Paging, cumulative: seq<nat>, ghost tokens: nat, token: nat,
                 ghost sequence: nat, slot: nat, keyOut: array<Float>, valueOut: array<Float>, heads: nat, groups: nat)
    requires token < tokens && keyOut != valueOut
    requires InSequence(cumulative, token, sequence)
    requires Gathering(f, keyCodes, keyScales, p, cumulative, tokens, Flat(heads, groups, 0), keyOut,
                       Flat(token, Flat(heads, groups, 0), 0))
    requires Gathering(f, valueCodes, valueScales, p, cumulative, tokens, Flat(heads, groups, 0), valueOut,
                       Flat(token, Flat(heads, groups, 0), 0))
    requires BlockOf(p, cumulative, token, sequence) >= 0 && slot == SlotOf(p, cumulative, token, sequence)
    modifies keyOut, valueOut
    ensures Gathering(f, keyCodes, keyScales, p, cumulative, tokens, Flat(heads, groups, 0), keyOut,
                      Flat(token + 1, Flat(heads, groups, 0), 0))
    ensures Gathering(f, valueCodes, valueScales, p, cumulative, tokens, Flat(heads, groups, 0), valueOut,
                      Flat(token + 1, Flat(heads, groups, 0), 0))
  {
    hide Gathered, Covers, BlockOf, SlotOf, Sized;
    ghost var width := Flat(heads, groups, 0);
    for head := 0 to heads
      invariant Gathering(f, keyCodes, keyScales, p, cumulative, tokens, width, keyOut,
                          Flat(token, width, Flat(head, groups, 0)))
      invariant Gathering(f, valueCodes, valueScales, p, cumulative, tokens, width, valueOut,
                          Flat(token, width, Flat(head, groups, 0)))
    {
      for group := 0 to groups
        invariant Gathering(f, keyCodes, keyScales, p, cumulative, tokens, width, keyOut,
                            Flat(token, width, Flat(head, groups, group)))
        invariant Gathering(f, valueCodes, valueScales, p, cumulative, tokens, width, valueOut,
                            Flat(token, width, Flat(head, groups, group)))
      {
        FlatShift(head, groups, group, 1);
        LoadGroup(f, keyCodes, keyScales, p, cumulative, tokens, token, sequence, slot, keyOut,
                  heads, head, groups, group);
        LoadGroup(f, valueCodes, valueScales, p, cumulative, tokens, token, sequence, slot, valueOut,
                  heads, head, groups, group);
      }
      FlatShift(head, groups, 0, groups);
    }
    FlatShift(token, width, 0, width);
  }

  lemma NothingGathered(f: HalfFormat, codes: seq<int>, scales: seq<Half>, p: Paging, cumulative: seq<nat>,
                        width: nat, out: seq<Float>)
    requires Sized(codes, scales, p, width) && Covers(p, cumulative)
    ensures Gathered(f, codes, scales, p, cumulative, width, out, 0)
  {
  }

  /** The block table entry, at the index the source computes. */
  method ReadBlock(p: Paging, cumulative: seq<nat>, token: nat, sequence: nat, local: nat) returns (block: int)
    requires Covers(p, cumulative) && InSequence(cumulative, token, sequence) && local == token - cumulative[sequence]
    ensures block == BlockOf(p, cumulative, token, sequence)
  {
    EntryInTable(p, cumulative, token, sequence);
    DivMod(local, p.page);
    FlatProduct(sequence, p.maxBlocks, Quot(local, p.page));
    block := p.table[sequence * p.maxBlocks + local / p.page];
  }

  method ReadSlot(p: Paging, cumulative: seq<nat>, token: nat, sequence: nat, local: nat, block: nat)
    returns (slot: nat)
    requires Covers(p, cumulative) && InSequence(cumulative, token, sequence) && local == token - cumulative[sequence]
    requires block == BlockOf(p, cumulative, token, sequence)
    ensures slot == SlotOf(p, cumulative, token, sequence)
  {
    DivMod(local, p.page);
    FlatProduct(block, p.page, Rem(local, p.page));
    slot := block * p.page + local % p.page;
  }

  // ---------- scatter, then gather ----------

  /** No two of the tokens written share a slot. */
  ghost predicate DistinctSlots(slots: seq<int>) {
    forall t, u | 0 <= t < u < |slots| && slots[t] >= 0 :: slots[t] != slots[u]
  }

  lemma OnlyToken(slots: seq<int>, t: nat)
    requires t < |slots| && slots[t] >= 0 && DistinctSlots(slots)
    ensures LastToken(slots, slots[t], |slots|) == t
  {
  }

  /** The group of a scattered token, read through the block table. */
  lemma ScatteredGroup(f: HalfFormat, codes: seq<int>, scales: seq<Half>, source: seq<real>, slots: seq<int>,
                       p: Paging, cumulative: seq<nat>, width: nat, t: nat, token: nat, s: nat, c: nat)
    requires Sized(codes, scales, p, width) && Covers(p, cumulative) && InSequence(cumulative, token, s)
    requires |source| == 32 * Flat(|slots|, width, 0) && DistinctSlots(slots)
    requires Scattered(f, codes, scales, source, slots, |slots|, width, Flat(p.blocks, p.page, 0), 0)
    requires t < |slots| && c < width
    requires BlockOf(p, cumulative, token, s) >= 0 && SlotOf(p, cumulative, token, s) == slots[t]
    ensures 32 * Flat(t, width, c) + 32 <= |source|
    ensures var values := Lanes(source, Flat(t, width, c));
      RowGroup(f, codes, scales, p, cumulative, width, token, s, c)
        == Decoded(Codes(values), ReadScale(f, Scale(values)))
  {
    hide Codes, Scale, Decoded, Covers, BlockOf, SlotOf;
    FlatOrder(t, |slots|, width, c, 0);
    SlotInCache(p, cumulative, token, s, width, c);
    OnlyToken(slots, t);
    assert CellDone(f, codes, scales, source, slots, |slots|, width, 0, slots[t], c);
  }

  /**
   A token that was scattered into the slot the block table names for token `token` comes back with every element
   within half a scale step of the original, plus the effect of rounding the scale, and zero groups come back exactly,
   if the scale of the group is read back as a real. If it has become infinite, no element does.
   */
  lemma ScatterGather(f: HalfFormat, codes: seq<int>, scales: seq<Half>, source: seq<real>, slots: seq<int>,
                      p: Paging, cumulative: seq<nat>, width: nat, t: nat, token: nat, s: nat, c: nat, lane: nat)
    requires Sized(codes, scales, p, width) && Covers(p, cumulative) && InSequence(cumulative, token, s)
    requires |source| == 32 * Flat(|slots|, width, 0) && DistinctSlots(slots)
    requires Scattered(f, codes, scales, source, slots, |slots|, width, Flat(p.blocks, p.page, 0), 0)
    requires t < |slots| && c < width && lane < 32
    requires BlockOf(p, cumulative, token, s) >= 0 && SlotOf(p, cumulative, token, s) == slots[t]
    ensures 32 * Flat(t, width, c) + 32 <= |source|
    ensures var values := Lanes(source, Flat(t, width, c));
      var out := RowGroup(f, codes, scales, p, cumulative, width, token, s, c);
      Recovers(f, values, lane, out[lane])
  {
    hide *;
    ScatteredGroup(f, codes, scales, source, slots, p, cumulative, width, t, token, s, c);
    var values := Lanes(source, Flat(t, width, c));
    GroupRecovers(f, values, lane);
  }

  /** The block table leads token `token` of sequence s to the slot of source token t. */
  ghost predicate LeadsTo(p: Paging, cumulative: seq<nat>, slots: seq<int>, t: nat, token: nat, s: nat)
    requires Covers(p, cumulative)
  {
    && t < |slots| && InSequence(cumulative, token, s) && BlockOf(p, cumulative, token, s) >= 0
    && SlotOf(p, cumulative, token, s) == slots[t]
  }

  /** One element of the gathered output against the element it came from. */
  ghost predicate ElementRecovered(f: HalfFormat, source: seq<real>, out: seq<Float>, width: nat, t: nat, token: nat,
                                   c: nat, lane: nat)
    requires lane < 32
  {
    var from, to := Flat(t, width, c), Flat(token, width, c);
    && 32 * from + 32 <= |source| && 32 * to + 32 <= |out|
    && var values := Lanes(source, from);
       Recovers(f, values, lane, out[32 * to + lane])
  }

  /** Every element that the table leads back to is recovered. */
  ghost predicate Recovered(f: HalfFormat, source: seq<real>, slots: seq<int>, p: Paging, cumulative: seq<nat>,
                            tokens: nat, width: nat, out: seq<Float>)
    requires Covers(p, cumulative)
  {
    forall t: nat, token: nat, s: nat, c: nat, lane: nat |
      token < tokens && LeadsTo(p, cumulative, slots, t, token, s) && c < width && lane < 32 ::
      ElementRecovered(f, source, out, width, t, token, c, lane)
  }

  /** The output of a gather from what a scatter has left. */
  lemma GatheredBack(f: HalfFormat, codes: seq<int>, scales: seq<Half>, source: seq<real>, slots: seq<int>, p: Paging,
                     cumulative: seq<nat>, tokens: nat, width: nat, out: seq<Float>, t: nat, token: nat, s: nat, c: nat,
                     lane: nat)
    requires Sized(codes, scales, p, width) && Covers(p, cumulative) && Offsets(cumulative, tokens)
    requires |source| == 32 * Flat(|slots|, width, 0) && DistinctSlots(slots) && |out| == 32 * Flat(tokens, width, 0)
    requires Scattered(f, codes, scales, source, slots, |slots|, width, Flat(p.blocks, p.page, 0), 0)
    requires Gathered(f, codes, scales, p, cumulative, width, out, Flat(tokens, width, 0))
    requires token < tokens && LeadsTo(p, cumulative, slots, t, token, s) && c < width && lane < 32
    ensures ElementRecovered(f, source, out, width, t, token, c, lane)
  {
    FlatOrder(token, tokens, width, c, 0);
    assert GroupGathered(f, codes, scales, p, cumulative, width, out, token, c);
    ScatterGather(f, codes, scales, source, slots, p, cumulative, width, t, token, s, c, lane);
    hide Recovers, BlockOf, SlotOf, RowGroup, Covers, Sized, Scattered, Gathered, DistinctSlots;
    assert Lanes(out, Flat(token, width, c)) == RowGroup(f, codes, scales, p, cumulative, width, token, s, c);
  }

  lemma AllGatheredBack(f: HalfFormat, codes: seq<int>, scales: seq<Half>, source: seq<real>, slots: seq<int>,
                        p: Paging, cumulative: seq<nat>, tokens: nat, width: nat, out: seq<Float>)
    requires Sized(codes, scales, p, width) && Covers(p, cumulative) && Offsets(cumulative, tokens)
    requires |source| == 32 * Flat(|slots|, width, 0) && DistinctSlots(slots) && |out| == 32 * Flat(tokens, width, 0)
    requires Scattered(f, codes, scales, source, slots, |slots|, width, Flat(p.blocks, p.page, 0), 0)
    requires Gathered(f, codes, scales, p, cumulative, width, out, Flat(tokens, width, 0))
    ensures Recovered(f, source, slots, p, cumulative, tokens, width, out)
  {
    hide *;
    forall t: nat, token: nat, s: nat, c: nat, lane: nat |
      token < tokens && LeadsTo(p, cumulative, slots, t, token, s) && c < width && lane < 32
      ensures ElementRecovered(f, source, out, width, t, token, c, lane)
    {
      GatheredBack(f, codes, scales, source, slots, p, cumulative, tokens, width, out, t, token, s, c, lane);
    }
    RecoveredIs(f, source, slots, p, cumulative, tokens, width, out);
  }

  lemma RecoveredIs(f: HalfFormat, source: seq<real>, slots: seq<int>, p: Paging, cumulative: seq<nat>, tokens: nat,
                    width: nat, out: seq<Float>)
    requires Covers(p, cumulative)
    requires forall t: nat, token: nat, s: nat, c: nat, lane: nat |
      token < tokens && LeadsTo(p, cumulative, slots, t, token, s) && c < width && lane < 32 ::
      ElementRecovered(f, source, out, width, t, token, c, lane)
    ensures Recovered(f, source, slots, p, cumulative, tokens, width, out)
  {
    hide ElementRecovered, LeadsTo, Covers;
  }

  /** Both oracles, one after the other: two planes are scattered, then gathered through the block table. */
  method ScatterThenGather(f: HalfFormat, key: seq<real>, value: seq<real>, slots: seq<int>, keyCodes: array<int>,
                           keyScales: array<Half>, valueCodes: array<int>, valueScales: array<Half>, p: Paging,
                           cumulative: seq<nat>, keyOut: array<Float>, valueOut: array<Float>, tokens: nat, heads: nat,
                           dim: nat)
    requires dim % 32 == 0 && Covers(p, cumulative) && Offsets(cumulative, tokens)
    requires DistinctSlots(slots) && forall t | 0 <= t < |slots| :: slots[t] < Flat(p.blocks, p.page, 0)
    requires |key| == |value| == 32 * Flat(|slots|, Flat(heads, dim / 32, 0), 0)
    requires Sized(keyCodes[..], keyScales[..], p, Flat(heads, dim / 32, 0))
    requires Sized(valueCodes[..], valueScales[..], p, Flat(heads, dim / 32, 0))
    requires keyCodes != valueCodes && keyScales != valueScales && keyOut != valueOut
    requires keyOut.Length == valueOut.Length == 32 * Flat(tokens, Flat(heads, dim / 32, 0), 0)
    modifies keyCodes, keyScales, valueCodes, valueScales, keyOut, valueOut
    ensures Recovered(f, key, slots, p, cumulative, tokens, Flat(heads, dim / 32, 0), keyOut[..])
    ensures Recovered(f, value, slots, p, cumulative, tokens, Flat(heads, dim / 32, 0), valueOut[..])
  {
    ghost var width := Flat(heads, dim / 32, 0);
    Scatter(f, key, value, slots, keyCodes, keyScales, valueCodes, valueScales, heads, dim, Flat(p.blocks, p.page, 0));
    hide Scattered, Gathered, Recovered, DistinctSlots, Offsets, Covers;
    ghost var moves := Gather(f, keyCodes, keyScales, valueCodes, valueScales, p, cumulative, keyOut, valueOut, tokens, heads,
                        dim);
    AllGatheredBack(f, keyCodes[..], keyScales[..], key, slots, p, cumulative, tokens, width, keyOut[..]);
    AllGatheredBack(f, valueCodes[..], valueScales[..], value, slots, p, cumulative, tokens, width, valueOut[..]);
  }

  /** A slot no token was scattered into denotes zeros, if the pattern zero is read as a real. */
  lemma UnwrittenSlot(f: HalfFormat, codes: seq<int>, scales: seq<Half>, source: seq<real>, slots: seq<int>,
                      p: Paging, cumulative: seq<nat>, width: nat, token: nat, s: nat, c: nat, lane: nat)
    requires Sized(codes, scales, p, width) && Covers(p, cumulative) && InSequence(cumulative, token, s)
    requires Scattered(f, codes, scales, source, slots, |slots|, width, Flat(p.blocks, p.page, 0), 0)
    requires c < width && lane < 32
    requires BlockOf(p, cumulative, token, s) >= 0 && SlotOf(p, cumulative, token, s) !in slots
    ensures RowGroup(f, codes, scales, p, cumulative, width, token, s, c)[lane] == Finite(0.0) <==> f.decode(ZERO).Finite?
  {
    hide Codes, Scale, Covers, BlockOf, SlotOf;
    SlotInCache(p, cumulative, token, s, width, c);
    var slot := SlotOf(p, cumulative, token, s);
    assert CellDone(f, codes, scales, source, slots, |slots|, width, 0, slot, c);
    ZeroCode(0.0, f.decode(ZERO));
  }
}
