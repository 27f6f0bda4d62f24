/**
 The functional block remap of the paged Q8_0 cache: kv_cache_copy_blocks_q8_0 of
 kernels/attention/attention_q8_kv.cpp, whose reference is copy_oracle of benchmarks/cases/q8_kv.cpp.
 */
module Q8Copy {
  import opened Arith
  import opened Options
  import opened Q8Codec
  import opened Rows
  import opened Q8Cache
  import opened Q8Gather

  // ---------- what a remap means ----------

  /** Sources and destinations alternate; a pair with a negative member is skipped. */
  predicate Active(pairs: seq<int>, k: nat)
    requires 2 * k + 1 < |pairs|
  {
    pairs[2 * k] >= 0 && pairs[2 * k + 1] >= 0
  }

  predicate PairsInRange(pairs: seq<int>, blocks: nat) {
    |pairs| % 2 == 0 && forall i | 0 <= i < |pairs| :: pairs[i] < blocks
  }

  /** The block whose contents end up in `block`: the source of the last pair naming it, or itself. */
  function SourceOf(pairs: seq<int>, block: nat, n: nat): (source: nat)
    requires 2 * n <= |pairs|
  {
    if n == 0 then block
    else if Active(pairs, n - 1) && pairs[2 * n - 1] == block then pairs[2 * n - 2]
    else SourceOf(pairs, block, n - 1)
  }

  lemma {:induction false} SourceInRange(pairs: seq<int>, block: nat, n: nat, blocks: nat)
    requires 2 * n <= |pairs| && PairsInRange(pairs, blocks) && block < blocks
    ensures SourceOf(pairs, block, n) < blocks
  {
    if n > 0 {
      SourceInRange(pairs, block, n - 1, blocks);
    }
  }

  ghost predicate BlockCopied<T(!new)>(input: seq<T>, output: seq<T>, pairs: seq<int>, n: nat, per: nat, block: nat)
    requires 2 * n <= |pairs|
  {
    && Flat(block, per, 0) + per <= |output| && Flat(SourceOf(pairs, block, n), per, 0) + per <= |input|
    && RowOf(output, block, per) == RowOf(input, SourceOf(pairs, block, n), per)
  }

  /** Every block of the output holds what its source block held in the input, for the first n pairs. */
  ghost predicate Copied<T(!new)>(input: seq<T>, output: seq<T>, pairs: seq<int>, n: nat, per: nat, blocks: nat)
    requires 2 * n <= |pairs|
  {
    && |input| == |output| == Flat(blocks, per, 0)
    && forall block: nat | block < blocks :: BlockCopied(input, output, pairs, n, per, block)
  }

  lemma Cloned<T(!new)>(data: seq<T>, pairs: seq<int>, per: nat, blocks: nat)
    requires |data| == Flat(blocks, per, 0)
    ensures Copied(data, data, pairs, 0, per, blocks)
  {
    forall block: nat | block < blocks ensures BlockCopied(data, data, pairs, 0, per, block) {
      RowInside(block, blocks, per);
    }
  }

  lemma PairSkipped<T(!new)>(input: seq<T>, output: seq<T>, pairs: seq<int>, n: nat, per: nat, blocks: nat)
    requires 2 * n + 1 < |pairs| && !Active(pairs, n) && Copied(input, output, pairs, n, per, blocks)
    ensures Copied(input, output, pairs, n + 1, per, blocks)
  {
    var m := n + 1;
    forall block: nat | block < blocks ensures BlockCopied(input, output, pairs, m, per, block) {
      assert BlockCopied(input, output, pairs, n, per, block);
    }
  }

  lemma PairCopied<T(!new)>(input: seq<T>, output: seq<T>, output': seq<T>, pairs: seq<int>, n: nat, per: nat,
                            blocks: nat)
    requires 2 * n + 1 < |pairs| && PairsInRange(pairs, blocks) && Active(pairs, n)
    requires Copied(input, output, pairs, n, per, blocks)
    requires Framed(output, output', Flat(pairs[2 * n + 1], per, 0), per)
    requires Flat(pairs[2 * n], per, 0) + per <= |input|
    requires RowOf(output', pairs[2 * n + 1], per) == RowOf(input, pairs[2 * n], per)
    ensures Copied(input, output', pairs, n + 1, per, blocks)
  {
    var m := n + 1;
    forall block: nat | block < blocks ensures BlockCopied(input, output', pairs, m, per, block) {
      if block != pairs[2 * n + 1] {
        assert BlockCopied(input, output, pairs, n, per, block);
        OtherRowKept(output, output', pairs[2 * n + 1], per, block);
      }
    }
  }

  /** Element e of a block is that of the source of the last pair that names the block ... */
  lemma CopyWrittenOut<T(!new)>(input: seq<T>, output: seq<T>, pairs: seq<int>, per: nat, blocks: nat, block: nat, e: nat,
                                k: nat, other: T)
    requires |pairs| % 2 == 0 && PairsInRange(pairs, blocks) && Copied(input, output, pairs, |pairs| / 2, per, blocks)
    requires block < blocks && e < per && 2 * k + 1 < |pairs| && pairs[2 * k] >= 0 && pairs[2 * k + 1] == block
    requires forall j: nat | k < j && 2 * j + 1 < |pairs| :: pairs[2 * j] < 0 || pairs[2 * j + 1] != block
    ensures At(output, RowMajor(block, per, e), other) == At(input, RowMajor(pairs[2 * k], per, e), other)
  {
    assert BlockCopied(input, output, pairs, |pairs| / 2, per, block);
    LastNaming(pairs, block, |pairs| / 2, k);
    hide Copied, RowMajor, Flat, RowOf, SourceOf;
    RowElement(output, block, per, e, other);
    RowElement(input, pairs[2 * k], per, e, other);
  }

  lemma {:induction false} LastNaming(pairs: seq<int>, block: nat, n: nat, k: nat)
    requires 2 * n <= |pairs| && k < n && pairs[2 * k] >= 0 && pairs[2 * k + 1] == block
    requires forall j: nat | k < j < n :: pairs[2 * j] < 0 || pairs[2 * j + 1] != block
    ensures SourceOf(pairs, block, n) == pairs[2 * k]
  {
    if n - 1 > k {
      LastNaming(pairs, block, n - 1, k);
    }
  }

  /** ... and that of the block itself if there is no such pair. */
  lemma KeepWrittenOut<T(!new)>(input: seq<T>, output: seq<T>, pairs: seq<int>, per: nat, blocks: nat, block: nat, e: nat,
                                other: T)
    requires |pairs| % 2 == 0 && PairsInRange(pairs, blocks) && Copied(input, output, pairs, |pairs| / 2, per, blocks)
    requires block < blocks && e < per
    requires forall j: nat | 2 * j + 1 < |pairs| :: pairs[2 * j] < 0 || pairs[2 * j + 1] != block
    ensures At(output, RowMajor(block, per, e), other) == At(input, RowMajor(block, per, e), other)
  {
    assert BlockCopied(input, output, pairs, |pairs| / 2, per, block);
    NotOverwritten(pairs, block, |pairs| / 2);
    hide Copied, RowMajor, Flat, RowOf, SourceOf;
    RowElement(output, block, per, e, other);
    RowElement(input, block, per, e, other);
  }

  // ---------- the kernel ----------

  method Snapshot<T>(data: array<T>) returns (copy: array<T>)
    ensures fresh(copy) && copy[..] == data[..]
  {
    copy := new T[data.Length](i requires 0 <= i < data.Length reads data => data[i]);
  }

  /** std::copy_n between two different arrays. */
  method CopyN<T>(source: array<T>, from: nat, destination: array<T>, to: nat, n: nat)
    requires source != destination && from + n <= source.Length && to + n <= destination.Length
    modifies destination
    ensures destination[to..to + n] == source[from..from + n]
    ensures destination[..to] == old(destination[..to]) && destination[to + n..] == old(destination[to + n..])
  {
    for i := 0 to n
      invariant destination[to..to + i] == source[from..from + i]
      invariant destination[..to] == old(destination[..to]) && destination[to + n..] == old(destination[to + n..])
    {
      destination[to + i] := source[from + i];
    }
  }

  /** Source and output of one plane after n pairs; the source is never the output itself. */
  ghost predicate Remapping<T(!new)>(input: seq<T>, source: array<T>, output: array<T>, pairs: seq<int>, n: nat, per: nat,
                                     blocks: nat)
    reads source, output
    requires 2 * n <= |pairs|
  {
    source != output && source[..] == input && Copied(input, output[..], pairs, n, per, blocks)
  }

  /** The source of a plane: the input, or a snapshot of it when it is also the output; then the clone. */
  method Begin<T(!new)>(input: array<T>, output: array<T>, pairs: seq<int>, per: nat, blocks: nat) returns (source: array<T>)
    requires input.Length == output.Length == Flat(blocks, per, 0)
    modifies output
    ensures source == input || fresh(source)
    ensures Remapping(old(input[..]), source, output, pairs, 0, per, blocks)
  {
    source := input;
    if output == input {
      source := Snapshot(input);
    }
    CopyN(source, 0, output, 0, output.Length);
    assert output[..] == output[0..0 + output.Length] && source[..] == source[0..0 + output.Length];
    Cloned(source[..], pairs, per, blocks);
  }

  method CopyPair<T(!new)>(ghost input: seq<T>, source: array<T>, output: array<T>, pairs: seq<int>, n: nat, per: nat,
                           ghost blocks: nat)
    requires 2 * n + 1 < |pairs| && PairsInRange(pairs, blocks) && Active(pairs, n)
    requires Remapping(input, source, output, pairs, n, per, blocks)
    modifies output
    ensures Remapping(input, source, output, pairs, n + 1, per, blocks)
  {
    hide Copied;
    var from, to: nat := pairs[2 * n], pairs[2 * n + 1];
    CopiedSizes(input, output[..], pairs, n, per, blocks);
    RowInside(from, blocks, per);
    RowInside(to, blocks, per);
    FlatProduct(from, per, 0);
    FlatProduct(to, per, 0);
    ghost var before := output[..];
    CopyN(source, from * per, output, to * per, per);
    assert output[..][..to * per] == output[..to * per] && output[..][to * per + per..] == output[to * per + per..];
    assert output[..][to * per..to * per + per] == output[to * per..to * per + per];
    assert input[from * per..from * per + per] == source[from * per..from * per + per];
    PairCopied(input, before, output[..], pairs, n, per, blocks);
  }

  lemma CopiedSizes<T(!new)>(input: seq<T>, output: seq<T>, pairs: seq<int>, n: nat, per: nat, blocks: nat)
    requires 2 * n <= |pairs| && Copied(input, output, pairs, n, per, blocks)
    ensures |input| == |output| == Flat(blocks, per, 0)
  {
  }

  lemma SkipPair<T(!new)>(input: seq<T>, source: array<T>, output: array<T>, pairs: seq<int>, n: nat, per: nat,
                          blocks: nat)
    requires 2 * n + 1 < |pairs| && !Active(pairs, n)
    requires Remapping(input, source, output, pairs, n, per, blocks)
    ensures Remapping(input, source, output, pairs, n + 1, per, blocks)
  {
    PairSkipped(input, output[..], pairs, n, per, blocks);
  }

  /** The key and the value plane, neither of which is read where the other is written. */
  ghost predicate BothRemapping<T(!new)>(key: seq<T>, keySource: array<T>, keyOut: array<T>, value: seq<T>,
                                         valueSource: array<T>, valueOut: array<T>, pairs: seq<int>, n: nat, per: nat,
                                         blocks: nat)
    reads keySource, keyOut, valueSource, valueOut
    requires 2 * n <= |pairs|
  {
    && keyOut != valueOut && keyOut != valueSource && valueOut != keySource
    && Remapping(key, keySource, keyOut, pairs, n, per, blocks)
    && Remapping(value, valueSource, valueOut, pairs, n, per, blocks)
  }

  method BeginBoth<T(!new)>(key: array<T>, keyOut: array<T>, value: array<T>, valueOut: array<T>, pairs: seq<int>,
                            per: nat, blocks: nat)
    returns (keySource: array<T>, valueSource: array<T>)
    requires key.Length == keyOut.Length == value.Length == valueOut.Length == Flat(blocks, per, 0)
    requires keyOut != valueOut && keyOut != value && valueOut != key
    modifies keyOut, valueOut
    ensures (keySource == key || fresh(keySource)) && (valueSource == value || fresh(valueSource))
    ensures BothRemapping(old(key[..]), keySource, keyOut, old(value[..]), valueSource, valueOut, pairs, 0, per, blocks)
  {
    hide Remapping;
    keySource := Begin(key, keyOut, pairs, per, blocks);
    valueSource := Begin(value, valueOut, pairs, per, blocks);
  }

  /** One pair for both planes: a pair with a negative member is skipped. */
  method TakePair<T(!new)>(ghost key: seq<T>, keySource: array<T>, keyOut: array<T>, ghost value: seq<T>,
                           valueSource: array<T>, valueOut: array<T>, pairs: seq<int>, n: nat, per: nat,
                           ghost blocks: nat, skip: bool)
    requires 2 * n + 1 < |pairs| && PairsInRange(pairs, blocks) && (skip <==> !Active(pairs, n))
    requires BothRemapping(key, keySource, keyOut, value, valueSource, valueOut, pairs, n, per, blocks)
    modifies keyOut, valueOut
    ensures BothRemapping(key, keySource, keyOut, value, valueSource, valueOut, pairs, n + 1, per, blocks)
  {
    hide Remapping, PairsInRange, Active;
    if skip {
      SkipPair(key, keySource, keyOut, pairs, n, per, blocks);
      SkipPair(value, valueSource, valueOut, pairs, n, per, blocks);
    } else {
      CopyPair(key, keySource, keyOut, pairs, n, per, blocks);
      CopyPair(value, valueSource, valueOut, pairs, n, per, blocks);
    }
  }

  lemma BothRemapped<T(!new)>(key: seq<T>, keySource: array<T>, keyOut: array<T>, value: seq<T>, valueSource: array<T>,
                              valueOut: array<T>, pairs: seq<int>, n: nat, per: nat, blocks: nat)
    requires 2 * n <= |pairs|
    requires BothRemapping(key, keySource, keyOut, value, valueSource, valueOut, pairs, n, per, blocks)
    ensures Copied(key, keyOut[..], pairs, n, per, blocks) && Copied(value, valueOut[..], pairs, n, per, blocks)
  {
    hide Copied;
  }

  method CheckPairs(pairs: seq<int>, blocks: nat) returns (ok: bool)
    requires |pairs| % 2 == 0
    ensures ok <==> PairsInRange(pairs, blocks)
  {
    for pair := 0 to |pairs| / 2
      invariant forall i | 0 <= i < 2 * pair :: pairs[i] < blocks
    {
      if pairs[2 * pair] >= blocks || pairs[2 * pair + 1] >= blocks {
        return false;
      }
    }
    return true;
  }

  /** The sources, the clones and the loop over the pairs. */
  method RemapAll(keyCodes: array<int>, keyScales: array<Half>, valueCodes: array<int>, valueScales: array<Half>,
                  keyCodesOut: array<int>, keyScalesOut: array<Half>, valueCodesOut: array<int>,
                  valueScalesOut: array<Half>, pairs: seq<int>, blocks: nat, codesPer: nat, scalesPer: nat)
    requires PairsInRange(pairs, blocks)
    requires keyCodes.Length == keyCodesOut.Length == valueCodes.Length == valueCodesOut.Length
                             == Flat(blocks, codesPer, 0)
    requires keyScales.Length == keyScalesOut.Length == valueScales.Length == valueScalesOut.Length
                              == Flat(blocks, scalesPer, 0)
    requires keyCodesOut != valueCodesOut && keyCodesOut != valueCodes && valueCodesOut != keyCodes
    requires keyScalesOut != valueScalesOut && keyScalesOut != valueScales && valueScalesOut != keyScales
    modifies keyCodesOut, keyScalesOut, valueCodesOut, valueScalesOut
    ensures Copied(old(keyCodes[..]), keyCodesOut[..], pairs, |pairs| / 2, codesPer, blocks)
    ensures Copied(old(keyScales[..]), keyScalesOut[..], pairs, |pairs| / 2, scalesPer, blocks)
    ensures Copied(old(valueCodes[..]), valueCodesOut[..], pairs, |pairs| / 2, codesPer, blocks)
    ensures Copied(old(valueScales[..]), valueScalesOut[..], pairs, |pairs| / 2, scalesPer, blocks)
  {
    hide Copied, Flat, BothRemapping;
    var count := |pairs| / 2;
    ghost var kc, ks, vc, vs := keyCodes[..], keyScales[..], valueCodes[..], valueScales[..];
    var keySource, valueSource := BeginBoth(keyCodes, keyCodesOut, valueCodes, valueCodesOut, pairs, codesPer, blocks);
    var keyScaleSource, valueScaleSource :=
      BeginBoth(keyScales, keyScalesOut, valueScales, valueScalesOut, pairs, scalesPer, blocks);
    for pair := 0 to count
      invariant BothRemapping(kc, keySource, keyCodesOut, vc, valueSource, valueCodesOut, pairs, pair, codesPer, blocks)
      invariant BothRemapping(ks, keyScaleSource, keyScalesOut, vs, valueScaleSource, valueScalesOut, pairs, pair,
                              scalesPer, blocks)
    {
      var skip := pairs[2 * pair] < 0 || pairs[2 * pair + 1] < 0;
      TakePair(kc, keySource, keyCodesOut, vc, valueSource, valueCodesOut, pairs, pair, codesPer, blocks, skip);
      TakePair(ks, keyScaleSource, keyScalesOut, vs, valueScaleSource, valueScalesOut, pairs, pair, scalesPer, blocks,
               skip);
    }
    BothRemapped(kc, keySource, keyCodesOut, vc, valueSource, valueCodesOut, pairs, count, codesPer, blocks);
    BothRemapped(ks, keyScaleSource, keyScalesOut, vs, valueScaleSource, valueScalesOut, pairs, count, scalesPer, blocks);
  }

  /** kv_cache_copy_blocks_q8_0, which also works when an output is its own input. */
  method CopyBlocks(keyCodes: array<int>, keyScales: array<Half>, valueCodes: array<int>, valueScales: array<Half>,
                    keyCodesOut: array<int>, keyScalesOut: array<Half>, valueCodesOut: array<int>,
                    valueScalesOut: array<Half>, pairs: seq<int>, blocks: nat, codesPer: nat, scalesPer: nat)
    returns (ok: bool)
    requires |pairs| % 2 == 0
    requires keyCodes.Length == keyCodesOut.Length == valueCodes.Length == valueCodesOut.Length
                             == Flat(blocks, codesPer, 0)
    requires keyScales.Length == keyScalesOut.Length == valueScales.Length == valueScalesOut.Length
                              == Flat(blocks, scalesPer, 0)
    requires keyCodesOut != valueCodesOut && keyCodesOut != valueCodes && valueCodesOut != keyCodes
    requires keyScalesOut != valueScalesOut && keyScalesOut != valueScales && valueScalesOut != keyScales
    modifies keyCodesOut, keyScalesOut, valueCodesOut, valueScalesOut
    ensures ok <==> PairsInRange(pairs, blocks)
    ensures ok ==> Copied(old(keyCodes[..]), keyCodesOut[..], pairs, |pairs| / 2, codesPer, blocks)
    ensures ok ==> Copied(old(keyScales[..]), keyScalesOut[..], pairs, |pairs| / 2, scalesPer, blocks)
    ensures ok ==> Copied(old(valueCodes[..]), valueCodesOut[..], pairs, |pairs| / 2, codesPer, blocks)
    ensures ok ==> Copied(old(valueScales[..]), valueScalesOut[..], pairs, |pairs| / 2, scalesPer, blocks)
    ensures !ok ==> unchanged(keyCodesOut, keyScalesOut, valueCodesOut, valueScalesOut)
  {
    hide Copied, Flat;
    ok := CheckPairs(pairs, blocks);
    if ok {
      RemapAll(keyCodes, keyScales, valueCodes, valueScales, keyCodesOut, keyScalesOut, valueCodesOut, valueScalesOut,
               pairs, blocks, codesPer, scalesPer);
    }
  }

  // ---------- transparency ----------

  /** No block is overwritten twice. */
  ghost predicate DistinctDestinations(pairs: seq<int>) {
    forall j, k | 0 <= j < k && 2 * k + 1 < |pairs| && Active(pairs, j) && Active(pairs, k) ::
      pairs[2 * j + 1] != pairs[2 * k + 1]
  }

  /** A table entry follows its block to a copy, or keeps a block that no pair overwrites. */
  ghost predicate Follows(before: int, after: int, pairs: seq<int>) {
    || (exists k: nat :: 2 * k + 1 < |pairs| && Active(pairs, k) && before == pairs[2 * k] && after == pairs[2 * k + 1])
    || (after == before && forall k: nat | 2 * k + 1 < |pairs| && Active(pairs, k) :: pairs[2 * k + 1] != before)
  }

  lemma {:induction false} NotOverwritten(pairs: seq<int>, block: nat, n: nat)
    requires 2 * n <= |pairs|
    requires forall k: nat | k < n && Active(pairs, k) :: pairs[2 * k + 1] != block
    ensures SourceOf(pairs, block, n) == block
  {
    if n > 0 {
      NotOverwritten(pairs, block, n - 1);
    }
  }

  lemma {:induction false} OverwrittenOnce(pairs: seq<int>, k: nat, n: nat)
    requires k < n && 2 * n <= |pairs| && Active(pairs, k) && DistinctDestinations(pairs)
    ensures SourceOf(pairs, pairs[2 * k + 1], n) == pairs[2 * k]
    decreases n
  {
    if k < n - 1 {
      OverwrittenOnce(pairs, k, n - 1);
      assert Active(pairs, n - 1) ==> pairs[2 * (n - 1) + 1] != pairs[2 * k + 1];
    }
  }

  /** Such an entry names the same contents after the remap as before it. */
  lemma EntryFollows(before: int, after: int, pairs: seq<int>)
    requires |pairs| % 2 == 0 && DistinctDestinations(pairs) && Follows(before, after, pairs)
    ensures before >= 0 <==> after >= 0
    ensures after >= 0 ==> SourceOf(pairs, after, |pairs| / 2) == before
  {
    if k: nat :| 2 * k + 1 < |pairs| && Active(pairs, k) && before == pairs[2 * k] && after == pairs[2 * k + 1] {
      OverwrittenOnce(pairs, k, |pairs| / 2);
    } else if after >= 0 {
      NotOverwritten(pairs, after, |pairs| / 2);
    }
  }

  lemma {:induction false} FlatScaled(r: nat, w: nat)
    ensures Flat(r, 32 * w, 0) == 32 * Flat(r, w, 0)
  {
    if r > 0 {
      FlatScaled(r - 1, w);
    }
  }

  /** A cell inside its block. */
  lemma CellInBlock(block: nat, page: nat, r: nat, width: nat, c: nat)
    requires r < page && c < width
    ensures var per := Flat(page, width, 0);
      && Flat(Flat(block, page, r), width, c) == Flat(block, per, 0) + Flat(r, width, c)
      && Flat(r, width, c) < per
  {
    FlatFlat(block, page, r, width, c);
    FlatShift(block, Flat(page, width, 0), 0, Flat(r, width, c));
    FlatOrder(r, page, width, c, 0);
  }

  /** The cells at offset o of two blocks agree when the blocks do. */
  lemma CellsFollow(codes: seq<int>, scales: seq<Half>, codes': seq<int>, scales': seq<Half>, per: nat, at: nat,
                    at': nat, o: nat)
    requires o < per && at + per <= |scales| && at' + per <= |scales'|
    requires |codes| == 32 * |scales| && |codes'| == 32 * |scales'|
    requires SamePart(codes, codes', 32 * at, 32 * at', 32 * per) && SamePart(scales, scales', at, at', per)
    ensures Lanes(codes', at' + o) == Lanes(codes, at + o)
    ensures scales'[at' + o] == scales[at + o]
  {
    PartsEqual(codes, codes', 32 * at, 32 * at', 32 * per, 32 * o, 32);
    PartsEqual(scales, scales', at, at', per, o, 1);
    assert scales[at + o..at + o + 1][0] == scales'[at' + o..at' + o + 1][0];
  }

  /** The table after the remap, entry by entry. */
  ghost predicate TableFollows(p: Paging, p': Paging, pairs: seq<int>) {
    && p' == p.(table := p'.table) && |p'.table| == |p.table|
    && forall i | 0 <= i < |p.table| :: Follows(p.table[i], p'.table[i], pairs)
  }

  /**
   Remapping is transparent: with distinct destinations and the table rewritten from sources to destinations, every
   token denotes after the copy exactly what it denoted before.
   */
  lemma CopyTransparent(f: HalfFormat, codes: seq<int>, scales: seq<Half>, codes': seq<int>, scales': seq<Half>,
                        pairs: seq<int>, p: Paging, p': Paging, cumulative: seq<nat>, width: nat,
                        token: nat, s: nat, c: nat)
    requires Sized(codes, scales, p, width) && Sized(codes', scales', p', width) && c < width
    requires Covers(p, cumulative) && Covers(p', cumulative) && InSequence(cumulative, token, s)
    requires PairsInRange(pairs, p.blocks) && DistinctDestinations(pairs) && TableFollows(p, p', pairs)
    requires Copied(codes, codes', pairs, |pairs| / 2, 32 * Flat(p.page, width, 0), p.blocks)
    requires Copied(scales, scales', pairs, |pairs| / 2, Flat(p.page, width, 0), p.blocks)
    ensures RowGroup(f, codes', scales', p', cumulative, width, token, s, c)
         == RowGroup(f, codes, scales, p, cumulative, width, token, s, c)
  {
    hide Decoded, DistinctDestinations, Follows;
    EntryInTable(p, cumulative, token, s);
    var b, b' := BlockOf(p, cumulative, token, s), BlockOf(p', cumulative, token, s);
    EntryFollows(b, b', pairs);
    if b >= 0 {
      CopiedCell(codes, scales, codes', scales', pairs, p.blocks, p.page, width, b, b',
                 Rem(token - cumulative[s], p.page), c);
    }
  }

  lemma CopiedCell(codes: seq<int>, scales: seq<Half>, codes': seq<int>, scales': seq<Half>, pairs: seq<int>,
                   blocks: nat, page: nat, width: nat, b: nat, b': nat, r: nat, c: nat)
    requires |pairs| % 2 == 0 && b < blocks && b' < blocks && SourceOf(pairs, b', |pairs| / 2) == b
    requires |codes| == 32 * |scales| && |codes'| == 32 * |scales'| && r < page && c < width
    requires Copied(codes, codes', pairs, |pairs| / 2, 32 * Flat(page, width, 0), blocks)
    requires Copied(scales, scales', pairs, |pairs| / 2, Flat(page, width, 0), blocks)
    ensures var cell, cell' := Flat(Flat(b, page, r), width, c), Flat(Flat(b', page, r), width, c);
      && cell < |scales| && cell' < |scales'|
      && Lanes(codes', cell') == Lanes(codes, cell) && scales'[cell'] == scales[cell]
  {
    hide *;
    var per := Flat(page, width, 0);
    CellInBlock(b, page, r, width, c);
    CellInBlock(b', page, r, width, c);
    CopiedScales(scales, scales', pairs, |pairs| / 2, per, blocks, b, b');
    CopiedCodes(codes, codes', pairs, |pairs| / 2, per, blocks, b, b');
    CellsFollow(codes, scales, codes', scales', per, Flat(b, per, 0), Flat(b', per, 0), Flat(r, width, c));
  }

  /** n elements of two sequences agree. */
  ghost predicate SamePart<T(!new)>(s: seq<T>, s': seq<T>, at: nat, at': nat, n: nat) {
    at + n <= |s| && at' + n <= |s'| && s'[at'..at' + n] == s[at..at + n]
  }

  lemma CopiedScales<T(!new)>(input: seq<T>, output: seq<T>, pairs: seq<int>, n: nat, per: nat, blocks: nat,
                              b: nat, b': nat)
    requires 2 * n <= |pairs| && b' < blocks && SourceOf(pairs, b', n) == b
    requires Copied(input, output, pairs, n, per, blocks)
    ensures SamePart(input, output, Flat(b, per, 0), Flat(b', per, 0), per)
  {
    assert BlockCopied(input, output, pairs, n, per, b');
  }

  lemma CopiedCodes(input: seq<int>, output: seq<int>, pairs: seq<int>, n: nat, per: nat, blocks: nat, b: nat, b': nat)
    requires 2 * n <= |pairs| && b' < blocks && SourceOf(pairs, b', n) == b
    requires Copied(input, output, pairs, n, 32 * per, blocks)
    ensures SamePart(input, output, 32 * Flat(b, per, 0), 32 * Flat(b', per, 0), 32 * per)
  {
    FlatScaled(b, per);
    FlatScaled(b', per);
    hide Copied, Flat;
    CopiedScales(input, output, pairs, n, 32 * per, blocks, b, b');
  }

  ghost predicate SameRows(f: HalfFormat, codes: seq<int>, scales: seq<Half>, codes': seq<int>, scales': seq<Half>,
                           p: Paging, p': Paging, cumulative: seq<nat>, width: nat)
    requires Sized(codes, scales, p, width) && Sized(codes', scales', p', width)
    requires Covers(p, cumulative) && Covers(p', cumulative)
  {
    forall token: nat, s: nat, c: nat | c < width && InSequence(cumulative, token, s) ::
      && RowGroup(f, codes', scales', p', cumulative, width, token, s, c)
      == RowGroup(f, codes, scales, p, cumulative, width, token, s, c)
  }

  /** Two gathers that denote the same rows fill their outputs identically. */
  lemma SameOutput(f: HalfFormat, codes: seq<int>, scales: seq<Half>, codes': seq<int>, scales': seq<Half>,
                   p: Paging, p': Paging, cumulative: seq<nat>, tokens: nat, width: nat, out: seq<Float>, out': seq<Float>)
    requires Sized(codes, scales, p, width) && Sized(codes', scales', p', width)
    requires Covers(p, cumulative) && Covers(p', cumulative) && Offsets(cumulative, tokens)
    requires |out| == |out'| == 32 * Flat(tokens, width, 0)
    requires Gathered(f, codes, scales, p, cumulative, width, out, Flat(tokens, width, 0))
    requires Gathered(f, codes', scales', p', cumulative, width, out', Flat(tokens, width, 0))
    requires SameRows(f, codes, scales, codes', scales', p, p', cumulative, width)
    ensures out' == out
  {
    hide RowGroup, Covers;
    forall i | 0 <= i < |out| ensures out'[i] == out[i] {
      var g := i / 32;
      FlatSplit(g, tokens, width);
      var token, c := Quot(g, width), Rem(g, width);
      var s := SequenceExists(cumulative, tokens, token, 0);
      assert GroupGathered(f, codes, scales, p, cumulative, width, out, token, c);
      assert GroupGathered(f, codes', scales', p', cumulative, width, out', token, c);
      assert Lanes(out', g) == Lanes(out, g);
      assert out'[i] == Lanes(out', g)[i - 32 * g] && out[i] == Lanes(out, g)[i - 32 * g];
    }
  }

  /** Hence gathering after a remap returns exactly the rows gathered before it. */
  lemma GatherAfterCopy(f: HalfFormat, codes: seq<int>, scales: seq<Half>, codes': seq<int>, scales': seq<Half>,
                        pairs: seq<int>, p: Paging, p': Paging, cumulative: seq<nat>, tokens: nat, width: nat,
                        out: seq<Float>, out': seq<Float>)
    requires Sized(codes, scales, p, width) && Sized(codes', scales', p', width)
    requires Covers(p, cumulative) && Covers(p', cumulative) && Offsets(cumulative, tokens)
    requires PairsInRange(pairs, p.blocks) && DistinctDestinations(pairs) && TableFollows(p, p', pairs)
    requires Copied(codes, codes', pairs, |pairs| / 2, 32 * Flat(p.page, width, 0), p.blocks)
    requires Copied(scales, scales', pairs, |pairs| / 2, Flat(p.page, width, 0), p.blocks)
    requires |out| == |out'| == 32 * Flat(tokens, width, 0)
    requires Gathered(f, codes, scales, p, cumulative, width, out, Flat(tokens, width, 0))
    requires Gathered(f, codes', scales', p', cumulative, width, out', Flat(tokens, width, 0))
    ensures out' == out
  {
    hide RowGroup, Covers, Copied, Gathered, DistinctDestinations, TableFollows;
    forall token: nat, s: nat, c: nat | c < width && InSequence(cumulative, token, s)
      ensures RowGroup(f, codes', scales', p', cumulative, width, token, s, c)
           == RowGroup(f, codes, scales, p, cumulative, width, token, s, c)
    {
      CopyTransparent(f, codes, scales, codes', scales', pairs, p, p', cumulative, width, token, s, c);
    }
    SameOutput(f, codes, scales, codes', scales', p, p', cumulative, tokens, width, out, out');
  }
}
