/**
 The inverse-CDF draw from a nucleus: the full-sort reference of benchmarks/cases/colibri_ops.cpp and the
 heap kernel of kernels/sampling/sampling_ref.cpp. exp is a parameter, and sums and products of weights are exact; the
 uniform variate is the rounded double.
 */
module Sampling {
  import opened Arith
  import opened Ranking
  import opened Reals
  import opened Rows
  import opened Nucleus
  import opened Logits
  import opened Options
  import opened Uniform

  // ---------- the draw ----------

  lemma SumStep(s: seq<real>, n: nat)
    requires n < |s|
    ensures Sum(s[..n + 1]) == Sum(s[..n]) + s[n]
  {
    assert s[..n + 1][..n] == s[..n];
  }

  lemma {:induction false} SumGrows(s: seq<real>, m: nat, n: nat)
    requires NonNegative(s) && m <= n <= |s|
    ensures Sum(s[..m]) <= Sum(s[..n])
    decreases n
  {
    if m < n {
      SumGrows(s, m, n - 1);
      SumStep(s, n - 1);
    }
  }

  /** The cumulative interval of item i contains the target. */
  ghost predicate Drawn(weights: seq<real>, target: real, i: nat) {
    i < |weights| && Sum(weights[..i]) <= target < Sum(weights[..i + 1])
  }

  lemma DrawUnique(weights: seq<real>, target: real, i: nat, j: nat)
    requires NonNegative(weights) && Drawn(weights, target, i) && Drawn(weights, target, j)
    ensures i == j
  {
    if i < j {
      SumGrows(weights, i + 1, j);
    } else if j < i {
      SumGrows(weights, j + 1, i);
    }
  }

  /** Multiplication by a fixed factor. */
  function Share(factor: real): real -> real {
    (total: real) => factor * total
  }

  ghost predicate Bounded(share: real -> real) {
    forall total | total > 0.0 :: 0.0 <= share(total) <= total
  }

  /** A share of a positive total reaches the total only if the factor is one. */
  lemma UniformBounded(uniform: real)
    requires 0.0 < uniform <= 1.0
    ensures Bounded(Share(uniform))
    ensures forall total | total > 0.0 :: Share(uniform)(total) == total <==> uniform == 1.0
  {
    forall total | total > 0.0
      ensures 0.0 <= Share(uniform)(total) <= total && (Share(uniform)(total) == total <==> uniform == 1.0)
    {
      assert Share(uniform)(total) == uniform * total;
      ShareBelow(uniform, total);
    }
  }

  lemma ShareBelow(uniform: real, total: real)
    requires 0.0 < uniform <= 1.0 && total > 0.0
    ensures 0.0 <= uniform * total <= total && (uniform * total == total <==> uniform == 1.0)
  {
    if uniform < 1.0 {
      assert (1.0 - uniform) * total > 0.0;
    }
  }

  /** No interval holds a share that is the whole total. */
  ghost predicate FallsBack(weights: seq<real>, share: real -> real) {
    share(Sum(weights)) >= Sum(weights)
  }

  /** The item whose interval holds the share, and the last one if none does. */
  ghost predicate DrawnShare(weights: seq<real>, share: real -> real, i: nat) {
    if FallsBack(weights, share) then i + 1 == |weights| else Drawn(weights, share(Sum(weights)), i)
  }

  /** Falling back is exactly the absence of an interval that holds the share. */
  lemma FallsBackIff(weights: seq<real>, share: real -> real)
    requires NonNegative(weights) && 0.0 <= share(Sum(weights))
    ensures FallsBack(weights, share) <==> forall i: nat :: !Drawn(weights, share(Sum(weights)), i)
  {
    var target := share(Sum(weights));
    assert weights[..|weights|] == weights;
    if FallsBack(weights, share) {
      forall i: nat | i < |weights| ensures !Drawn(weights, target, i) {
        SumGrows(weights, i + 1, |weights|);
      }
    } else {
      var i := HoldingItem(weights, target, |weights|);
    }
  }

  lemma {:induction false} HoldingItem(weights: seq<real>, target: real, n: nat) returns (i: nat)
    requires n <= |weights| && 0.0 <= target < Sum(weights[..n])
    ensures Drawn(weights, target, i)
    decreases n
  {
    if target < Sum(weights[..n - 1]) {
      i := HoldingItem(weights, target, n - 1);
    } else {
      i := n - 1;
    }
  }

  method Accumulate(weights: seq<real>) returns (total: real)
    ensures total == Sum(weights)
  {
    total := 0.0;
    for i := 0 to |weights|
      invariant total == Sum(weights[..i])
    {
      SumStep(weights, i);
      total := total + weights[i];
    }
    assert weights[..|weights|] == weights;
  }

  /** The loop of sample_weighted: the last item is returned whether or not its interval is the one hit. */
  method Search(weights: seq<real>, target: real) returns (item: nat)
    requires weights != [] && NonNegative(weights) && 0.0 <= target
    ensures target < Sum(weights) ==> Drawn(weights, target, item)
    ensures target >= Sum(weights) ==> item + 1 == |weights|
  {
    var cumulative := 0.0;
    item := |weights| - 1;
    var i := 0;
    while i < |weights|
      invariant i < |weights| && cumulative == Sum(weights[..i]) <= target
    {
      SumStep(weights, i);
      cumulative := cumulative + weights[i];
      assert i + 1 == |weights| ==> weights[..i + 1] == weights;
      if target < cumulative || i + 1 == |weights| {
        SumGrows(weights, i + 1, |weights|);
        assert weights[..|weights|] == weights;
        return i;
      }
      i := i + 1;
    }
    assert false;
  }

  /** The target is a share of the total; a total that is not positive selects the first item. */
  method SampleWeighted(ids: seq<nat>, weights: seq<real>, share: real -> real) returns (token: nat)
    requires |ids| == |weights| > 0 && NonNegative(weights) && Bounded(share)
    ensures Sum(weights) <= 0.0 ==> token == ids[0]
    ensures Sum(weights) > 0.0 ==> exists item: nat :: DrawnShare(weights, share, item) && token == ids[item]
  {
    var total := Accumulate(weights);
    if total <= 0.0 {
      return ids[0];
    }
    var item := Search(weights, share(total));
    assert DrawnShare(weights, share, item);
    return ids[item];
  }

  // ---------- token weights ----------

  /** exp never decreases and may underflow to zero, but not at the maximum, where its argument is zero. */
  ghost predicate Increasing(exp: real -> real) {
    && (forall x :: exp(x) >= 0.0) && exp(0.0) > 0.0
    && (forall x, y | x <= y :: exp(x) <= exp(y))
  }

  function Weights(exp: real -> real, logits: seq<Float>, maximum: real, temperature: real): (w: seq<real>)
    requires temperature > 0.0
    ensures |w| == |logits|
    ensures forall i | 0 <= i < |w| :: w[i] == ExpOf(exp, logits[i], maximum, temperature)
  {
    seq(|logits|, i requires 0 <= i < |logits| => ExpOf(exp, logits[i], maximum, temperature))
  }

  lemma DivMono(x: real, y: real, t: real)
    requires x <= y && t > 0.0
    ensures x / t <= y / t
  {
  }

  /** No weight is negative, all are ordered like the logits, and logits at or above the maximum have positive ones. */
  lemma WeightsFollow(exp: real -> real, logits: seq<Float>, maximum: real, temperature: real)
    requires Increasing(exp) && temperature > 0.0 && AllValid(logits)
    ensures var w := Weights(exp, logits, maximum, temperature);
      && NonNegative(w) && Follows(w, Keys(logits))
      && forall i | 0 <= i < |logits| && logits[i].Finite? && logits[i].value >= maximum :: w[i] > 0.0
  {
    var w, keys := Weights(exp, logits, maximum, temperature), Keys(logits);
    forall a: nat, b: nat | a < |logits| && b < |logits| && Precedes(keys, a, b) ensures w[a] >= w[b] {
      KeysPrecede(logits, a, b);
      if logits[a].Finite? && logits[b].Finite? {
        DivMono(logits[b].value - maximum, logits[a].value - maximum, temperature);
      }
    }
    forall i | 0 <= i < |logits| && logits[i].Finite? && logits[i].value >= maximum ensures w[i] > 0.0 {
      DivMono(0.0, logits[i].value - maximum, temperature);
    }
  }

  /** The weights of a list of tokens. */
  function Picked(weights: seq<real>, ids: seq<nat>): (s: seq<real>)
    requires Indices(weights, ids)
    ensures |s| == |ids|
    ensures forall i | 0 <= i < |s| :: s[i] == weights[ids[i]]
  {
    seq(|ids|, i requires 0 <= i < |ids| => weights[ids[i]])
  }

  lemma {:induction false} PickedMass(weights: seq<real>, ids: seq<nat>, n: nat)
    requires Indices(weights, ids) && n <= |ids|
    ensures Sum(Picked(weights, ids)[..n]) == Mass(weights, ids[..n])
  {
    if n > 0 {
      PickedMass(weights, ids, n - 1);
      SumStep(Picked(weights, ids), n - 1);
      assert ids[..n][..n - 1] == ids[..n - 1];
    }
  }

  // ---------- top-p ----------

  /**
   What nucleus sampling promises: the token is the one whose cumulative interval, inside the shortest prefix of the
   ranking that reaches the target mass, contains the given share of that prefix's mass; if no interval does, it is
   the last one of that prefix.
   */
  ghost predicate TopPDraw(keys: seq<real>, weights: seq<real>, target: real, share: real -> real, token: nat,
                           fallback: bool)
    requires |weights| == |keys|
  {
    exists keep: nat, i: nat :: TopPItem(keys, weights, target, share, token, fallback, keep, i)
  }

  ghost predicate TopPItem(keys: seq<real>, weights: seq<real>, target: real, share: real -> real, token: nat,
                           fallback: bool, keep: nat, i: nat)
    requires |weights| == |keys|
  {
    var ids := StableSort(keys);
    && IsNucleus(weights, ids, target, keep)
    && DrawnShare(Picked(weights, ids[..keep]), share, i)
    && (fallback <==> FallsBack(Picked(weights, ids[..keep]), share))
    && token == ids[i]
  }

  /** The promise determines the token, and whether the fallback is taken. */
  lemma TopPUnique(keys: seq<real>, weights: seq<real>, target: real, share: real -> real, a: nat, b: nat, fa: bool,
                   fb: bool)
    requires |weights| == |keys| && NonNegative(weights)
    requires TopPDraw(keys, weights, target, share, a, fa) && TopPDraw(keys, weights, target, share, b, fb)
    ensures a == b && fa == fb
  {
    var k: nat, i: nat :| TopPItem(keys, weights, target, share, a, fa, k, i);
    var m: nat, j: nat :| TopPItem(keys, weights, target, share, b, fb, m, j);
    ItemUnique(keys, weights, target, share, a, b, fa, fb, k, i, m, j);
  }

  lemma ItemUnique(keys: seq<real>, weights: seq<real>, target: real, share: real -> real, a: nat, b: nat, fa: bool,
                   fb: bool, k: nat, i: nat, m: nat, j: nat)
    requires |weights| == |keys| && NonNegative(weights)
    requires TopPItem(keys, weights, target, share, a, fa, k, i)
    requires TopPItem(keys, weights, target, share, b, fb, m, j)
    ensures a == b && fa == fb && k == m && i == j
  {
    var ids := StableSort(keys);
    NucleusUnique(weights, ids, target, k, m);
    var picked := Picked(weights, ids[..k]);
    if !FallsBack(picked, share) {
      DrawUnique(picked, share(Sum(picked)), i, j);
    }
  }

  method WeighTokens(exp: real -> real, logits: seq<Float>, maximum: real, temperature: real)
    returns (weights: array<real>, total: real)
    requires temperature > 0.0
    ensures fresh(weights) && weights[..] == Weights(exp, logits, maximum, temperature)
    ensures total == Mass(weights[..], Iota(|logits|))
  {
    weights := new real[|logits|](i => 0.0);
    total := 0.0;
    ghost var w := Weights(exp, logits, maximum, temperature);
    for token := 0 to |logits|
      invariant weights[..token] == w[..token]
      invariant total == Mass(w, Iota(token))
    {
      weights[token] := ExpOf(exp, logits[token], maximum, temperature);
      total := total + weights[token];
      assert Iota(token + 1)[..token] == Iota(token);
    }
    assert weights[..] == w;
  }

  /** What both routines below compute for one row of logits that has a finite one. */
  ghost predicate TopPToken(exp: real -> real, logits: seq<Float>, p: real, temperature: real, uniform: real, token: nat,
                            fallback: bool)
    requires logits != [] && temperature > 0.0 && logits[StableSort(Keys(logits))[0]].Finite?
  {
    var weights := Weights(exp, logits, logits[StableSort(Keys(logits))[0]].value, temperature);
    TopPDraw(Keys(logits), weights, Share(p)(Mass(weights, Iota(|logits|))), Share(uniform), token, fallback)
  }

  /** A positive mass falls back on a uniform share exactly if the variate is one. */
  lemma FallbackIsOne(keys: seq<real>, weights: seq<real>, target: real, uniform: real, token: nat, fallback: bool)
    requires keys != [] && |weights| == |keys| && NonNegative(weights) && weights[StableSort(keys)[0]] > 0.0
    requires 0.0 < uniform <= 1.0 && TopPDraw(keys, weights, target, Share(uniform), token, fallback)
    ensures fallback <==> uniform == 1.0
  {
    var ids := StableSort(keys);
    var keep: nat, i: nat :| TopPItem(keys, weights, target, Share(uniform), token, fallback, keep, i);
    KeptPositive(weights, ids, keep);
    UniformBounded(uniform);
    assert Sum(Picked(weights, ids[..keep])) > 0.0;
  }

  lemma KeptPositive(weights: seq<real>, ids: seq<nat>, keep: nat)
    requires Indices(weights, ids) && NonNegative(weights) && 1 <= keep <= |ids| && weights[ids[0]] > 0.0
    ensures Sum(Picked(weights, ids[..keep])) > 0.0
  {
    PickedMass(weights, ids[..keep], keep);
    assert Picked(weights, ids[..keep])[..keep] == Picked(weights, ids[..keep]) && ids[..keep][..keep] == ids[..keep];
    MassGrows(weights, ids, 1, keep);
    MassStep(weights, ids, 0);
  }

  lemma BenchmarkVariate(seed: bv32)
    ensures 0.0 < Uniform01(seed, 0) < 1.0
  {
    BenchmarkBelowOne(seed);
    hide *;
  }

  /** sorted_top_p: for no seed is the final fallback return taken. */
  method SortedTopP(exp: real -> real, logits: seq<Float>, p: real, temperature: real, seed: bv32)
    returns (token: nat, ghost fallback: bool)
    requires Increasing(exp) && temperature > 0.0 && AllValid(logits) && exists i :: 0 <= i < |logits| && logits[i].Finite?
    ensures token < |logits| && logits[StableSort(Keys(logits))[0]].Finite?
    ensures TopPToken(exp, logits, p, temperature, Uniform01(seed, 0), token, fallback)
    ensures !fallback
  {
    ghost var finite: nat :| finite < |logits| && logits[finite].Finite?;
    FiniteHead(logits, finite);
    BenchmarkVariate(seed);
    hide Uniform01, Cell, Keys, ExpOf, TopPDraw, Bounded, Increasing;
    var ids := StableSort(Keys(logits));
    var maximum := logits[ids[0]].value;
    var table, total := WeighTokens(exp, logits, maximum, temperature);
    WeightsFollow(exp, logits, maximum, temperature);
    var uniform := Uniform01(seed, 0);
    UniformBounded(uniform);
    token, fallback := SortedDraw(Keys(logits), table[..], Share(p)(total), Share(uniform));
    FallbackIsOne(Keys(logits), table[..], Share(p)(total), uniform, token, fallback);
  }

  method SortedDraw(keys: seq<real>, weights: seq<real>, target: real, share: real -> real)
    returns (token: nat, ghost fallback: bool)
    requires keys != [] && |weights| == |keys| && NonNegative(weights) && weights[StableSort(keys)[0]] > 0.0
    requires Bounded(share)
    ensures token < |keys| && TopPDraw(keys, weights, target, share, token, fallback)
  {
    var ids := StableSort(keys);
    var keep := KeepShortest(weights, ids, target);
    var i := DrawKept(weights, ids[..keep], share);
    token, fallback := ids[i], FallsBack(Picked(weights, ids[..keep]), share);
    assert TopPItem(keys, weights, target, share, token, fallback, keep, i);
  }

  /** The do-while loop that extends the kept prefix. */
  method KeepShortest(weights: seq<real>, ids: seq<nat>, target: real) returns (keep: nat)
    requires Indices(weights, ids) && ids != []
    ensures IsNucleus(weights, ids, target, keep)
  {
    MassStep(weights, ids, 0);
    var cumulative := weights[ids[0]];
    keep := 1;
    while keep < |ids| && cumulative < target
      invariant 1 <= keep <= |ids| && cumulative == Mass(weights, ids[..keep])
      invariant forall n | 1 <= n < keep :: Mass(weights, ids[..n]) < target
    {
      MassStep(weights, ids, keep);
      cumulative := cumulative + weights[ids[keep]];
      keep := keep + 1;
    }
  }

  /** The two loops over the kept tokens: their mass, then the interval that is hit. */
  method DrawKept(weights: seq<real>, ids: seq<nat>, share: real -> real) returns (item: nat)
    requires Indices(weights, ids) && ids != [] && NonNegative(weights) && weights[ids[0]] > 0.0 && Bounded(share)
    ensures DrawnShare(Picked(weights, ids), share, item)
  {
    ghost var picked := Picked(weights, ids);
    var kept := 0.0;
    for i := 0 to |ids|
      invariant kept == Sum(picked[..i])
    {
      SumStep(picked, i);
      kept := kept + weights[ids[i]];
    }
    assert picked[..|ids|] == picked && ids[..|ids|] == ids;
    KeptPositive(weights, ids, |ids|);
    item := FindInterval(weights, ids, share(kept));
  }

  /** Past the last interval, ids.back(). */
  method FindInterval(weights: seq<real>, ids: seq<nat>, target: real) returns (item: nat)
    requires Indices(weights, ids) && ids != [] && NonNegative(weights) && 0.0 <= target
    ensures var picked := Picked(weights, ids);
      if target < Sum(picked) then Drawn(picked, target, item) else item + 1 == |ids|
  {
    ghost var picked := Picked(weights, ids);
    assert picked[..|ids|] == picked;
    var cumulative := 0.0;
    for i := 0 to |ids|
      invariant cumulative == Sum(picked[..i]) <= target
    {
      SumStep(picked, i);
      cumulative := cumulative + weights[ids[i]];
      if target < cumulative {
        SumGrows(picked, i + 1, |picked|);
        return i;
      }
    }
    item := |ids| - 1;
  }

  // ---------- the kernel ----------

  /** What the kernel leaves for one row; a row of minus infinities yields its first token. */
  ghost predicate RowSampled(exp: real -> real, row: seq<Float>, p: real, temperature: real, seed: bv32, index: bv64,
                             token: nat)
    requires row != [] && temperature > 0.0
  {
    var best := StableSort(Keys(row))[0];
    && AllValid(row)
    && if row[best].Finite?
       then TopPToken(exp, row, p, temperature, Uniform01(seed, index), token, Cell(seed, index) == LAST_CELL)
       else token == best
  }

  /** One row of top_p_sample: the heap selection followed by the weighted draw, or a rejection. */
  method TopPRow(exp: real -> real, row: seq<Float>, p: real, temperature: real, seed: bv32, index: bv64)
    returns (valid: bool, token: nat)
    requires Increasing(exp) && row != [] && temperature > 0.0
    ensures token < |row| && (valid <==> AllValid(row))
    ensures valid ==> RowSampled(exp, row, p, temperature, seed, index, token)
  {
    var best;
    best, valid := RowArgmax(row);
    if !valid || !row[best].Finite? {
      return valid, best;
    }
    OneIsLastCell(seed, index);
    hide Uniform01, Cell;
    var table, total := WeighTokens(exp, row, row[best].value, temperature);
    WeightsFollow(exp, row, row[best].value, temperature);
    var uniform := Uniform01(seed, index);
    UniformBounded(uniform);
    ghost var fallback;
    token, fallback := HeapDraw(Keys(row), table[..], Share(p)(total), Share(uniform));
    FallbackIsOne(Keys(row), table[..], Share(p)(total), uniform, token, fallback);
  }

  method HeapDraw(keys: seq<real>, weights: seq<real>, target: real, share: real -> real)
    returns (token: nat, ghost fallback: bool)
    requires keys != [] && |weights| == |keys| && NonNegative(weights) && weights[StableSort(keys)[0]] > 0.0
    requires Bounded(share)
    ensures token < |keys| && TopPDraw(keys, weights, target, share, token, fallback)
  {
    var ids := NucleusTokens(keys, weights, target);
    var selected := Picked(weights, ids);
    ghost var sorted := StableSort(keys);
    KeptPositive(weights, sorted, |ids|);
    token := SampleWeighted(ids, selected, share);
    ghost var item: nat :| DrawnShare(selected, share, item) && token == ids[item];
    fallback := FallsBack(selected, share);
    assert TopPItem(keys, weights, target, share, token, fallback, |ids|, item);
  }

  /** Hence the heap kernel and the full-sort reference return the same token. */
  lemma KernelMatchesReference(exp: real -> real, logits: seq<Float>, p: real, temperature: real, uniform: real,
                               a: nat, b: nat, fa: bool, fb: bool)
    requires Increasing(exp) && logits != [] && temperature > 0.0 && AllValid(logits)
    requires logits[StableSort(Keys(logits))[0]].Finite?
    requires TopPToken(exp, logits, p, temperature, uniform, a, fa)
    requires TopPToken(exp, logits, p, temperature, uniform, b, fb)
    ensures a == b && fa == fb
  {
    var maximum := logits[StableSort(Keys(logits))[0]].value;
    var weights := Weights(exp, logits, maximum, temperature);
    WeightsFollow(exp, logits, maximum, temperature);
    TopPUnique(Keys(logits), weights, Share(p)(Mass(weights, Iota(|logits|))), Share(uniform), a, b, fa, fb);
  }

  // ---------- all rows ----------

  function RowAt(logits: seq<Float>, vocab: nat, r: nat): (row: seq<Float>)
    requires Flat(r, vocab, 0) + vocab <= |logits|
    ensures |row| == vocab
  {
    RowOf(logits, r, vocab)
  }

  /** Rows 0, ..., done - 1 are valid and sampled; at temperature zero they hold the head of their ranking. */
  ghost predicate RowsSampled(exp: real -> real, logits: seq<Float>, p: real, temperature: real, seed: bv32, rows: nat,
                              vocab: nat, out: seq<nat>, done: nat)
    requires vocab > 0 && temperature >= 0.0
  {
    && |logits| == Flat(rows, vocab, 0) && |out| == rows < 0x1_0000_0000_0000_0000 && done <= rows
    && forall r: nat | r < done :: RowDone(exp, logits, p, temperature, seed, vocab, out, r)
  }

  ghost predicate RowDone(exp: real -> real, logits: seq<Float>, p: real, temperature: real, seed: bv32, vocab: nat,
                          out: seq<nat>, r: nat)
    requires vocab > 0 && temperature >= 0.0
  {
    && Flat(r, vocab, 0) + vocab <= |logits| && r < |out| && r < 0x1_0000_0000_0000_0000
    && AllValid(RowAt(logits, vocab, r))
    && if temperature == 0.0 then out[r] == StableSort(Keys(RowAt(logits, vocab, r)))[0]
       else RowSampled(exp, RowAt(logits, vocab, r), p, temperature, seed, r as bv64, out[r])
  }

  /** top_p_sample, argmax_sample at temperature zero included: it stops at the first row with an invalid logit. */
  method TopPSample(exp: real -> real, logits: seq<Float>, out: array<nat>, rows: int, vocab: int, p: real,
                    temperature: real, seed: bv32)
    returns (status: Status, ghost done: nat)
    requires Increasing(exp) && rows < 0x8000_0000_0000_0000
    requires rows > 0 && vocab > 0 ==> |logits| == Flat(rows, vocab, 0) && out.Length == rows
    modifies out
    ensures status.InvalidShape? <==> rows <= 0 || vocab <= 0 || temperature < 0.0 || p <= 0.0 || p > 1.0
    ensures status.InvalidShape? ==> out[..] == old(out[..])
    ensures !status.InvalidShape? ==> RowsSampled(exp, logits, p, temperature, seed, rows, vocab, out[..], done)
    ensures status.Ok? ==> done == rows
    ensures forall i | done < i < out.Length :: out[i] == old(out[i])
    ensures status.InvalidArgument? ==> done < rows && Flat(done, vocab, 0) + vocab <= |logits|
                                        && !AllValid(RowAt(logits, vocab, done))
  {
    if rows <= 0 || vocab <= 0 || temperature < 0.0 || p <= 0.0 || p > 1.0 {
      return InvalidShape, 0;
    }
    hide RowDone, Flat, RowOf;
    for r := 0 to rows
      invariant RowsSampled(exp, logits, p, temperature, seed, rows, vocab, out[..], r)
      invariant forall i | r <= i < out.Length :: out[i] == old(out[i])
    {
      ghost var later := out[r + 1..];
      var valid := SampleInto(exp, logits, out, rows, vocab, p, temperature, seed, r);
      forall i | r < i < out.Length ensures out[i] == old(out[i]) {
        assert out[r + 1..][i - (r + 1)] == later[i - (r + 1)];
      }
      if !valid {
        return InvalidArgument, r;
      }
    }
    return Ok, rows;
  }

  method SampleInto(exp: real -> real, logits: seq<Float>, out: array<nat>, rows: nat, vocab: nat, p: real,
                    temperature: real, seed: bv32, r: nat)
    returns (valid: bool)
    requires Increasing(exp) && vocab > 0 && temperature >= 0.0 && r < rows
    requires RowsSampled(exp, logits, p, temperature, seed, rows, vocab, out[..], r)
    modifies out
    ensures RowsSampled(exp, logits, p, temperature, seed, rows, vocab, out[..], r)
    ensures valid ==> RowsSampled(exp, logits, p, temperature, seed, rows, vocab, out[..], r + 1)
    ensures out[r + 1..] == old(out[r + 1..])
    ensures Flat(r, vocab, 0) + vocab <= |logits| && (valid <==> AllValid(RowAt(logits, vocab, r)))
  {
    RowInside(r, rows, vocab);
    var row := RowAt(logits, vocab, r);
    ghost var before := out[..];
    var token;
    assert forall done: nat | done < r :: RowDone(exp, logits, p, temperature, seed, vocab, before, done);
    hide RowDone, RowSampled, Keys, AllValid, Increasing, RowOf, RowAt, Flat;
    if temperature == 0.0 {
      token, valid := RowArgmax(row);
      out[r] := token;
    } else {
      valid, token := TopPRow(exp, row, p, temperature, seed, r as bv64);
      if valid {
        out[r] := token;
      }
    }
    ghost var after := out[..];
    assert |after| == |before| && forall i | 0 <= i < r :: after[i] == before[i];
    forall done: nat | done < r ensures RowDone(exp, logits, p, temperature, seed, vocab, after, done) {
      RowKept(exp, logits, p, temperature, seed, vocab, before, after, done);
    }
    if valid {
      RowFinished(exp, logits, p, temperature, seed, vocab, out[..], r, row);
    }
  }

  lemma RowKept(exp: real -> real, logits: seq<Float>, p: real, temperature: real, seed: bv32, vocab: nat,
                before: seq<nat>, after: seq<nat>, r: nat)
    requires vocab > 0 && temperature >= 0.0 && RowDone(exp, logits, p, temperature, seed, vocab, before, r)
    requires r < |after| && after[r] == before[r]
    ensures RowDone(exp, logits, p, temperature, seed, vocab, after, r)
  {
    hide RowSampled, Keys;
  }

  lemma RowFinished(exp: real -> real, logits: seq<Float>, p: real, temperature: real, seed: bv32, vocab: nat,
                    out: seq<nat>, r: nat, row: seq<Float>)
    requires vocab > 0 && temperature >= 0.0 && r < |out| && r < 0x1_0000_0000_0000_0000
    requires Flat(r, vocab, 0) + vocab <= |logits| && row == RowAt(logits, vocab, r) && AllValid(row)
    requires if temperature == 0.0 then out[r] == StableSort(Keys(row))[0]
             else RowSampled(exp, row, p, temperature, seed, r as bv64, out[r])
    ensures RowDone(exp, logits, p, temperature, seed, vocab, out, r)
  {
    hide RowSampled, Keys;
  }
}
