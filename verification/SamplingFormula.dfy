/**
 Top-p sampling written out over the logits of a row: the weights, the order, the kept tokens and the interval that is
 drawn.
 */
module SamplingFormula {
  import opened Arith
  import opened Options
  import opened Rows
  import opened Sums
  import opened Ranking
  import opened Nucleus
  import opened Reals
  import opened Logits
  import opened Uniform
  import opened Sampling

  /** The greatest logit of a row without NaN and plus infinity that has a finite one. */
  ghost predicate IsMaximum(row: seq<Float>, maximum: real) {
    && (forall i | 0 <= i < |row| && row[i].Finite? :: row[i].value <= maximum)
    && exists i :: 0 <= i < |row| && row[i] == Finite(maximum)
  }

  /** Token a is named before token b: the greater logit first, minus infinity last, the lower index first among equals. */
  ghost predicate Leads(row: seq<Float>, a: nat, b: nat) {
    && a < |row| && b < |row|
    && if row[a].Finite? && row[b].Finite?
       then row[a].value > row[b].value || (row[a].value == row[b].value && a < b)
       else row[a].Finite? || (!row[b].Finite? && a < b)
  }

  lemma HeadIsMaximum(row: seq<Float>, maximum: real)
    requires AllValid(row) && IsMaximum(row, maximum)
    ensures row != [] && row[StableSort(Keys(row))[0]] == Finite(maximum)
  {
    var i :| 0 <= i < |row| && row[i] == Finite(maximum);
    FiniteHead(row, i);
    var ids := StableSort(Keys(row));
    RankingCovers(Keys(row), ids, i);
    var r :| 0 <= r < |ids| && ids[r] == i;
    hide Keys, StableSort;
    if r > 0 {
      KeysPrecede(row, ids[0], i);
    }
  }

  // ---------- sums ----------

  lemma {:induction false} MassIsSum(weights: seq<real>, weight: nat -> real, ids: seq<nat>)
    requires Indices(weights, ids) && forall i | 0 <= i < |weights| :: weights[i] == weight(i)
    ensures Mass(weights, ids) == SumOver(weight, ids)
  {
    if ids != [] {
      MassIsSum(weights, weight, ids[..|ids| - 1]);
    }
  }

  lemma {:induction false} IotaSum(weight: nat -> real, n: nat)
    ensures SumOver(weight, Iota(n)) == SumTo(weight, n)
  {
    if n > 0 {
      assert Iota(n)[..n - 1] == Iota(n - 1);
      IotaSum(weight, n - 1);
    }
  }

  lemma PickedSum(weights: seq<real>, weight: nat -> real, ids: seq<nat>, n: nat)
    requires Indices(weights, ids) && n <= |ids| && forall i | 0 <= i < |weights| :: weights[i] == weight(i)
    ensures Sum(Picked(weights, ids)[..n]) == SumOver(weight, ids[..n])
  {
    PickedMass(weights, ids, n);
    MassIsSum(weights, weight, ids[..n]);
  }

  // ---------- the draw ----------

  /**
   `ids` are all tokens, the greater logit first and the lower index first among equals; the first `keep` of them are the
   fewest whose weight reaches p * total; token ids[i] is the one of them whose interval holds uniform * kept, and the
   last one if the variate is one.
   */
  lemma TokenWrittenOut(exp: real -> real, row: seq<Float>, p: real, temperature: real, uniform: real, token: nat,
                        fallback: bool, maximum: real, weight: nat -> real)
    returns (ids: seq<nat>, keep: nat, i: nat)
    requires Increasing(exp) && AllValid(row) && temperature > 0.0 && 0.0 < uniform <= 1.0 && IsMaximum(row, maximum)
    requires row != [] && row[StableSort(Keys(row))[0]].Finite?
    requires TopPToken(exp, row, p, temperature, uniform, token, fallback)
    requires forall c: nat | c < |row| ::
      weight(c) == if row[c].Finite? then exp((row[c].value - maximum) / temperature) else 0.0
    ensures |ids| == |row| && (forall a | 0 <= a < |ids| :: ids[a] < |row|)
    ensures forall a, b | 0 <= a < b < |ids| :: Leads(row, ids[a], ids[b])
    ensures 1 <= keep <= |ids| && forall n | 1 <= n < keep :: SumOver(weight, ids[..n]) < Times(p, SumTo(weight, |row|))
    ensures keep == |ids| || SumOver(weight, ids[..keep]) >= Times(p, SumTo(weight, |row|))
    ensures i < keep && token == ids[i] && (fallback <==> uniform == 1.0)
    ensures uniform == 1.0 ==> i == keep - 1
    ensures uniform < 1.0 ==>
      SumOver(weight, ids[..i]) <= Times(uniform, SumOver(weight, ids[..keep])) < SumOver(weight, ids[..i + 1])
  {
    hide Increasing, IsMaximum, Leads, AllValid, TopPToken, TopPDraw, TopPItem, NonNegative, StableSort, Keys, Times;
    ids := StableSort(Keys(row));
    IdsOrdered(row);
    var weights, target := DrawOf(exp, row, p, temperature, uniform, token, fallback, maximum, weight);
    keep, i := DrawWrittenOut(Keys(row), weights, weight, target, uniform, token, fallback);
  }

  lemma DrawOf(exp: real -> real, row: seq<Float>, p: real, temperature: real, uniform: real, token: nat,
               fallback: bool, maximum: real, weight: nat -> real)
    returns (weights: seq<real>, target: real)
    requires Increasing(exp) && AllValid(row) && temperature > 0.0 && IsMaximum(row, maximum)
    requires row != [] && row[StableSort(Keys(row))[0]].Finite?
    requires TopPToken(exp, row, p, temperature, uniform, token, fallback)
    requires forall c: nat | c < |row| ::
      weight(c) == if row[c].Finite? then exp((row[c].value - maximum) / temperature) else 0.0
    ensures |weights| == |row| && NonNegative(weights) && weights[StableSort(Keys(row))[0]] > 0.0
    ensures forall c | 0 <= c < |row| :: weights[c] == weight(c)
    ensures target == Times(p, SumTo(weight, |row|))
    ensures TopPDraw(Keys(row), weights, target, Share(uniform), token, fallback)
  {
    HeadIsMaximum(row, maximum);
    weights := Weights(exp, row, maximum, temperature);
    WeightsFollow(exp, row, maximum, temperature);
    hide Increasing, Follows, Keys, StableSort, TopPDraw, Times, IsMaximum, AllValid;
    target := Share(p)(Mass(weights, Iota(|row|)));
    ShareIs(p, weights, weight, |row|);
  }

  lemma ShareIs(p: real, weights: seq<real>, weight: nat -> real, n: nat)
    requires |weights| == n && forall c | 0 <= c < n :: weights[c] == weight(c)
    ensures Share(p)(Mass(weights, Iota(n))) == Times(p, SumTo(weight, n))
  {
    MassIsSum(weights, weight, Iota(n));
    IotaSum(weight, n);
  }

  lemma DrawWrittenOut(keys: seq<real>, weights: seq<real>, weight: nat -> real, target: real, uniform: real,
                       token: nat, fallback: bool)
    returns (keep: nat, i: nat)
    requires keys != [] && |weights| == |keys| && NonNegative(weights) && weights[StableSort(keys)[0]] > 0.0
    requires 0.0 < uniform <= 1.0 && forall c | 0 <= c < |weights| :: weights[c] == weight(c)
    requires TopPDraw(keys, weights, target, Share(uniform), token, fallback)
    ensures var ids := StableSort(keys);
      && 1 <= keep <= |ids| && (forall n | 1 <= n < keep :: SumOver(weight, ids[..n]) < target)
      && (keep == |ids| || SumOver(weight, ids[..keep]) >= target)
      && i < keep && token == ids[i] && (fallback <==> uniform == 1.0)
      && (uniform == 1.0 ==> i == keep - 1)
      && (uniform < 1.0 ==>
            SumOver(weight, ids[..i]) <= Times(uniform, SumOver(weight, ids[..keep])) < SumOver(weight, ids[..i + 1]))
  {
    hide StableSort, TopPItem, Share, NonNegative, Picked, IsNucleus;
    var ids := StableSort(keys);
    keep, i := ItemOf(keys, weights, target, uniform, token, fallback);
    NucleusWrittenOut(weights, weight, ids, target, keep);
    ItemWrittenOut(weights, weight, ids, keep, uniform, fallback, i);
  }

  lemma ItemOf(keys: seq<real>, weights: seq<real>, target: real, uniform: real, token: nat, fallback: bool)
    returns (keep: nat, i: nat)
    requires keys != [] && |weights| == |keys| && NonNegative(weights) && weights[StableSort(keys)[0]] > 0.0
    requires 0.0 < uniform <= 1.0 && TopPDraw(keys, weights, target, Share(uniform), token, fallback)
    ensures fallback <==> uniform == 1.0
    ensures var ids := StableSort(keys);
      && Indices(weights, ids) && IsNucleus(weights, ids, target, keep) && 1 <= keep <= |ids|
      && DrawnShare(Picked(weights, ids[..keep]), Share(uniform), i) && i < keep && token == ids[i]
      && (fallback <==> FallsBack(Picked(weights, ids[..keep]), Share(uniform)))
  {
    FallbackIsOne(keys, weights, target, uniform, token, fallback);
    keep, i :| TopPItem(keys, weights, target, Share(uniform), token, fallback, keep, i);
  }

  lemma IdsOrdered(row: seq<Float>)
    requires AllValid(row)
    ensures var ids := StableSort(Keys(row));
      && |ids| == |row| && (forall a | 0 <= a < |ids| :: ids[a] < |row|)
      && forall a, b | 0 <= a < b < |ids| :: Leads(row, ids[a], ids[b])
  {
    var ids := StableSort(Keys(row));
    forall a, b | 0 <= a < b < |ids|
      ensures Leads(row, ids[a], ids[b])
    {
      assert Precedes(Keys(row), ids[a], ids[b]);
      KeysPrecede(row, ids[a], ids[b]);
      hide Keys;
    }
  }

  lemma NucleusWrittenOut(weights: seq<real>, weight: nat -> real, ids: seq<nat>, target: real, keep: nat)
    requires Indices(weights, ids) && IsNucleus(weights, ids, target, keep)
    requires forall c | 0 <= c < |weights| :: weights[c] == weight(c)
    ensures 1 <= keep <= |ids| && forall n | 1 <= n < keep :: SumOver(weight, ids[..n]) < target
    ensures keep == |ids| || SumOver(weight, ids[..keep]) >= target
  {
    forall n | 1 <= n <= keep ensures SumOver(weight, ids[..n]) == Mass(weights, ids[..n]) {
      MassIsSum(weights, weight, ids[..n]);
    }
  }

  lemma ShareTimes(factor: real, total: real)
    ensures Share(factor)(total) == Times(factor, total)
  {
  }

  lemma ItemWrittenOut(weights: seq<real>, weight: nat -> real, ids: seq<nat>, keep: nat, uniform: real, fallback: bool,
                       i: nat)
    requires Indices(weights, ids) && 1 <= keep <= |ids| && forall c | 0 <= c < |weights| :: weights[c] == weight(c)
    requires var picked := Picked(weights, ids[..keep]);
      DrawnShare(picked, Share(uniform), i) && (fallback <==> FallsBack(picked, Share(uniform)))
    ensures i < keep && (fallback ==> i == keep - 1)
    ensures !fallback ==>
      SumOver(weight, ids[..i]) <= Times(uniform, SumOver(weight, ids[..keep])) < SumOver(weight, ids[..i + 1])
  {
    hide Times, Mass, NonNegative;
    var picked := Picked(weights, ids[..keep]);
    assert picked[..keep] == picked && ids[..keep][..keep] == ids[..keep];
    PickedSum(weights, weight, ids[..keep], keep);
    ShareTimes(uniform, Sum(picked));
    if !fallback {
      PickedSum(weights, weight, ids[..keep], i);
      PickedSum(weights, weight, ids[..keep], i + 1);
      assert ids[..keep][..i] == ids[..i] && ids[..keep][..i + 1] == ids[..i + 1];
    }
  }

  ghost predicate HasMaximum(logits: seq<Float>, vocab: nat, r: nat, maximum: real) {
    && (forall c: nat | c < vocab && At(logits, RowMajor(r, vocab, c), NaN).Finite? ::
          At(logits, RowMajor(r, vocab, c), NaN).value <= maximum)
    && exists c: nat :: c < vocab && At(logits, RowMajor(r, vocab, c), NaN) == Finite(maximum)
  }

  lemma SampledRow(exp: real -> real, logits: seq<Float>, p: real, temperature: real, seed: bv32, vocab: nat,
                   out: seq<nat>, r: nat, maximum: real) returns (row: seq<Float>)
    requires vocab > 0 && temperature > 0.0 && HasMaximum(logits, vocab, r, maximum)
    requires RowDone(exp, logits, p, temperature, seed, vocab, out, r)
    ensures |row| == vocab && AllValid(row) && forall c: nat | c < vocab :: row[c] == At(logits, RowMajor(r, vocab, c), NaN)
    ensures r < |out| && r < 0x1_0000_0000_0000_0000
    ensures IsMaximum(row, maximum) && row[StableSort(Keys(row))[0]].Finite?
    ensures var variate := Uniform01(seed, r as bv64);
      0.0 < variate <= 1.0 && TopPToken(exp, row, p, temperature, variate, out[r], variate == 1.0)
  {
    hide Increasing, Keys, StableSort, Uniform01, Cell, Flat, TopPToken, RowMajor, HasMaximum, AllValid, IsMaximum, RowAt;
    row := RowAt(logits, vocab, r);
    OneIsLastCell(seed, r as bv64);
    RowMaximum(logits, vocab, r, maximum);
    HeadIsMaximum(row, maximum);
  }

  lemma RowMaximum(logits: seq<Float>, vocab: nat, r: nat, maximum: real)
    requires vocab > 0 && HasMaximum(logits, vocab, r, maximum) && Flat(r, vocab, 0) + vocab <= |logits|
    ensures var row := RowAt(logits, vocab, r);
      IsMaximum(row, maximum) && |row| == vocab
      && forall c: nat | c < vocab :: row[c] == At(logits, RowMajor(r, vocab, c), NaN)
  {
    var row := RowAt(logits, vocab, r);
    hide Flat, RowMajor, RowOf;
    forall c: nat | c < vocab ensures row[c] == At(logits, RowMajor(r, vocab, c), NaN) {
      RowElement(logits, r, vocab, c, NaN);
    }
    hide RowAt, At;
    var c: nat :| c < vocab && At(logits, RowMajor(r, vocab, c), NaN) == Finite(maximum);
    assert row[c] == Finite(maximum);
  }

  /** Row r of what the kernel writes, for every row that has a finite logit, at a positive temperature. */
  lemma RowWrittenOut(exp: real -> real, logits: seq<Float>, p: real, temperature: real, seed: bv32, rows: nat, vocab: nat,
                      out: seq<nat>, done: nat, r: nat, maximum: real, weight: nat -> real)
    returns (row: seq<Float>, ids: seq<nat>, keep: nat, i: nat)
    requires Increasing(exp) && vocab > 0 && temperature > 0.0 && r < done
    requires RowsSampled(exp, logits, p, temperature, seed, rows, vocab, out, done)
    requires HasMaximum(logits, vocab, r, maximum)
    requires forall c: nat | c < vocab ::
      var l := At(logits, RowMajor(r, vocab, c), NaN);
      weight(c) == if l.Finite? then exp((l.value - maximum) / temperature) else 0.0
    ensures |row| == vocab && forall c: nat | c < vocab :: row[c] == At(logits, RowMajor(r, vocab, c), NaN)
    ensures |ids| == vocab && (forall a | 0 <= a < |ids| :: ids[a] < vocab)
    ensures forall a, b | 0 <= a < b < |ids| :: Leads(row, ids[a], ids[b])
    ensures 1 <= keep <= |ids| && forall n | 1 <= n < keep :: SumOver(weight, ids[..n]) < Times(p, SumTo(weight, vocab))
    ensures keep == |ids| || SumOver(weight, ids[..keep]) >= Times(p, SumTo(weight, vocab))
    ensures i < keep && r < |out| && out[r] == ids[i] && r < 0x1_0000_0000_0000_0000
    ensures var uniform := Uniform01(seed, r as bv64);
      if uniform == 1.0 then i == keep - 1
      else SumOver(weight, ids[..i]) <= Times(uniform, SumOver(weight, ids[..keep])) < SumOver(weight, ids[..i + 1])
  {
    hide Increasing, Keys, StableSort, Uniform01, Cell, Flat, TopPToken, RowMajor, RowDone, AllValid, Times, RowSampled;
    hide HasMaximum, At, Leads;
    assert RowDone(exp, logits, p, temperature, seed, vocab, out, r);
    row := SampledRow(exp, logits, p, temperature, seed, vocab, out, r, maximum);
    ids, keep, i := TokenWrittenOut(exp, row, p, temperature, Uniform01(seed, r as bv64), out[r],
                                    Uniform01(seed, r as bv64) == 1.0, maximum, weight);
  }

  /** At temperature zero, or without a finite logit, row r gets its first token: nothing in it is named before. */
  lemma GreedyWrittenOut(exp: real -> real, logits: seq<Float>, p: real, temperature: real, seed: bv32, rows: nat,
                         vocab: nat, out: seq<nat>, done: nat, r: nat) returns (row: seq<Float>)
    requires vocab > 0 && r < done && temperature >= 0.0
    requires RowsSampled(exp, logits, p, temperature, seed, rows, vocab, out, done)
    requires temperature == 0.0 || forall c: nat | c < vocab :: !At(logits, RowMajor(r, vocab, c), NaN).Finite?
    ensures |row| == vocab && (forall c: nat | c < vocab :: row[c] == At(logits, RowMajor(r, vocab, c), NaN))
    ensures r < |out| && out[r] < vocab && forall c: nat | c < vocab && c != out[r] :: Leads(row, out[r], c)
  {
    row := RowAt(logits, vocab, r);
    assert RowDone(exp, logits, p, temperature, seed, vocab, out, r);
    IdsOrdered(row);
    var ids := StableSort(Keys(row));
    hide Flat, RowMajor, RowOf, RowAt, Keys, StableSort, Leads;
    forall c: nat | c < vocab ensures row[c] == At(logits, RowMajor(r, vocab, c), NaN) {
      RowElement(logits, r, vocab, c, NaN);
    }
    forall c: nat | c < vocab && c != ids[0] ensures Leads(row, ids[0], c) {
      RankingCovers(Keys(row), ids, c);
    }
  }

  // ---------- the temperature ----------

  /** Sampling at a temperature is sampling at temperature one with exp of the argument over that temperature. */
  lemma TemperatureScales(exp: real -> real, scaled: real -> real, row: seq<Float>, p: real, temperature: real,
                          uniform: real, token: nat, fallback: bool)
    requires row != [] && temperature > 0.0 && row[StableSort(Keys(row))[0]].Finite?
    requires forall x :: scaled(x) == exp(x / temperature)
    ensures TopPToken(exp, row, p, temperature, uniform, token, fallback)
       <==> TopPToken(scaled, row, p, 1.0, uniform, token, fallback)
  {
    hide Keys, StableSort;
    var maximum := row[StableSort(Keys(row))[0]].value;
    var a, b := Weights(exp, row, maximum, temperature), Weights(scaled, row, maximum, 1.0);
    forall c | 0 <= c < |row| ensures a[c] == b[c] {
      if row[c].Finite? {
        assert (row[c].value - maximum) / 1.0 == row[c].value - maximum;
      }
    }
    assert a == b;
  }
}
