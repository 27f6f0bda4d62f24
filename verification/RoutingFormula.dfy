/**
 Routing written out over the logits: which experts a token gets, in which order, and their weights as shares of the
 exponentials of the chosen logits.
 */
module RoutingFormula {
  import opened Arith
  import opened Options
  import opened Rows
  import opened Sums
  import opened Ranking
  import opened Reals
  import opened Nucleus
  import opened Softmax
  import opened Logits
  import opened Routing
  import opened SamplingFormula

  lemma RoutedRow(exp: real -> real, logits: seq<Float>, tokens: nat, experts: nat, k: nat, ids: seq<nat>,
                  weights: seq<real>, done: nat, t: nat)
    returns (row: seq<Float>, chosen: seq<nat>, shares: seq<real>)
    requires RowsRouted(exp, logits, tokens, experts, k, ids, weights, done) && t < done && t < tokens
    ensures |row| == experts && |chosen| == |shares| == k && Routed(exp, row, k, chosen, shares)
    ensures forall c: nat | c < experts :: row[c] == At(logits, RowMajor(t, experts, c), NaN)
    ensures forall i: nat | i < k ::
      At(ids, RowMajor(t, k, i), 0) == chosen[i] && At(weights, RowMajor(t, k, i), 0.0) == shares[i]
  {
    assert TokenRouted(exp, logits, experts, k, ids, weights, t);
    row, chosen, shares := RowOf(logits, t, experts), RowOf(ids, t, k), RowOf(weights, t, k);
    hide RowMajor, Flat, RowOf, Routed, RowsRouted;
    forall c: nat | c < experts ensures row[c] == At(logits, RowMajor(t, experts, c), NaN) {
      RowElement(logits, t, experts, c, NaN);
    }
    forall i: nat | i < k
      ensures At(ids, RowMajor(t, k, i), 0) == chosen[i] && At(weights, RowMajor(t, k, i), 0.0) == shares[i]
    {
      RowElement(ids, t, k, i, 0);
      RowElement(weights, t, k, i, 0.0);
    }
  }

  /** The chosen experts come first, in their order. */
  lemma ChosenLead(exp: real -> real, row: seq<Float>, k: nat, chosen: seq<nat>, shares: seq<real>)
    requires Routed(exp, row, k, chosen, shares)
    ensures forall i | 0 <= i < k :: chosen[i] < |row|
    ensures forall i, j | 0 <= i < j < k :: Leads(row, chosen[i], chosen[j])
    ensures forall i: nat, c: nat | i < k && c < |row| && c !in chosen :: Leads(row, chosen[i], c)
  {
    IdsOrdered(row);
    var ranked := StableSort(Keys(row));
    assert forall i | 0 <= i < k :: chosen[i] == ranked[i];
    hide Keys, StableSort, Leads, Routed;
    forall i: nat, c: nat | i < k && c < |row| && c !in chosen ensures Leads(row, chosen[i], c) {
      RankingCovers(Keys(row), ranked, c);
      var r :| 0 <= r < |ranked| && ranked[r] == c;
      if r < k {
        assert chosen[r] == c;
      }
    }
  }

  lemma SharesAre(exp: real -> real, row: seq<Float>, k: nat, chosen: seq<nat>, shares: seq<real>, weight: nat -> real)
    requires Exponential(exp) && k > 0 && Routed(exp, row, k, chosen, shares) && row[Head(row)].Finite?
    requires forall c: nat | c < |row| :: weight(c) == if row[c].Finite? then exp(row[c].value) else 0.0
    ensures SumOver(weight, chosen) > 0.0
    ensures forall i | 0 <= i < k :: Times(shares[i], SumOver(weight, chosen)) == weight(chosen[i])
  {
    RoutedMass(exp, row, k, chosen, shares);
    hide Exponential, Head, StableSort, Keys, Times;
    MassIsSum(Exps(exp, row), weight, chosen);
  }

  /** A token with a finite logit: each of its weights is the expert's share of the chosen experts' exponentials. */
  lemma RoutingWrittenOut(exp: real -> real, logits: seq<Float>, tokens: nat, experts: nat, k: nat, ids: seq<nat>,
                          weights: seq<real>, done: nat, t: nat, expert: nat, weight: nat -> real)
    returns (row: seq<Float>, chosen: seq<nat>)
    requires Exponential(exp) && 1 <= k && t < done && t < tokens && expert < experts
    requires RowsRouted(exp, logits, tokens, experts, k, ids, weights, done)
    requires At(logits, RowMajor(t, experts, expert), NaN).Finite?
    requires forall c: nat | c < experts ::
      var l := At(logits, RowMajor(t, experts, c), NaN);
      weight(c) == if l.Finite? then exp(l.value) else 0.0
    ensures |row| == experts && forall c: nat | c < experts :: row[c] == At(logits, RowMajor(t, experts, c), NaN)
    ensures |chosen| == k && forall i: nat | i < k :: chosen[i] < experts && At(ids, RowMajor(t, k, i), 0) == chosen[i]
    ensures forall i, j | 0 <= i < j < k :: Leads(row, chosen[i], chosen[j])
    ensures forall i: nat, c: nat | i < k && c < experts && c !in chosen :: Leads(row, chosen[i], c)
    ensures SumOver(weight, chosen) > 0.0
    ensures forall i: nat | i < k ::
      Times(At(weights, RowMajor(t, k, i), 0.0), SumOver(weight, chosen)) == weight(chosen[i])
  {
    var shares;
    row, chosen, shares := RoutedRow(exp, logits, tokens, experts, k, ids, weights, done, t);
    ChosenLead(exp, row, k, chosen, shares);
    assert AllValid(row) && row[expert].Finite?;
    hide Exponential, Leads, RowsRouted, RowMajor, Routed, Keys, StableSort, Times, At, AllValid;
    FiniteHead(row, expert);
    SharesAre(exp, row, k, chosen, shares, weight);
  }

  lemma {:induction false} OneWeighs(weights: seq<real>, ids: seq<nat>)
    requires Indices(weights, ids) && ids != [] && weights[ids[0]] == 1.0
    requires forall i | 0 < i < |ids| :: weights[ids[i]] == 0.0
    ensures Mass(weights, ids) == 1.0
  {
    var n := |ids| - 1;
    if n > 0 {
      OneWeighs(weights, ids[..n]);
    } else {
      assert Mass(weights, ids[..n]) == 0.0;
    }
  }

  /** A token whose logits are all minus infinity: the first expert takes all. */
  lemma NothingFinite(exp: real -> real, logits: seq<Float>, tokens: nat, experts: nat, k: nat, ids: seq<nat>,
                      weights: seq<real>, done: nat, t: nat, i: nat)
    requires Exponential(exp) && 1 <= k && t < done && t < tokens && i < k
    requires RowsRouted(exp, logits, tokens, experts, k, ids, weights, done)
    requires forall c: nat | c < experts :: At(logits, RowMajor(t, experts, c), NaN).MinusInfinity?
    ensures At(weights, RowMajor(t, k, i), 0.0) == if i == 0 then 1.0 else 0.0
  {
    var row, chosen, shares := RoutedRow(exp, logits, tokens, experts, k, ids, weights, done, t);
    ChosenLead(exp, row, k, chosen, shares);
    hide RowsRouted, RowMajor, At, Keys, StableSort, Exponential;
    forall j | 0 < j < k ensures chosen[j] != chosen[0] {
      assert Leads(row, chosen[0], chosen[j]);
    }
    OneWeighs(Exps(exp, row), chosen);
    TimesZero(shares[i]);
  }
}
