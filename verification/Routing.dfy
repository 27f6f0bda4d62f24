/**
 Routing of tokens to experts: the k best logits of a token, weighted by a softmax over those k alone. Kernel
 kernels/moe/moe_ref.cpp and the full-sort baseline of benchmarks/cases/contract_ops.cpp. No shift by the maximum
 appears in what is specified: it is proved irrelevant.
 */
module Routing {
  import opened Arith
  import opened Reals
  import opened Rows
  import opened Ranking
  import opened Nucleus
  import opened Softmax
  import opened Logits
  import opened Options

  /** The expert that comes first. */
  function Head(row: seq<Float>): (c: nat)
    requires row != []
    ensures c < |row|
  {
    StableSort(Keys(row))[0]
  }

  /** The exponential of a logit; in a row of minus infinities the first expert stands for all. */
  function ExpAt(exp: real -> real, row: seq<Float>, c: nat): real
    requires c < |row|
  {
    if row[Head(row)].Finite? then
      if row[c].Finite? then exp(row[c].value) else 0.0
    else if c == Head(row) then 1.0
    else 0.0
  }

  function Exps(exp: real -> real, row: seq<Float>): (w: seq<real>)
    ensures |w| == |row|
  {
    seq(|row|, c requires 0 <= c < |row| => ExpAt(exp, row, c))
  }

  /** Larger logits have larger exponentials. */
  ghost predicate Rising(exp: real -> real) {
    forall x, y | x < y :: exp(x) < exp(y)
  }

  /** The first k experts of the stable sort, each weighted by its share of their exponentials. */
  ghost predicate Routed(exp: real -> real, row: seq<Float>, k: nat, ids: seq<nat>, weights: seq<real>) {
    && AllValid(row) && |ids| == |weights| == k <= |row| && Indices(Exps(exp, row), ids)
    && ids == StableSort(Keys(row))[..k]
    && forall i | 0 <= i < k :: Times(weights[i], Mass(Exps(exp, row), ids)) == Exps(exp, row)[ids[i]]
  }

  // ---------- what a routing is like ----------

  lemma ExpsNonNegative(exp: real -> real, row: seq<Float>)
    requires Exponential(exp)
    ensures NonNegative(Exps(exp, row))
    ensures row != [] ==> Exps(exp, row)[Head(row)] > 0.0
  {
    forall c | 0 <= c < |row| ensures ExpAt(exp, row, c) >= 0.0 && (c == Head(row) ==> ExpAt(exp, row, c) > 0.0) {
      if row[c].Finite? {
        ExpPositive(exp, row[c].value);
      }
    }
  }

  /** Any list that starts with the first expert has a positive total. */
  lemma MassPositive(exp: real -> real, row: seq<Float>, ids: seq<nat>, j: nat)
    requires Exponential(exp) && Indices(Exps(exp, row), ids) && row != [] && j < |ids| && ids[j] == Head(row)
    ensures Mass(Exps(exp, row), ids) > 0.0
  {
    ExpsNonNegative(exp, row);
    hide Exps, Exponential;
    var w := Exps(exp, row);
    MassStep(w, ids, j);
    MassGrows(w, ids, 0, j);
    MassGrows(w, ids, j + 1, |ids|);
    assert ids[..|ids|] == ids && ids[..0] == [];
  }

  lemma RoutedMass(exp: real -> real, row: seq<Float>, k: nat, ids: seq<nat>, weights: seq<real>)
    requires Exponential(exp) && k > 0 && Routed(exp, row, k, ids, weights)
    ensures Mass(Exps(exp, row), ids) > 0.0
  {
    MassPositive(exp, row, ids, 0);
  }

  /** All experts together, in the order of their indices. */
  lemma TotalMass(exp: real -> real, row: seq<Float>)
    requires Exponential(exp) && row != []
    ensures Mass(Exps(exp, row), Iota(|row|)) > 0.0
  {
    MassPositive(exp, row, Iota(|row|), Head(row));
  }

  /** A weight has the sign of its product, and is determined by it. */
  lemma Factor(w: real, v: real, z: real, e: real)
    requires z > 0.0 && Times(w, z) == e
    ensures (w > 0.0 <==> e > 0.0) && (w >= 0.0 <==> e >= 0.0)
    ensures Times(v, z) == e ==> v == w
    ensures Times(v, z) <= e ==> v <= w
  {
    assert w == e / z && v == Times(v, z) / z;
    if Times(v, z) <= e {
      QuotientMono(Times(v, z), e, z);
    }
  }

  lemma QuotientMono(a: real, b: real, z: real)
    requires a <= b && z > 0.0
    ensures a / z <= b / z
  {
    assert b / z - a / z == (b - a) / z;
  }

  lemma {:induction false} SumScaled(e: seq<real>, ids: seq<nat>, weights: seq<real>, z: real)
    requires Indices(e, ids) && |weights| == |ids|
    requires forall i | 0 <= i < |ids| :: Times(weights[i], z) == e[ids[i]]
    ensures Times(Sum(weights), z) == Mass(e, ids)
  {
    hide Times;
    if ids == [] {
      TimesZero(z);
    } else {
      var n := |ids| - 1;
      SumScaled(e, ids[..n], weights[..n], z);
      TimesAdd(Sum(weights[..n]), weights[n], z);
    }
  }

  /** The weights of a token sum to one. */
  lemma WeightsSumToOne(exp: real -> real, row: seq<Float>, k: nat, ids: seq<nat>, weights: seq<real>)
    requires Exponential(exp) && k > 0 && Routed(exp, row, k, ids, weights)
    ensures Sum(weights) == 1.0
  {
    hide Exponential, Exps, Mass, Sum, StableSort, Keys;
    var z := Mass(Exps(exp, row), ids);
    RoutedMass(exp, row, k, ids, weights);
    SumScaled(Exps(exp, row), ids, weights, z);
    TimesZero(z);
    Factor(1.0, Sum(weights), z, z);
  }

  lemma ExpsFollow(exp: real -> real, row: seq<Float>)
    requires Exponential(exp) && Rising(exp) && AllValid(row)
    ensures Follows(Exps(exp, row), Keys(row))
  {
    forall a: nat, b: nat | a < |row| && b < |row| && Precedes(Keys(row), a, b)
      ensures ExpAt(exp, row, a) >= ExpAt(exp, row, b)
    {
      ExpAtFollows(exp, row, a, b);
    }
  }

  lemma ExpAtFollows(exp: real -> real, row: seq<Float>, a: nat, b: nat)
    requires Exponential(exp) && Rising(exp) && AllValid(row) && a < |row| && b < |row| && Precedes(Keys(row), a, b)
    ensures ExpAt(exp, row, a) >= ExpAt(exp, row, b)
    ensures row[Head(row)].Finite? ==> (ExpAt(exp, row, a) == ExpAt(exp, row, b) <==> row[a] == row[b])
  {
    KeysPrecede(row, a, b);
    if row[a].Finite? {
      ExpPositive(exp, row[a].value);
    }
    if b == Head(row) {
      HeadPrecedes(row, a);
    }
  }

  /** Nothing precedes the first expert. */
  lemma HeadPrecedes(row: seq<Float>, a: nat)
    requires a < |row|
    ensures !Precedes(Keys(row), a, Head(row))
  {
    var ids := StableSort(Keys(row));
    RankingCovers(Keys(row), ids, a);
    var r :| 0 <= r < |ids| && ids[r] == a;
    if r > 0 {
      assert Precedes(Keys(row), ids[0], ids[r]);
    }
  }

  /** Weights never increase; unless all logits are minus infinity, equal weights mean equal logits. */
  lemma WeightsDescend(exp: real -> real, row: seq<Float>, k: nat, ids: seq<nat>, weights: seq<real>, i: nat, j: nat)
    requires Exponential(exp) && Rising(exp) && Routed(exp, row, k, ids, weights) && i < j < k
    ensures weights[i] >= weights[j] >= 0.0
    ensures row[Head(row)].Finite? ==> (weights[i] == weights[j] <==> row[ids[i]] == row[ids[j]])
    ensures row[Head(row)].Finite? ==> (weights[j] > 0.0 <==> row[ids[j]].Finite?)
  {
    var e, z := Exps(exp, row), Mass(Exps(exp, row), ids);
    RoutedMass(exp, row, k, ids, weights);
    ExpsNonNegative(exp, row);
    assert Precedes(Keys(row), ids[i], ids[j]) by {
      assert Ordered(Keys(row), StableSort(Keys(row)));
    }
    ExpAtFollows(exp, row, ids[i], ids[j]);
    if row[ids[j]].Finite? {
      ExpPositive(exp, row[ids[j]].value);
    }
    hide Times, Exponential, Mass, StableSort, Keys, Rising;
    Factor(weights[j], weights[i], z, e[ids[j]]);
    Factor(weights[i], weights[j], z, e[ids[i]]);
  }

  /** The share of every expert in a softmax over all of them. */
  function SoftmaxOver(exp: real -> real, row: seq<Float>, c: nat): real
    requires Exponential(exp) && c < |row|
  {
    TotalMass(exp, row);
    Exps(exp, row)[c] / Mass(Exps(exp, row), Iota(|row|))
  }

  function SharesOf(exp: real -> real, row: seq<Float>): (p: seq<real>)
    requires Exponential(exp)
    ensures |p| == |row|
  {
    seq(|row|, c requires 0 <= c < |row| => SoftmaxOver(exp, row, c))
  }

  lemma SoftmaxScaled(exp: real -> real, row: seq<Float>, c: nat)
    requires Exponential(exp) && c < |row|
    ensures Times(SoftmaxOver(exp, row, c), Mass(Exps(exp, row), Iota(|row|))) == Exps(exp, row)[c]
  {
    TotalMass(exp, row);
    hide Exps, Mass;
    Divided(SoftmaxOver(exp, row, c), Exps(exp, row)[c], Mass(Exps(exp, row), Iota(|row|)));
  }

  lemma {:induction false} MassScaled(exp: real -> real, row: seq<Float>, ids: seq<nat>)
    requires Exponential(exp) && Indices(Exps(exp, row), ids)
    ensures Times(Mass(SharesOf(exp, row), ids), Mass(Exps(exp, row), Iota(|row|))) == Mass(Exps(exp, row), ids)
  {
    hide Times, Exponential, SoftmaxOver, Exps;
    var z := Mass(Exps(exp, row), Iota(|row|));
    if ids == [] {
      TimesZero(z);
    } else {
      var n := |ids| - 1;
      MassScaled(exp, row, ids[..n]);
      SoftmaxScaled(exp, row, ids[n]);
      TimesAdd(Mass(SharesOf(exp, row), ids[..n]), SharesOf(exp, row)[ids[n]], z);
    }
  }

  /** Softmax over the selected experts is softmax over all of them, renormalized. */
  lemma RenormalizedSoftmax(exp: real -> real, row: seq<Float>, k: nat, ids: seq<nat>, weights: seq<real>, i: nat)
    requires Exponential(exp) && Routed(exp, row, k, ids, weights) && i < k
    ensures Times(weights[i], Mass(SharesOf(exp, row), ids)) == SoftmaxOver(exp, row, ids[i])
  {
    hide Times, Exponential, SoftmaxOver, SharesOf, Exps, Mass, StableSort, Keys;
    var z, p := Mass(Exps(exp, row), Iota(|row|)), Mass(SharesOf(exp, row), ids);
    TotalMass(exp, row);
    MassScaled(exp, row, ids);
    SoftmaxScaled(exp, row, ids[i]);
    TimesAssoc(weights[i], p, z);
    Factor(SoftmaxOver(exp, row, ids[i]), Times(weights[i], p), z, Exps(exp, row)[ids[i]]);
  }

  /** No other k experts hold a larger share of the softmax over all. */
  lemma RoutedWeighMost(exp: real -> real, row: seq<Float>, k: nat, ids: seq<nat>, weights: seq<real>, others: seq<nat>)
    requires Exponential(exp) && Rising(exp) && Routed(exp, row, k, ids, weights)
    requires Indices(Exps(exp, row), others) && Distinct(others) && |others| == k
    ensures Mass(Exps(exp, row), others) <= Mass(Exps(exp, row), ids)
  {
    ExpsFollow(exp, row);
    BestTokensWeighMost(Keys(row), Exps(exp, row), StableSort(Keys(row)), others);
  }

  /** Kernel and baseline cannot differ. */
  lemma RoutedUnique(exp: real -> real, row: seq<Float>, k: nat, ids: seq<nat>, weights: seq<real>, ids': seq<nat>,
                     weights': seq<real>)
    requires Exponential(exp) && Routed(exp, row, k, ids, weights) && Routed(exp, row, k, ids', weights')
    ensures ids == ids' && weights == weights'
  {
    hide Times, Exponential, Exps, Mass, StableSort, Keys;
    if k > 0 {
      RoutedMass(exp, row, k, ids, weights);
    }
    forall i | 0 <= i < k ensures weights[i] == weights'[i] {
      Factor(weights[i], weights'[i], Mass(Exps(exp, row), ids), Exps(exp, row)[ids[i]]);
    }
  }

  // ---------- adding a constant to every logit ----------

  function Raised(l: Float, s: real): Float {
    if l.Finite? then Finite(l.value + s) else l
  }

  ghost predicate ShiftedBy(row: seq<Float>, shifted: seq<Float>, s: real) {
    |shifted| == |row| && forall c | 0 <= c < |row| :: shifted[c] == Raised(row[c], s)
  }

  lemma ShiftKeepsSort(row: seq<Float>, shifted: seq<Float>, s: real)
    requires AllValid(row) && ShiftedBy(row, shifted, s)
    ensures AllValid(shifted) && StableSort(Keys(shifted)) == StableSort(Keys(row))
  {
    var a, b := StableSort(Keys(row)), StableSort(Keys(shifted));
    forall i, j | 0 <= i < j < |a| ensures Precedes(Keys(shifted), a[i], a[j]) {
      KeysPrecede(row, a[i], a[j]);
      KeysPrecede(shifted, a[i], a[j]);
    }
    assert IsRanking(Keys(shifted), a);
    forall c: nat | c < |shifted| ensures c in a {
      RankingCovers(Keys(shifted), a, c);
    }
    PrefixOfRanking(Keys(shifted), a, b);
  }

  /** What the exponentials of a row are multiplied with when it is shifted. */
  function ShiftFactor(exp: real -> real, row: seq<Float>, s: real): real
    requires row != []
  {
    if row[Head(row)].Finite? then exp(s) else 1.0
  }

  lemma ShiftScalesExp(exp: real -> real, row: seq<Float>, shifted: seq<Float>, s: real, c: nat)
    requires Exponential(exp) && ShiftedBy(row, shifted, s) && c < |row| && Head(shifted) == Head(row)
    ensures Exps(exp, shifted)[c] == Times(Exps(exp, row)[c], ShiftFactor(exp, row, s))
  {
    if row[Head(row)].Finite? && row[c].Finite? {
      assert Times(exp(row[c].value), exp(s)) == exp(row[c].value + s);
    }
  }

  lemma {:induction false} ShiftScalesMass(exp: real -> real, row: seq<Float>, shifted: seq<Float>, s: real, ids: seq<nat>)
    requires Exponential(exp) && ShiftedBy(row, shifted, s) && row != [] && Head(shifted) == Head(row)
    requires Indices(Exps(exp, row), ids)
    ensures Indices(Exps(exp, shifted), ids)
    ensures Mass(Exps(exp, shifted), ids) == Times(Mass(Exps(exp, row), ids), ShiftFactor(exp, row, s))
  {
    hide Times, Exps, ShiftFactor, Exponential, Head;
    var f := ShiftFactor(exp, row, s);
    if ids == [] {
      TimesZero(f);
    } else {
      var n := |ids| - 1;
      ShiftScalesMass(exp, row, shifted, s, ids[..n]);
      ShiftScalesExp(exp, row, shifted, s, ids[n]);
      TimesAdd(Mass(Exps(exp, row), ids[..n]), Exps(exp, row)[ids[n]], f);
    }
  }

  /** Adding a constant to every logit of a token changes neither its experts nor their weights. */
  lemma RoutingShiftInvariant(exp: real -> real, row: seq<Float>, shifted: seq<Float>, s: real, k: nat, ids: seq<nat>,
                              weights: seq<real>)
    requires Exponential(exp) && ShiftedBy(row, shifted, s) && Routed(exp, row, k, ids, weights)
    ensures Routed(exp, shifted, k, ids, weights)
  {
    ShiftKeepsSort(row, shifted, s);
    hide Times, StableSort, Exps, Mass, Keys, Exponential;
    if k > 0 {
      assert Head(shifted) == Head(row);
      ShiftScalesMass(exp, row, shifted, s, ids);
      forall i | 0 <= i < k ensures Times(weights[i], Mass(Exps(exp, shifted), ids)) == Exps(exp, shifted)[ids[i]] {
        ShiftScalesExp(exp, row, shifted, s, ids[i]);
        TimesAssoc(weights[i], Mass(Exps(exp, row), ids), ShiftFactor(exp, row, s));
      }
    }
  }

  // ---------- one token ----------

  /** The unnormalized weight that the loops compute. */
  function RawWeight(exp: real -> real, l: Float, rank: nat, maximum: Float): real {
    if maximum.Finite? then
      if l.Finite? then exp(l.value - maximum.value) else 0.0
    else if rank == 0 then 1.0
    else 0.0
  }

  /** What undoes the shift by the maximum. */
  function Unshift(exp: real -> real, maximum: Float): real {
    if maximum.Finite? then exp(maximum.value) else 1.0
  }

  /** A list of experts that starts with the first one and repeats none. */
  predicate Candidates(row: seq<Float>, sorted: seq<nat>) {
    && row != [] && sorted != [] && sorted[0] == Head(row)
    && (forall i | 0 <= i < |sorted| :: sorted[i] < |row|) && Distinct(sorted)
  }

  lemma RawUnshifted(exp: real -> real, row: seq<Float>, sorted: seq<nat>, rank: nat)
    requires Exponential(exp) && Candidates(row, sorted) && rank < |sorted|
    ensures var m := row[sorted[0]];
      Times(RawWeight(exp, row[sorted[rank]], rank, m), Unshift(exp, m)) == Exps(exp, row)[sorted[rank]]
  {
    var l, m := row[sorted[rank]], row[sorted[0]];
    if l.Finite? && m.Finite? {
      ExpShift(exp, l.value, m.value);
    }
  }

  /** The first of the two inner loops: ids and unnormalized weights, shifted by the maximum. */
  method Exponentiate(exp: real -> real, row: seq<Float>, sorted: seq<nat>, k: nat, ids: array<nat>, weights: array<real>,
                      at: nat)
    returns (sum: real)
    requires Exponential(exp) && Candidates(row, sorted) && 1 <= k <= |sorted|
    requires at + k <= ids.Length && at + k <= weights.Length
    modifies ids, weights
    ensures Framed(old(ids[..]), ids[..], at, k) && Framed(old(weights[..]), weights[..], at, k)
    ensures Raw(exp, row, sorted[..k], row[sorted[0]], ids[at..at + k], weights[at..at + k], sum)
  {
    hide Exponential, Raw;
    assert sorted[0] < |row|;
    hide Candidates;
    var maximum := row[sorted[0]];
    ghost var ids0, weights0 := ids[..], weights[..];
    sum := 0.0;
    RawStart(exp, row, maximum, sorted, ids[..], weights[..], at);
    assert Framed(ids0, ids[..], at, k) && Framed(weights0, weights[..], at, k);
    assert ids[..][at..at + 0] == ids[at..at + 0] && weights[..][at..at + 0] == weights[at..at + 0];
    hide Framed;
    for rank := 0 to k
      invariant Framed(ids0, ids[..], at, k) && Framed(weights0, weights[..], at, k)
      invariant Raw(exp, row, sorted[..rank], maximum, ids[at..at + rank], weights[at..at + rank], sum)
    {
      sum := PutExpert(exp, row, sorted, k, rank, maximum, ids0, weights0, ids, weights, at, sum);
    }
  }

  method PutExpert(exp: real -> real, row: seq<Float>, sorted: seq<nat>, ghost k: nat, rank: nat, maximum: Float,
                   ghost ids0: seq<nat>, ghost weights0: seq<real>, ids: array<nat>, weights: array<real>, at: nat,
                   sum: real)
    returns (newSum: real)
    requires Exponential(exp) && Candidates(row, sorted) && rank < |sorted| && rank < k && maximum == row[sorted[0]]
    requires Framed(ids0, ids[..], at, k) && Framed(weights0, weights[..], at, k)
    requires at + k <= ids.Length && at + k <= weights.Length
    requires Raw(exp, row, sorted[..rank], maximum, ids[at..at + rank], weights[at..at + rank], sum)
    modifies ids, weights
    ensures Framed(ids0, ids[..], at, k) && Framed(weights0, weights[..], at, k)
    ensures Raw(exp, row, sorted[..rank + 1], maximum, ids[at..at + (rank + 1)], weights[at..at + (rank + 1)], newSum)
  {
    assert sorted[rank] < |row|;
    hide *;
    var weight := RawWeight(exp, row[sorted[rank]], rank, maximum);
    ghost var ids1, weights1 := ids[..], weights[..];
    RawStep(exp, row, sorted, rank, maximum, ids1, weights1, at, sum);
    FramedWrite(ids0, ids1, at, k, rank, sorted[rank]);
    FramedWrite(weights0, weights1, at, k, rank, weight);
    ids[at + rank] := sorted[rank];
    weights[at + rank] := weight;
    assert ids[..] == ids1[at + rank := sorted[rank]] && weights[..] == weights1[at + rank := weight];
    newSum := sum + weight;
  }

  lemma FramedWrite<T>(before: seq<T>, middle: seq<T>, at: nat, n: nat, i: nat, x: T)
    requires Framed(before, middle, at, n) && i < n
    ensures at + i < |middle| && Framed(before, middle[at + i := x], at, n)
  {
  }

  /** Unshifted, weights and sum are the plain exponentials and their total. */
  ghost predicate Raw(exp: real -> real, row: seq<Float>, chosen: seq<nat>, maximum: Float, ids: seq<nat>,
                      weights: seq<real>, sum: real)
  {
    && Indices(Exps(exp, row), chosen) && ids == chosen && |weights| == |ids|
    && (forall i | 0 <= i < |ids| :: Times(weights[i], Unshift(exp, maximum)) == Exps(exp, row)[ids[i]])
    && Times(sum, Unshift(exp, maximum)) == Mass(Exps(exp, row), chosen)
  }

  lemma RawStart(exp: real -> real, row: seq<Float>, maximum: Float, sorted: seq<nat>, ids: seq<nat>,
                 weights: seq<real>, at: nat)
    requires at <= |ids| && at <= |weights|
    ensures Raw(exp, row, sorted[..0], maximum, ids[at..at + 0], weights[at..at + 0], 0.0)
  {
    TimesZero(Unshift(exp, maximum));
  }

  lemma RawStep(exp: real -> real, row: seq<Float>, sorted: seq<nat>, rank: nat, maximum: Float, ids: seq<nat>,
                weights: seq<real>, at: nat, sum: real)
    requires Exponential(exp) && Candidates(row, sorted) && rank < |sorted| && maximum == row[sorted[0]]
    requires at + rank < |ids| && at + rank < |weights|
    requires Raw(exp, row, sorted[..rank], maximum, ids[at..at + rank], weights[at..at + rank], sum)
    ensures var w := RawWeight(exp, row[sorted[rank]], rank, maximum);
      var ids', weights' := ids[at + rank := sorted[rank]], weights[at + rank := w];
      Raw(exp, row, sorted[..rank + 1], maximum, ids'[at..at + (rank + 1)], weights'[at..at + (rank + 1)], sum + w)
  {
    var w := RawWeight(exp, row[sorted[rank]], rank, maximum);
    RawUnshifted(exp, row, sorted, rank);
    RawSnoc(exp, row, sorted[..rank], sorted[rank], maximum, ids[at..at + rank], weights[at..at + rank], sum, w);
    assert sorted[..rank + 1] == sorted[..rank] + [sorted[rank]];
    assert ids[at + rank := sorted[rank]][at..at + (rank + 1)] == ids[at..at + rank] + [sorted[rank]];
    assert weights[at + rank := w][at..at + (rank + 1)] == weights[at..at + rank] + [w];
    hide *;
  }

  lemma RawSnoc(exp: real -> real, row: seq<Float>, chosen: seq<nat>, c: nat, maximum: Float, ids: seq<nat>,
                weights: seq<real>, sum: real, w: real)
    requires c < |row| && Raw(exp, row, chosen, maximum, ids, weights, sum)
    requires Times(w, Unshift(exp, maximum)) == Exps(exp, row)[c]
    ensures Raw(exp, row, chosen + [c], maximum, ids + [c], weights + [w], sum + w)
  {
    hide Times, Exps, Unshift;
    MassSnoc(Exps(exp, row), chosen, c);
    TimesAdd(sum, w, Unshift(exp, maximum));
  }

  /** Dividing by the sum, or multiplying by its inverse, removes the shift. */
  lemma Normalized(w: real, sum: real, m: real, e: real, z: real)
    requires Times(w, m) == e && Times(sum, m) == z && z > 0.0 && m > 0.0
    ensures sum > 0.0 && Times(Times(w, 1.0 / sum), z) == e
  {
    Factor(sum, 0.0, m, z);
    DivideIsTimes(w, sum);
    assert Times(w / sum, sum) == w;
    hide Times;
    TimesAssoc(w / sum, sum, m);
  }

  lemma DivideIsTimes(w: real, sum: real)
    requires sum > 0.0
    ensures w / sum == Times(w, 1.0 / sum)
  {
  }

  lemma RawRouted(exp: real -> real, row: seq<Float>, sorted: seq<nat>, k: nat, ids: seq<nat>, raw: seq<real>, sum: real)
    requires Exponential(exp) && AllValid(row) && Candidates(row, sorted) && 1 <= k <= |sorted| && k <= |row|
    requires sorted[..k] == StableSort(Keys(row))[..k]
    requires Raw(exp, row, sorted[..k], row[sorted[0]], ids, raw, sum)
    ensures sum > 0.0 && Routed(exp, row, k, ids, Scaled(raw, 1.0 / sum))
  {
    var m, z := Unshift(exp, row[sorted[0]]), Mass(Exps(exp, row), ids);
    MassPositive(exp, row, ids, 0);
    if row[sorted[0]].Finite? {
      ExpPositive(exp, row[sorted[0]].value);
    }
    hide Times, Exponential, StableSort, Mass, Exps, Keys, Candidates;
    Normalized(raw[0], sum, m, Exps(exp, row)[ids[0]], z);
    forall i | 0 <= i < k ensures Times(Times(raw[i], 1.0 / sum), z) == Exps(exp, row)[ids[i]] {
      Normalized(raw[i], sum, m, Exps(exp, row)[ids[i]], z);
    }
  }

  method DivideRow(weights: array<real>, at: nat, k: nat, sum: real)
    requires sum > 0.0 && at + k <= weights.Length
    modifies weights
    ensures Framed(old(weights[..]), weights[..], at, k)
    ensures weights[at..at + k] == Scaled(old(weights[at..at + k]), 1.0 / sum)
  {
    hide Times;
    for rank := 0 to k
      invariant forall p | at <= p < at + rank :: weights[p] == Times(old(weights[p]), 1.0 / sum)
      invariant forall p | 0 <= p < weights.Length && !(at <= p < at + rank) :: weights[p] == old(weights[p])
    {
      DivideIsTimes(weights[at + rank], sum);
      weights[at + rank] := weights[at + rank] / sum;
    }
  }

  method MultiplyRow(weights: array<real>, at: nat, k: nat, inverse: real)
    requires at + k <= weights.Length
    modifies weights
    ensures Framed(old(weights[..]), weights[..], at, k)
    ensures weights[at..at + k] == Scaled(old(weights[at..at + k]), inverse)
  {
    hide Times;
    for rank := 0 to k
      invariant forall p | at <= p < at + rank :: weights[p] == Times(old(weights[p]), inverse)
      invariant forall p | 0 <= p < weights.Length && !(at <= p < at + rank) :: weights[p] == old(weights[p])
    {
      var scaled := Times(weights[at + rank], inverse);
      weights[at + rank] := scaled;
    }
  }

  /** The position of the best of ids[from..]. */
  method BestFrom(row: seq<real>, ids: seq<nat>, from: nat) returns (best: nat)
    requires Indices(row, ids) && from < |ids|
    ensures from <= best < |ids|
    ensures forall j | from <= j < |ids| :: ids[j] == ids[best] || Precedes(row, ids[best], ids[j])
  {
    best := from;
    for j := from + 1 to |ids|
      invariant from <= best < j
      invariant forall i | from <= i < j :: ids[i] == ids[best] || Precedes(row, ids[best], ids[i])
    {
      if Precedes(row, ids[j], ids[best]) {
        best := j;
      }
    }
  }

  /** std::partial_sort over iota: the first k are sorted, and none of the others precedes them. */
  method PartialSort(row: seq<real>, k: nat) returns (ids: seq<nat>)
    requires k <= |row|
    ensures |ids| == |row| && Selecting(row, ids[..k], ids[k..])
  {
    ids := Iota(|row|);
    IotaOnce(|row|);
    assert ids[..0] == [] && ids[0..] == ids && multiset(ids[..0]) + multiset(ids[0..]) == multiset(ids);
    for r := 0 to k
      invariant |ids| == |row| && Selecting(row, ids[..r], ids[r..])
    {
      assert ids == ids[..r] + ids[r..];
      forall i | 0 <= i < |ids| ensures ids[i] < |row| {
        if i >= r {
          assert ids[i] == ids[r..][i - r];
        } else {
          assert ids[i] == ids[..r][i];
        }
      }
      var best := BestFrom(row, ids, r);
      SelectBest(row, ids, r, best);
      ids := ids[best := ids[r]][r := ids[best]];
    }
  }

  /** Moving the best of the rest to its front, and then into the selection. */
  lemma SelectBest(row: seq<real>, ids: seq<nat>, r: nat, best: nat)
    requires r <= best < |ids| && Indices(row, ids) && Selecting(row, ids[..r], ids[r..])
    requires forall j | r <= j < |ids| :: ids[j] == ids[best] || Precedes(row, ids[best], ids[j])
    ensures var next := ids[best := ids[r]][r := ids[best]]; Selecting(row, next[..r + 1], next[r + 1..])
  {
    hide Selecting;
    var next, front := ids[best := ids[r]][r := ids[best]], Exchanged(ids[r..], best - r);
    SwappedParts(ids, r, best);
    SwapKeeps(ids[r..], best - r);
    SelectingPermuted(row, ids[..r], ids[r..], front);
    SelectFront(row, ids[..r], front);
  }

  function Exchanged(s: seq<nat>, j: nat): seq<nat>
    requires j < |s|
  {
    s[j := s[0]][0 := s[j]]
  }

  lemma SwappedParts(ids: seq<nat>, r: nat, best: nat)
    requires r <= best < |ids|
    ensures var next, front := ids[best := ids[r]][r := ids[best]], Exchanged(ids[r..], best - r);
      && next[..r + 1] == ids[..r] + [front[0]] && next[r + 1..] == front[1..] && front[0] == ids[best]
      && forall j | 0 <= j < |front| :: exists i :: r <= i < |ids| && front[j] == ids[i]
  {
    var next, front := ids[best := ids[r]][r := ids[best]], Exchanged(ids[r..], best - r);
    assert next[r..] == front && next[..r] == ids[..r];
    forall j | 0 <= j < |front| ensures exists i :: r <= i < |ids| && front[j] == ids[i] {
      var i := if j == 0 then best else if j == best - r then r else r + j;
      assert front[j] == ids[i];
    }
  }

  lemma SelectFront(row: seq<real>, selected: seq<nat>, rest: seq<nat>)
    requires rest != [] && Selecting(row, selected, rest)
    requires forall j | 0 <= j < |rest| :: rest[j] == rest[0] || Precedes(row, rest[0], rest[j])
    ensures Selecting(row, selected + [rest[0]], rest[1..])
  {
    assert rest == [rest[0]] + rest[1..];
    assert multiset(selected + [rest[0]]) + multiset(rest[1..]) == multiset(selected) + multiset(rest);
    forall j | 0 < j < |rest| ensures Precedes(row, rest[0], rest[j]) {
      RestOnce(row, selected, rest, j);
    }
  }

  lemma SwapKeeps(s: seq<nat>, j: nat)
    requires j < |s|
    ensures multiset(Exchanged(s, j)) == multiset(s)
  {
  }

  /** The head of what is left is not left again. */
  lemma RestOnce(row: seq<real>, selected: seq<nat>, rest: seq<nat>, j: nat)
    requires Selecting(row, selected, rest) && 0 < j < |rest|
    ensures rest[j] != rest[0]
  {
    assert (multiset(selected) + multiset(rest))[rest[0]] <= 1;
    RootOnce(rest, j);
  }

  /** One token of the full-sort baseline, which needs a finite logit. */
  method RouteBySort(exp: real -> real, row: seq<Float>, k: nat, ids: array<nat>, weights: array<real>, at: nat)
    requires Exponential(exp) && AllValid(row) && 1 <= k <= |row| && at + k <= ids.Length && at + k <= weights.Length
    requires exists i :: 0 <= i < |row| && row[i].Finite?
    modifies ids, weights
    ensures Framed(old(ids[..]), ids[..], at, k) && Framed(old(weights[..]), weights[..], at, k)
    ensures Routed(exp, row, k, ids[at..at + k], weights[at..at + k])
  {
    var sorted := StableSort(Keys(row));
    SortedCandidates(row);
    hide Exponential, Routed, Raw, Framed, StableSort, Ordered, Candidates, Keys, AllValid;
    ghost var before := weights[..];
    var sum := Exponentiate(exp, row, sorted, k, ids, weights, at);
    ghost var raw, middle := weights[at..at + k], weights[..];
    RawRouted(exp, row, sorted, k, ids[at..at + k], raw, sum);
    DivideRow(weights, at, k, sum);
    FramedTwice(before, middle, weights[..], at, k);
  }

  lemma SortedCandidates(row: seq<Float>)
    requires row != []
    ensures Candidates(row, StableSort(Keys(row)))
  {
  }

  /** One token of the kernel: the logits are checked, then partial sort and the inverse of the sum. */
  method RouteByPartialSort(exp: real -> real, row: seq<Float>, k: nat, ids: array<nat>, weights: array<real>, at: nat)
    returns (valid: bool)
    requires Exponential(exp) && 1 <= k <= |row| && at + k <= ids.Length && at + k <= weights.Length
    modifies ids, weights
    ensures valid <==> AllValid(row)
    ensures !valid ==> ids[..] == old(ids[..]) && weights[..] == old(weights[..])
    ensures Framed(old(ids[..]), ids[..], at, k) && Framed(old(weights[..]), weights[..], at, k)
    ensures valid ==> Routed(exp, row, k, ids[at..at + k], weights[at..at + k])
  {
    valid := CheckLogits(row);
    if !valid {
      return;
    }
    var sorted := PartialSort(Keys(row), k);
    PartiallySorted(row, sorted, k);
    hide Exponential, Routed, Raw, Framed, StableSort, Selecting, Candidates, Keys, AllValid;
    ghost var before := weights[..];
    var sum := Exponentiate(exp, row, sorted, k, ids, weights, at);
    ghost var raw, middle := weights[at..at + k], weights[..];
    RawRouted(exp, row, sorted, k, ids[at..at + k], raw, sum);
    MultiplyRow(weights, at, k, 1.0 / sum);
    FramedTwice(before, middle, weights[..], at, k);
  }

  method CheckLogits(row: seq<Float>) returns (valid: bool)
    ensures valid <==> AllValid(row)
  {
    for expert := 0 to |row|
      invariant AllValid(row[..expert])
    {
      if row[expert].NaN? || row[expert].PlusInfinity? {
        return false;
      }
    }
    assert row[..|row|] == row;
    return true;
  }

  lemma PartiallySorted(row: seq<Float>, sorted: seq<nat>, k: nat)
    requires 1 <= k <= |row| == |sorted| && Selecting(Keys(row), sorted[..k], sorted[k..])
    ensures Candidates(row, sorted) && sorted[..k] == StableSort(Keys(row))[..k]
  {
    hide StableSort, Ordered, Precedes, Keys;
    SelectedIsPrefix(Keys(row), sorted[..k], sorted[k..]);
    assert sorted[0] == sorted[..k][0];
    assert sorted == sorted[..k] + sorted[k..];
    OnceDistinct(sorted, |row|);
  }

  lemma OnceDistinct(s: seq<nat>, n: nat)
    requires AllOnce(multiset(s), n)
    ensures Distinct(s) && forall i | 0 <= i < |s| :: s[i] < n
  {
    forall i | 0 <= i < |s| ensures s[i] < n {
      assert s[i] in multiset(s);
    }
    forall i, j | 0 <= i < j < |s| ensures s[i] != s[j] {
      assert s == s[..j] + [s[j]] + s[j + 1..] && s[..j][i] == s[i];
      assert multiset(s)[s[j]] <= 1;
    }
  }

  // ---------- all tokens ----------

  /** Tokens 0, ..., done - 1 are routed. */
  ghost predicate RowsRouted(exp: real -> real, logits: seq<Float>, tokens: nat, experts: nat, k: nat, ids: seq<nat>,
                             weights: seq<real>, done: nat)
  {
    && |logits| == Flat(tokens, experts, 0) && |ids| == |weights| == Flat(tokens, k, 0)
    && forall t: nat | t < tokens && t < done :: TokenRouted(exp, logits, experts, k, ids, weights, t)
  }

  ghost predicate TokenRouted(exp: real -> real, logits: seq<Float>, experts: nat, k: nat, ids: seq<nat>,
                              weights: seq<real>, t: nat)
  {
    && Flat(t, experts, 0) + experts <= |logits|
    && Flat(t, k, 0) + k <= |ids| && Flat(t, k, 0) + k <= |weights|
    && Routed(exp, RowOf(logits, t, experts), k, RowOf(ids, t, k), RowOf(weights, t, k))
  }

  lemma TokenWritten(exp: real -> real, logits: seq<Float>, tokens: nat, experts: nat, k: nat, ids: seq<nat>,
                     weights: seq<real>, ids': seq<nat>, weights': seq<real>, t: nat)
    requires RowsRouted(exp, logits, tokens, experts, k, ids, weights, t)
    requires Framed(ids, ids', Flat(t, k, 0), k) && Framed(weights, weights', Flat(t, k, 0), k)
    requires TokenRouted(exp, logits, experts, k, ids', weights', t)
    ensures RowsRouted(exp, logits, tokens, experts, k, ids', weights', t + 1)
  {
    FramedSize(ids, ids', Flat(t, k, 0), k);
    FramedSize(weights, weights', Flat(t, k, 0), k);
    hide Routed, Framed, Flat, RowOf;
    forall other: nat | other < tokens && other < t + 1
      ensures TokenRouted(exp, logits, experts, k, ids', weights', other)
    {
      if other < t {
        assert TokenRouted(exp, logits, experts, k, ids, weights, other);
        OtherRowKept(ids, ids', t, k, other);
        OtherRowKept(weights, weights', t, k, other);
      }
    }
  }

  /** Every token has a finite logit and no invalid one, as the benchmark's data have. */
  ghost predicate Routable(logits: seq<Float>, tokens: nat, experts: nat) {
    forall t: nat | t < tokens :: RowRoutable(logits, experts, t)
  }

  ghost predicate RowRoutable(logits: seq<Float>, experts: nat, t: nat) {
    && Flat(t, experts, 0) + experts <= |logits| && AllValid(RowOf(logits, t, experts))
    && exists i :: 0 <= i < experts && RowOf(logits, t, experts)[i].Finite?
  }

  /** The baseline. */
  method FullSortRouting(exp: real -> real, logits: seq<Float>, tokens: nat, experts: nat, k: nat, ids: array<nat>,
                         weights: array<real>)
    requires Exponential(exp) && 1 <= k <= experts && |logits| == Flat(tokens, experts, 0)
    requires Routable(logits, tokens, experts) && ids.Length == weights.Length == Flat(tokens, k, 0)
    modifies ids, weights
    ensures RowsRouted(exp, logits, tokens, experts, k, ids[..], weights[..], tokens)
  {
    hide Exponential, Routed, Framed, Flat, RowMajor, RowOf, AllValid;
    for token := 0 to tokens
      invariant RowsRouted(exp, logits, tokens, experts, k, ids[..], weights[..], token)
    {
      RowInside(token, tokens, experts);
      RowInside(token, tokens, k);
      assert RowRoutable(logits, experts, token);
      SortToken(exp, logits, tokens, experts, k, ids, weights, token);
    }
  }

  method SortToken(exp: real -> real, logits: seq<Float>, tokens: nat, experts: nat, k: nat, ids: array<nat>,
                   weights: array<real>, token: nat)
    requires Exponential(exp) && 1 <= k <= experts && token < tokens && RowRoutable(logits, experts, token)
    requires RowsRouted(exp, logits, tokens, experts, k, ids[..], weights[..], token)
    modifies ids, weights
    ensures RowsRouted(exp, logits, tokens, experts, k, ids[..], weights[..], token + 1)
  {
    RowInside(token, tokens, experts);
    RowInside(token, tokens, k);
    ghost var ids0, weights0 := ids[..], weights[..];
    var at := RowMajor(token, k, 0);
    hide Exponential, Routed, Framed, Flat, RowMajor, AllValid;
    RouteBySort(exp, RowOf(logits, token, experts), k, ids, weights, at);
    TokenWritten(exp, logits, tokens, experts, k, ids0, weights0, ids[..], weights[..], token);
  }

  /** The kernel's loop, once the sizes are checked; it stops at the first token with an invalid logit. */
  method RouteTokens(exp: real -> real, logits: seq<Float>, tokens: nat, experts: nat, k: nat, ids: array<nat>,
                     weights: array<real>)
    returns (done: nat)
    requires Exponential(exp) && 1 <= k <= experts && |logits| == Flat(tokens, experts, 0)
    requires ids.Length == weights.Length == Flat(tokens, k, 0)
    modifies ids, weights
    ensures done <= tokens && RowsRouted(exp, logits, tokens, experts, k, ids[..], weights[..], done)
    ensures done < tokens ==> TokenInvalid(logits, experts, done)
  {
    hide Exponential, TokenRouted, TokenInvalid, Routed, Framed, Flat, RowMajor;
    done := 0;
    while done < tokens
      invariant done <= tokens && RowsRouted(exp, logits, tokens, experts, k, ids[..], weights[..], done)
    {
      var valid := RouteToken(exp, logits, tokens, experts, k, ids, weights, done);
      if !valid {
        return;
      }
      done := done + 1;
    }
  }

  ghost predicate TokenInvalid(logits: seq<Float>, experts: nat, t: nat) {
    Flat(t, experts, 0) + experts <= |logits| && !AllValid(RowOf(logits, t, experts))
  }

  method RouteToken(exp: real -> real, logits: seq<Float>, tokens: nat, experts: nat, k: nat, ids: array<nat>,
                    weights: array<real>, token: nat)
    returns (valid: bool)
    requires Exponential(exp) && 1 <= k <= experts && token < tokens
    requires RowsRouted(exp, logits, tokens, experts, k, ids[..], weights[..], token)
    modifies ids, weights
    ensures !valid ==> TokenInvalid(logits, experts, token)
    ensures RowsRouted(exp, logits, tokens, experts, k, ids[..], weights[..], if valid then token + 1 else token)
  {
    RowInside(token, tokens, experts);
    RowInside(token, tokens, k);
    ghost var ids0, weights0 := ids[..], weights[..];
    var at := RowMajor(token, k, 0);
    hide Exponential, Routed, Framed, Flat, RowMajor, AllValid;
    valid := RouteByPartialSort(exp, RowOf(logits, token, experts), k, ids, weights, at);
    if valid {
      TokenWritten(exp, logits, tokens, experts, k, ids0, weights0, ids[..], weights[..], token);
    }
  }

  /** moe_route_topk */
  method RouteTopk(exp: real -> real, logits: seq<Float>, tokens: int, experts: int, k: int, ids: array<nat>,
                   weights: array<real>)
    returns (status: Status, ghost done: nat)
    requires Exponential(exp)
    requires tokens > 0 && experts > 0 ==> |logits| == Flat(tokens, experts, 0)
    requires tokens > 0 && k > 0 ==> ids.Length == weights.Length == Flat(tokens, k, 0)
    modifies ids, weights
    ensures status.InvalidShape? <==> tokens <= 0 || experts <= 0 || k <= 0 || k > experts
    ensures status.InvalidShape? ==> ids[..] == old(ids[..]) && weights[..] == old(weights[..])
    ensures !status.InvalidShape? ==> RowsRouted(exp, logits, tokens, experts, k, ids[..], weights[..], done)
    ensures status.Ok? ==> done == tokens
    ensures status.InvalidArgument? ==> done < tokens && TokenInvalid(logits, experts, done)
  {
    if tokens <= 0 || experts <= 0 || k <= 0 || k > experts {
      return InvalidShape, 0;
    }
    var routed := RouteTokens(exp, logits, tokens, experts, k, ids, weights);
    return if routed == tokens then Ok else InvalidArgument, routed;
  }

  /** Kernel and baseline route every token alike. */
  lemma RoutersAgree(exp: real -> real, logits: seq<Float>, tokens: nat, experts: nat, k: nat, ids: seq<nat>,
                     weights: seq<real>, ids': seq<nat>, weights': seq<real>, t: nat)
    requires Exponential(exp) && t < tokens
    requires RowsRouted(exp, logits, tokens, experts, k, ids, weights, tokens)
    requires RowsRouted(exp, logits, tokens, experts, k, ids', weights', tokens)
    ensures Flat(t, k, 0) + k <= |ids| == |ids'| && |weights| == |weights'| == |ids|
    ensures RowOf(ids, t, k) == RowOf(ids', t, k) && RowOf(weights, t, k) == RowOf(weights', t, k)
  {
    assert TokenRouted(exp, logits, experts, k, ids, weights, t);
    assert TokenRouted(exp, logits, experts, k, ids', weights', t);
    hide Exponential, Routed, Flat, RowOf;
    RoutedUnique(exp, RowOf(logits, t, experts), k, RowOf(ids, t, k), RowOf(weights, t, k), RowOf(ids', t, k),
                 RowOf(weights', t, k));
  }
}
