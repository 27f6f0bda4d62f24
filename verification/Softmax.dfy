/**
 Attention over a logical sequence: weights exp(score), an optional sink that takes a share but contributes no
 value, and masked positions. Nothing is shifted here; the shifted and the tiled computations are proved against it.
 */
module Softmax {
  import opened Options
  import opened Reals

  datatype Entry = Masked | Seen(score: real, value: seq<real>)

  /** exp: positive, and it turns sums into products. */
  ghost predicate Exponential(exp: real -> real) {
    && (forall x :: exp(x) > 0.0)
    && forall x, y :: Times(exp(x), exp(y)) == exp(x + y)
  }

  lemma ExpShift(exp: real -> real, score: real, maximum: real)
    requires Exponential(exp)
    ensures Times(exp(score - maximum), exp(maximum)) == exp(score)
    ensures exp(score - maximum) > 0.0 && exp(maximum) > 0.0 && exp(score) > 0.0
  {
    assert score - maximum + maximum == score;
  }

  lemma ExpPositive(exp: real -> real, x: real)
    requires Exponential(exp)
    ensures exp(x) > 0.0
  {
  }

  function WeightOf(exp: real -> real, e: Entry): real {
    if e.Masked? then 0.0 else exp(e.score)
  }

  function SinkWeight(exp: real -> real, sink: Option<real>): real {
    if sink.None? then 0.0 else exp(sink.value)
  }

  /** All values have `dim` components. */
  predicate Shaped(entries: seq<Entry>, dim: nat) {
    forall i | 0 <= i < |entries| && entries[i].Seen? :: |entries[i].value| == dim
  }

  function Total(exp: real -> real, entries: seq<Entry>): real {
    if entries == [] then 0.0
    else Total(exp, entries[..|entries| - 1]) + WeightOf(exp, entries[|entries| - 1])
  }

  function Contribution(exp: real -> real, e: Entry, d: nat): real
    requires e.Seen? ==> d < |e.value|
  {
    if e.Masked? then 0.0 else Times(exp(e.score), e.value[d])
  }

  function Weighted(exp: real -> real, entries: seq<Entry>, dim: nat, d: nat): real
    requires Shaped(entries, dim) && d < dim
  {
    if entries == [] then 0.0
    else
      var n := |entries| - 1;
      Weighted(exp, entries[..n], dim, d) + Contribution(exp, entries[n], d)
  }

  function Denominator(exp: real -> real, sink: Option<real>, entries: seq<Entry>): real {
    SinkWeight(exp, sink) + Total(exp, entries)
  }

  /** Component d of the attention output. */
  function Attend(exp: real -> real, sink: Option<real>, entries: seq<Entry>, dim: nat, d: nat): real
    requires Shaped(entries, dim) && d < dim
  {
    var z := Denominator(exp, sink, entries);
    if z > 0.0 then Weighted(exp, entries, dim, d) / z else 0.0
  }

  function AttendRow(exp: real -> real, sink: Option<real>, entries: seq<Entry>, dim: nat): (row: seq<real>)
    requires Shaped(entries, dim)
    ensures |row| == dim
  {
    seq(dim, d requires 0 <= d < dim => Attend(exp, sink, entries, dim, d))
  }

  lemma Divided(a: real, w: real, z: real)
    requires z > 0.0
    ensures Times(a, z) == w <==> a == w / z
  {
  }

  // ---------- what the output is like ----------

  lemma {:induction false} TotalNonNegative(exp: real -> real, entries: seq<Entry>)
    requires Exponential(exp)
    ensures Total(exp, entries) >= 0.0
    ensures Total(exp, entries) == 0.0 <==> forall i | 0 <= i < |entries| :: entries[i].Masked?
  {
    hide Exponential, Times;
    if entries != [] {
      var n := |entries| - 1;
      TotalNonNegative(exp, entries[..n]);
      WeightNonNegative(exp, entries[n]);
      assert forall i | 0 <= i < n :: entries[..n][i] == entries[i];
    }
  }

  lemma WeightNonNegative(exp: real -> real, e: Entry)
    requires Exponential(exp)
    ensures WeightOf(exp, e) >= 0.0 && (WeightOf(exp, e) == 0.0 <==> e.Masked?)
  {
  }

  lemma SinkNonNegative(exp: real -> real, sink: Option<real>)
    requires Exponential(exp)
    ensures SinkWeight(exp, sink) >= 0.0 && (SinkWeight(exp, sink) == 0.0 <==> sink.None?)
  {
    if sink.Some? {
      ExpPositive(exp, sink.value);
    }
  }

  lemma {:induction false} AllMasked(exp: real -> real, entries: seq<Entry>, dim: nat, d: nat)
    requires Shaped(entries, dim) && d < dim && forall i | 0 <= i < |entries| :: entries[i].Masked?
    ensures Total(exp, entries) == 0.0 && Weighted(exp, entries, dim, d) == 0.0
  {
    if entries != [] {
      AllMasked(exp, entries[..|entries| - 1], dim, d);
    }
  }

  /** A fully masked row outputs zero, with or without a sink. */
  lemma MaskedRowIsZero(exp: real -> real, sink: Option<real>, entries: seq<Entry>, dim: nat, d: nat)
    requires Exponential(exp) && Shaped(entries, dim) && d < dim
    requires forall i | 0 <= i < |entries| :: entries[i].Masked?
    ensures Attend(exp, sink, entries, dim, d) == 0.0
  {
    AllMasked(exp, entries, dim, d);
  }

  /** The share of one entry, and of a list of entries. */
  function Share(exp: real -> real, weight: real, z: real): real
    requires z > 0.0
  {
    weight / z
  }

  function Shares(exp: real -> real, entries: seq<Entry>, z: real): real
    requires z > 0.0
  {
    if entries == [] then 0.0
    else Shares(exp, entries[..|entries| - 1], z) + Share(exp, WeightOf(exp, entries[|entries| - 1]), z)
  }

  lemma {:induction false} SharesTotal(exp: real -> real, entries: seq<Entry>, z: real)
    requires z > 0.0
    ensures Times(Shares(exp, entries, z), z) == Total(exp, entries)
  {
    hide Times;
    if entries == [] {
      TimesZero(z);
    } else {
      var n := |entries| - 1;
      SharesTotal(exp, entries[..n], z);
      var w := WeightOf(exp, entries[n]);
      Divided(w / z, w, z);
      TimesAdd(Shares(exp, entries[..n], z), w / z, z);
    }
  }

  /** The token probabilities and the sink's share sum to one. */
  lemma SharesSumToOne(exp: real -> real, sink: Option<real>, entries: seq<Entry>)
    requires Exponential(exp) && (sink.Some? || exists i :: 0 <= i < |entries| && entries[i].Seen?)
    ensures var z := Denominator(exp, sink, entries);
      z > 0.0 && Shares(exp, entries, z) + Share(exp, SinkWeight(exp, sink), z) == 1.0
  {
    TotalNonNegative(exp, entries);
    SinkNonNegative(exp, sink);
    var z, s := Denominator(exp, sink, entries), SinkWeight(exp, sink);
    assert z > 0.0;
    SharesTotal(exp, entries, z);
    Divided(s / z, s, z);
    hide Times, Total, Shares, SinkWeight;
    TimesAdd(Shares(exp, entries, z), s / z, z);
    Cancelled(Shares(exp, entries, z) + s / z, z);
  }

  /** The sum of the values, each times its share. */
  function Mix(exp: real -> real, entries: seq<Entry>, z: real, dim: nat, d: nat): real
    requires Shaped(entries, dim) && d < dim && z > 0.0
  {
    if entries == [] then 0.0
    else
      var e := entries[|entries| - 1];
      Mix(exp, entries[..|entries| - 1], z, dim, d)
        + if e.Masked? then 0.0 else Times(Share(exp, WeightOf(exp, e), z), e.value[d])
  }

  lemma {:induction false} MixTotal(exp: real -> real, entries: seq<Entry>, z: real, dim: nat, d: nat)
    requires Shaped(entries, dim) && d < dim && z > 0.0
    ensures Times(Mix(exp, entries, z, dim, d), z) == Weighted(exp, entries, dim, d)
  {
    hide Times;
    if entries == [] {
      TimesZero(z);
    } else {
      var n := |entries| - 1;
      var e := entries[n];
      MixTotal(exp, entries[..n], z, dim, d);
      if e.Masked? {
        assert Mix(exp, entries, z, dim, d) == Mix(exp, entries[..n], z, dim, d);
      } else {
        var w, v := WeightOf(exp, e), e.value[d];
        TimesAdd(Mix(exp, entries[..n], z, dim, d), Times(w / z, v), z);
        TimesAssoc(w / z, v, z);
        TimesComm(v, z);
        TimesAssoc(w / z, z, v);
        Divided(w / z, w, z);
      }
    }
  }

  /** So every output component is the mix of the values. */
  lemma AttendIsMix(exp: real -> real, sink: Option<real>, entries: seq<Entry>, dim: nat, d: nat)
    requires Shaped(entries, dim) && d < dim && Denominator(exp, sink, entries) > 0.0
    ensures Attend(exp, sink, entries, dim, d) == Mix(exp, entries, Denominator(exp, sink, entries), dim, d)
  {
    hide Denominator, Mix, Weighted;
    var z := Denominator(exp, sink, entries);
    MixTotal(exp, entries, z, dim, d);
    Divided(Mix(exp, entries, z, dim, d), Weighted(exp, entries, dim, d), z);
  }

  lemma Cancelled(a: real, z: real)
    requires z > 0.0 && Times(a, z) == z
    ensures a == 1.0
  {
  }

  /** Every value component lies between lo and hi. */
  predicate Between(entries: seq<Entry>, dim: nat, d: nat, lo: real, hi: real)
    requires Shaped(entries, dim) && d < dim
  {
    forall i | 0 <= i < |entries| && entries[i].Seen? :: lo <= entries[i].value[d] <= hi
  }

  lemma {:induction false} WeightedBetween(exp: real -> real, entries: seq<Entry>, dim: nat, d: nat, lo: real, hi: real)
    requires Exponential(exp) && Shaped(entries, dim) && d < dim && Between(entries, dim, d, lo, hi)
    ensures Times(lo, Total(exp, entries)) <= Weighted(exp, entries, dim, d) <= Times(hi, Total(exp, entries))
  {
    hide Times, Exponential;
    if entries == [] {
      TimesZero(lo);
      TimesZero(hi);
    } else {
      var n := |entries| - 1;
      assert forall i | 0 <= i < n :: entries[..n][i] == entries[i];
      WeightedBetween(exp, entries[..n], dim, d, lo, hi);
      var t, w := Total(exp, entries[..n]), WeightOf(exp, entries[n]);
      WeightNonNegative(exp, entries[n]);
      OneBetween(exp, entries[n], d, lo, hi);
      SplitTimes(lo, t, w);
      SplitTimes(hi, t, w);
    }
  }

  lemma SplitTimes(a: real, x: real, y: real)
    ensures Times(a, x + y) == Times(a, x) + Times(a, y)
  {
  }

  lemma OneBetween(exp: real -> real, e: Entry, d: nat, lo: real, hi: real)
    requires Exponential(exp) && (e.Seen? ==> d < |e.value| && lo <= e.value[d] <= hi)
    ensures Times(lo, WeightOf(exp, e)) <= Contribution(exp, e, d) <= Times(hi, WeightOf(exp, e))
  {
    WeightNonNegative(exp, e);
    hide Exponential, Times;
    if e.Seen? {
      var w := exp(e.score);
      TimesMono(lo, e.value[d], w);
      TimesMono(e.value[d], hi, w);
      TimesComm(e.value[d], w);
    } else {
      TimesZero(lo);
      TimesZero(hi);
    }
  }

  /** With a sink the output is a mean that includes a zero: it stays between min(0, lo) and max(0, hi). */
  lemma AttendBounded(exp: real -> real, sink: Option<real>, entries: seq<Entry>, dim: nat, d: nat, lo: real, hi: real)
    requires Exponential(exp) && Shaped(entries, dim) && d < dim
    requires lo <= 0.0 <= hi && Between(entries, dim, d, lo, hi)
    ensures lo <= Attend(exp, sink, entries, dim, d) <= hi
  {
    var z := Denominator(exp, sink, entries);
    if z > 0.0 {
      TotalNonNegative(exp, entries);
      SinkNonNegative(exp, sink);
      WeightedBetween(exp, entries, dim, d, lo, hi);
      hide Exponential, Total, Weighted, SinkWeight;
      Quotient(Weighted(exp, entries, dim, d), Total(exp, entries), z, lo, hi);
    }
  }

  lemma Quotient(w: real, t: real, z: real, lo: real, hi: real)
    requires z > 0.0 && 0.0 <= t <= z && lo <= 0.0 <= hi && Times(lo, t) <= w <= Times(hi, t)
    ensures lo <= w / z <= hi
  {
    Divided(w / z, w, z);
    TimesMono(t, z, hi);
    TimesMono(t, z, -lo);
    TimesComm(t, hi);
    TimesComm(z, hi);
    NegativeSide(lo, t, z);
    hide Times;
    Ratio(w / z, lo, hi, z);
  }

  lemma NegativeSide(lo: real, t: real, z: real)
    requires Times(t, -lo) <= Times(z, -lo)
    ensures Times(lo, z) <= Times(lo, t)
  {
  }

  lemma Ratio(a: real, lo: real, hi: real, z: real)
    requires z > 0.0 && Times(lo, z) <= Times(a, z) <= Times(hi, z)
    ensures lo <= a <= hi
  {
    if a < lo {
      TimesAdd(lo, a, z);
      TimesNonNegative(lo - a, z);
    }
    if a > hi {
      TimesAdd(a, hi, z);
      TimesNonNegative(a - hi, z);
    }
  }

  // ---------- the shifted computation ----------

  /** The same sums with every score lowered by `maximum`. */
  function ShiftedTotal(exp: real -> real, entries: seq<Entry>, maximum: real): real {
    if entries == [] then 0.0
    else
      var n := |entries| - 1;
      ShiftedTotal(exp, entries[..n], maximum)
        + (if entries[n].Masked? then 0.0 else exp(entries[n].score - maximum))
  }

  lemma {:induction false} TotalShifted(exp: real -> real, entries: seq<Entry>, maximum: real)
    requires Exponential(exp)
    ensures Times(ShiftedTotal(exp, entries, maximum), exp(maximum)) == Total(exp, entries)
  {
    hide Exponential, Times;
    if entries == [] {
      TimesZero(exp(maximum));
    } else {
      var n := |entries| - 1;
      TotalShifted(exp, entries[..n], maximum);
      if entries[n].Seen? {
        ExpShift(exp, entries[n].score, maximum);
        TimesAdd(ShiftedTotal(exp, entries[..n], maximum), exp(entries[n].score - maximum), exp(maximum));
      }
    }
  }

  /** Component d accumulated with normalized, shifted probabilities, as the materialized reference does. */
  function Accumulated(exp: real -> real, entries: seq<Entry>, maximum: real, z: real, dim: nat, d: nat): real
    requires Shaped(entries, dim) && d < dim && z > 0.0
  {
    if entries == [] then 0.0
    else
      var n := |entries| - 1;
      Accumulated(exp, entries[..n], maximum, z, dim, d) + Term(exp, entries[n], maximum, z, d)
  }

  function Term(exp: real -> real, e: Entry, maximum: real, z: real, d: nat): real
    requires (e.Seen? ==> d < |e.value|) && z > 0.0
  {
    if e.Masked? then 0.0 else Times(Probability(exp, e.score, maximum, z), e.value[d])
  }

  function Probability(exp: real -> real, score: real, maximum: real, z: real): real
    requires z > 0.0
  {
    exp(score - maximum) / z
  }

  lemma TermScaled(exp: real -> real, e: Entry, maximum: real, z: real, d: nat)
    requires Exponential(exp) && (e.Seen? ==> d < |e.value|) && z > 0.0
    ensures Times(Term(exp, e, maximum, z, d), Times(z, exp(maximum))) == Contribution(exp, e, d)
  {
    hide Exponential, Times;
    if e.Seen? {
      var w, v, m := exp(e.score - maximum), e.value[d], exp(maximum);
      ExpShift(exp, e.score, maximum);
      Divided(w / z, w, z);
      Regroup(w / z, v, z, m);
    } else {
      TimesZero(Times(z, exp(maximum)));
    }
  }

  lemma Regroup(a: real, v: real, z: real, m: real)
    ensures Times(Times(a, v), Times(z, m)) == Times(Times(Times(a, z), m), v)
  {
    hide Times;
    TimesComm(a, v);
    TimesAssoc(v, a, Times(z, m));
    TimesAssoc(a, z, m);
    TimesComm(v, Times(Times(a, z), m));
  }

  lemma {:induction false} AccumulatedScaled(exp: real -> real, entries: seq<Entry>, maximum: real, z: real, dim: nat, d: nat)
    requires Exponential(exp) && Shaped(entries, dim) && d < dim && z > 0.0
    ensures Times(Accumulated(exp, entries, maximum, z, dim, d), Times(z, exp(maximum)))
         == Weighted(exp, entries, dim, d)
  {
    hide Exponential, Times, Term, Contribution;
    var factor := Times(z, exp(maximum));
    if entries == [] {
      TimesZero(factor);
    } else {
      var n := |entries| - 1;
      AccumulatedScaled(exp, entries[..n], maximum, z, dim, d);
      TermScaled(exp, entries[n], maximum, z, d);
      TimesAdd(Accumulated(exp, entries[..n], maximum, z, dim, d), Term(exp, entries[n], maximum, z, d), factor);
    }
  }

  lemma ShiftPositive(exp: real -> real, sink: real, entries: seq<Entry>, maximum: real)
    requires Exponential(exp)
    ensures var z := exp(sink - maximum) + ShiftedTotal(exp, entries, maximum);
      z > 0.0 && Times(z, exp(maximum)) == Denominator(exp, Some(sink), entries) > 0.0
  {
    ExpShift(exp, sink, maximum);
    TotalShifted(exp, entries, maximum);
    TotalNonNegative(exp, entries);
    hide Exponential, Times, Total, ShiftedTotal;
    TimesAdd(exp(sink - maximum), ShiftedTotal(exp, entries, maximum), exp(maximum));
    PositiveFactor(exp(sink - maximum) + ShiftedTotal(exp, entries, maximum), exp(maximum));
  }

  /** The output is the only solution of its defining equation. */
  lemma AttendIs(exp: real -> real, sink: Option<real>, entries: seq<Entry>, dim: nat, d: nat, a: real)
    requires Shaped(entries, dim) && d < dim && Denominator(exp, sink, entries) > 0.0
    requires Times(a, Denominator(exp, sink, entries)) == Weighted(exp, entries, dim, d)
    ensures a == Attend(exp, sink, entries, dim, d)
  {
    Divided(a, Weighted(exp, entries, dim, d), Denominator(exp, sink, entries));
  }

  /** Whatever the shift, the materialized computation is the attention output. */
  lemma ShiftIrrelevant(exp: real -> real, sink: real, entries: seq<Entry>, maximum: real, dim: nat, d: nat)
    requires Exponential(exp) && Shaped(entries, dim) && d < dim
    ensures var z := exp(sink - maximum) + ShiftedTotal(exp, entries, maximum);
      z > 0.0 && Accumulated(exp, entries, maximum, z, dim, d) == Attend(exp, Some(sink), entries, dim, d)
  {
    hide *;
    var z := exp(sink - maximum) + ShiftedTotal(exp, entries, maximum);
    ShiftPositive(exp, sink, entries, maximum);
    AccumulatedScaled(exp, entries, maximum, z, dim, d);
    AttendIs(exp, Some(sink), entries, dim, d, Accumulated(exp, entries, maximum, z, dim, d));
  }

  lemma PositiveFactor(z: real, m: real)
    requires Times(z, m) > 0.0 && m > 0.0
    ensures z > 0.0
  {
  }
}
