/**
 The online form of paged attention in kernels/attention/attention_serving_ref.cpp: tiles of sixteen positions, a
 running maximum, and outputs that are rescaled when the maximum grows.
 */
module OnlineAttention {
  import opened Arith
  import opened Options
  import opened Reals
  import opened Rows
  import opened Softmax
  import opened PagedLayout
  import opened PagedAttention

  // ---------- what the running state means ----------

  /** Multiplied by exp(maximum), the running sums are the sums over the entries taken so far. */
  ghost predicate Balanced(exp: real -> real, sink: Option<real>, taken: seq<Entry>, dim: nat, maximum: real,
                           denominator: real, row: seq<real>) {
    && |row| == dim && Shaped(taken, dim)
    && Times(denominator, exp(maximum)) == Denominator(exp, sink, taken)
    && forall d | 0 <= d < dim :: Times(row[d], exp(maximum)) == Weighted(exp, taken, dim, d)
  }

  /** None stands for a maximum of minus infinity: no sink, and nothing seen yet. */
  ghost predicate Online(exp: real -> real, sink: Option<real>, taken: seq<Entry>, dim: nat, maximum: Option<real>,
                         denominator: real, row: seq<real>) {
    if maximum.None? then
      && sink.None? && Shaped(taken, dim) && (forall i | 0 <= i < |taken| :: taken[i].Masked?)
      && denominator == 0.0 && |row| == dim && AllZero(row)
    else
      denominator > 0.0 && Balanced(exp, sink, taken, dim, maximum.value, denominator, row)
  }

  /** Whatever lies before the window is masked and changes nothing. */
  lemma OnlineStart(exp: real -> real, sink: Option<real>, taken: seq<Entry>, dim: nat, row: seq<real>)
    requires |row| == dim && AllZero(row) && Shaped(taken, dim) && forall i | 0 <= i < |taken| :: taken[i].Masked?
    ensures Online(exp, sink, taken, dim, sink, if sink.Some? then 1.0 else 0.0, row)
  {
    if sink.Some? {
      TotalOfMasked(exp, taken);
      var s: real := sink.value;
      TimesZero(exp(s));
      forall d | 0 <= d < dim ensures Times(row[d], exp(s)) == Weighted(exp, taken, dim, d) {
        AllMasked(exp, taken, dim, d);
      }
      hide Times;
      assert Times(1.0, exp(s)) == exp(s);
    }
  }

  /** The factor by which a larger maximum shrinks the running sums. */
  function OldWeight(exp: real -> real, maximum: Option<real>, denominator: real, next: real): real {
    if denominator > 0.0 && maximum.Some? then exp(maximum.value - next) else 0.0
  }

  lemma Rescaled(exp: real -> real, sink: Option<real>, taken: seq<Entry>, dim: nat, maximum: Option<real>,
                 denominator: real, row: seq<real>, next: real)
    requires Exponential(exp) && Online(exp, sink, taken, dim, maximum, denominator, row)
    ensures var w := OldWeight(exp, maximum, denominator, next);
      Balanced(exp, sink, taken, dim, next, Times(denominator, w), Scaled(row, w))
  {
    var w := OldWeight(exp, maximum, denominator, next);
    if maximum.Some? {
      var m: real := maximum.value;
      ExpShift(exp, m, next);
      hide Times, Exponential, Weighted, Denominator;
      TimesAssoc(denominator, w, exp(next));
      forall d | 0 <= d < dim ensures Times(Scaled(row, w)[d], exp(next)) == Weighted(exp, taken, dim, d) {
        TimesAssoc(row[d], w, exp(next));
      }
    } else {
      NothingTaken(exp, sink, taken, dim, next, row, w);
    }
  }

  lemma NothingTaken(exp: real -> real, sink: Option<real>, taken: seq<Entry>, dim: nat, next: real, row: seq<real>, w: real)
    requires sink.None? && Shaped(taken, dim) && (forall i | 0 <= i < |taken| :: taken[i].Masked?)
    requires |row| == dim && AllZero(row)
    ensures Balanced(exp, sink, taken, dim, next, Times(0.0, w), Scaled(row, w))
  {
    TotalOfMasked(exp, taken);
    forall d | 0 <= d < dim ensures Times(Scaled(row, w)[d], exp(next)) == Weighted(exp, taken, dim, d) {
      AllMasked(exp, taken, dim, d);
      assert Scaled(row, w)[d] == 0.0;
    }
  }

  lemma {:induction false} TotalOfMasked(exp: real -> real, taken: seq<Entry>)
    requires forall i | 0 <= i < |taken| :: taken[i].Masked?
    ensures Total(exp, taken) == 0.0
  {
    if taken != [] {
      TotalOfMasked(exp, taken[..|taken| - 1]);
    }
  }

  /** Taking one more entry at a fixed maximum. */
  lemma SeenTaken(exp: real -> real, sink: Option<real>, taken: seq<Entry>, e: Entry, dim: nat, maximum: real,
                  denominator: real, row: seq<real>)
    requires Exponential(exp) && e.Seen? && |e.value| == dim
    requires Balanced(exp, sink, taken, dim, maximum, denominator, row)
    ensures var w := exp(e.score - maximum);
      Balanced(exp, sink, taken + [e], dim, maximum, denominator + w, AddScaled(row, e.value, w))
  {
    var w, more := exp(e.score - maximum), taken + [e];
    DenominatorTaken(exp, sink, taken, e, maximum, denominator);
    hide Times, Exponential, Weighted, Denominator;
    var next := AddScaled(row, e.value, w);
    forall d | 0 <= d < dim ensures Times(next[d], exp(maximum)) == Weighted(exp, more, dim, d) {
      ComponentTaken(exp, taken, e, dim, maximum, row[d], d);
    }
  }

  lemma DenominatorTaken(exp: real -> real, sink: Option<real>, taken: seq<Entry>, e: Entry, maximum: real, denominator: real)
    requires Exponential(exp) && e.Seen?
    requires Times(denominator, exp(maximum)) == Denominator(exp, sink, taken)
    ensures Times(denominator + exp(e.score - maximum), exp(maximum)) == Denominator(exp, sink, taken + [e])
  {
    assert (taken + [e])[..|taken|] == taken;
    ExpShift(exp, e.score, maximum);
    hide Times, Exponential;
    TimesAdd(denominator, exp(e.score - maximum), exp(maximum));
  }

  lemma ComponentTaken(exp: real -> real, taken: seq<Entry>, e: Entry, dim: nat, maximum: real, x: real, d: nat)
    requires Exponential(exp) && e.Seen? && |e.value| == dim && Shaped(taken, dim) && d < dim
    requires Times(x, exp(maximum)) == Weighted(exp, taken, dim, d)
    ensures Shaped(taken + [e], dim)
    ensures Times(x + Times(e.value[d], exp(e.score - maximum)), exp(maximum)) == Weighted(exp, taken + [e], dim, d)
  {
    var w, m := exp(e.score - maximum), exp(maximum);
    assert (taken + [e])[..|taken|] == taken;
    ExpShift(exp, e.score, maximum);
    hide Times, Exponential;
    TimesAdd(x, Times(e.value[d], w), m);
    TimesAssoc(e.value[d], w, m);
    TimesComm(e.value[d], exp(e.score));
  }

  // ---------- masked positions do not count ----------

  /** The entries of a tile that are not masked. */
  function SeenOf(tile: seq<Entry>): (seen: seq<Entry>)
    ensures |seen| <= |tile|
    ensures forall i | 0 <= i < |seen| :: seen[i].Seen? && seen[i] in tile
  {
    if tile == [] then []
    else
      var n := |tile| - 1;
      if tile[n].Masked? then SeenOf(tile[..n]) else SeenOf(tile[..n]) + [tile[n]]
  }

  lemma {:induction false} SeenShaped(tile: seq<Entry>, dim: nat)
    requires Shaped(tile, dim)
    ensures Shaped(SeenOf(tile), dim)
  {
    if tile != [] {
      SeenShaped(tile[..|tile| - 1], dim);
    }
  }

  lemma {:induction false} SameTotal(exp: real -> real, head: seq<Entry>, tile: seq<Entry>)
    ensures Total(exp, head + SeenOf(tile)) == Total(exp, head + tile)
  {
    if tile == [] {
      assert head + SeenOf(tile) == head + tile;
    } else {
      var n := |tile| - 1;
      SameTotal(exp, head, tile[..n]);
      assert (head + tile)[..|head + tile| - 1] == head + tile[..n];
      if tile[n].Seen? {
        assert (head + SeenOf(tile))[..|head + SeenOf(tile)| - 1] == head + SeenOf(tile[..n]);
        assert (head + SeenOf(tile))[|head + SeenOf(tile)| - 1] == tile[n];
      }
    }
  }

  lemma {:induction false} SameWeighted(exp: real -> real, head: seq<Entry>, tile: seq<Entry>, dim: nat, d: nat)
    requires Shaped(head, dim) && Shaped(tile, dim) && d < dim
    ensures Shaped(head + SeenOf(tile), dim) && Shaped(head + tile, dim)
    ensures Weighted(exp, head + SeenOf(tile), dim, d) == Weighted(exp, head + tile, dim, d)
  {
    SeenShaped(tile, dim);
    if tile == [] {
      assert head + SeenOf(tile) == head + tile;
    } else {
      var n := |tile| - 1;
      SameWeighted(exp, head, tile[..n], dim, d);
      SeenShaped(tile[..n], dim);
      WeightedNext(exp, head, tile[..n], tile[n], dim, d);
      assert tile == tile[..n] + [tile[n]];
      if tile[n].Seen? {
        WeightedNext(exp, head, SeenOf(tile[..n]), tile[n], dim, d);
      } else {
        assert SeenOf(tile) == SeenOf(tile[..n]);
        MaskedAdds(exp, tile[n], d);
      }
    }
  }

  lemma WeightedNext(exp: real -> real, head: seq<Entry>, tile: seq<Entry>, e: Entry, dim: nat, d: nat)
    requires Shaped(head, dim) && Shaped(tile, dim) && d < dim && (e.Seen? ==> |e.value| == dim)
    ensures Shaped(head + tile, dim) && Shaped(head + (tile + [e]), dim)
    ensures Weighted(exp, head + (tile + [e]), dim, d) == Weighted(exp, head + tile, dim, d) + Contribution(exp, e, d)
  {
    hide Contribution;
    var all := head + (tile + [e]);
    assert all[..|all| - 1] == head + tile && all[|all| - 1] == e;
  }

  lemma MaskedAdds(exp: real -> real, e: Entry, d: nat)
    requires e.Masked?
    ensures Contribution(exp, e, d) == 0.0
  {
  }

  /** A state balanced over the seen entries of a tile is balanced over the whole tile. */
  lemma TileTaken(exp: real -> real, sink: Option<real>, head: seq<Entry>, tile: seq<Entry>, dim: nat, maximum: real,
                  denominator: real, row: seq<real>)
    requires Shaped(head, dim) && Shaped(tile, dim)
    requires Balanced(exp, sink, head + SeenOf(tile), dim, maximum, denominator, row)
    ensures Balanced(exp, sink, head + tile, dim, maximum, denominator, row)
  {
    hide Times, Weighted, Total;
    SameTotal(exp, head, tile);
    forall d | 0 <= d < dim
      ensures Weighted(exp, head + SeenOf(tile), dim, d) == Weighted(exp, head + tile, dim, d)
    {
      SameWeighted(exp, head, tile, dim, d);
    }
  }

  /** A tile with nothing to see changes nothing. */
  lemma TileSkipped(exp: real -> real, sink: Option<real>, head: seq<Entry>, tile: seq<Entry>, dim: nat,
                    maximum: Option<real>, denominator: real, row: seq<real>)
    requires Shaped(head, dim) && Shaped(tile, dim) && SeenOf(tile) == []
    requires Online(exp, sink, head, dim, maximum, denominator, row)
    ensures Online(exp, sink, head + tile, dim, maximum, denominator, row)
  {
    if maximum.Some? {
      assert head + SeenOf(tile) == head;
      TileTaken(exp, sink, head, tile, dim, maximum.value, denominator, row);
    } else {
      NothingSeen(tile);
    }
  }

  lemma {:induction false} NothingSeen(tile: seq<Entry>)
    requires SeenOf(tile) == []
    ensures forall i | 0 <= i < |tile| :: tile[i].Masked?
  {
    if tile != [] {
      NothingSeen(tile[..|tile| - 1]);
    }
  }

  // ---------- one tile ----------

  /** A score and a base index that stand for an entry. */
  predicate Stands(b: Batch, e: Entry, score: real, base: nat) {
    && e.Seen? && e.score == score
    && base + b.dim <= |b.value| && e.value == b.value[base..base + b.dim]
  }

  ghost predicate Collected(b: Batch, seen: seq<Entry>, scores: seq<real>, bases: seq<nat>, valid: nat) {
    && valid == |seen| <= |scores| == |bases|
    && forall i | 0 <= i < valid :: Stands(b, seen[i], scores[i], bases[i])
  }

  lemma CollectedStep(b: Batch, seen: seq<Entry>, e: Entry, scores: seq<real>, bases: seq<nat>, valid: nat,
                      score: real, base: nat)
    requires Collected(b, seen, scores, bases, valid) && valid < |scores| && Stands(b, e, score, base)
    ensures Collected(b, seen + [e], scores[valid := score], bases[valid := base], valid + 1)
  {
  }

  method CollectTile(b: Batch, request: nat, qhead: nat, begin: nat, end: nat, scores: array<real>, bases: array<nat>)
    returns (valid: nat, tileMaximum: Option<real>)
    requires Valid(b) && Head(b, request, qhead) && WindowStart(b, request) <= begin
    requires begin <= end <= |Entries(b, request, qhead)| && end - begin <= 16
    requires scores.Length == bases.Length == 16
    modifies scores, bases
    ensures Collected(b, SeenOf(Entries(b, request, qhead)[begin..end]), scores[..], bases[..], valid)
    ensures tileMaximum.None? <==> valid == 0
  {
    ghost var entries := Entries(b, request, qhead);
    valid, tileMaximum := 0, None;
    NothingCollected(b, entries, begin, scores[..], bases[..]);
    hide *;
    for position := begin to end
      invariant valid <= position - begin
      invariant Collected(b, SeenOf(entries[begin..position]), scores[..], bases[..], valid)
      invariant tileMaximum.None? <==> valid == 0
    {
      SeenStep(entries, begin, position);
      EntryIs(b, request, qhead, position);
      valid, tileMaximum := CollectOne(b, request, qhead, position, SeenOf(entries[begin..position]), scores, bases,
                                       valid, tileMaximum);
    }
  }

  method CollectOne(b: Batch, request: nat, qhead: nat, position: nat, ghost seen: seq<Entry>, scores: array<real>,
                    bases: array<nat>, valid: nat, tileMaximum: Option<real>)
    returns (newValid: nat, newMaximum: Option<real>)
    requires Valid(b) && Head(b, request, qhead) && InContext(b, request, position)
    requires WindowStart(b, request) <= position
    requires valid < scores.Length == bases.Length && Collected(b, seen, scores[..], bases[..], valid)
    requires tileMaximum.None? <==> valid == 0
    modifies scores, bases
    ensures valid <= newValid <= valid + 1 && (newMaximum.None? <==> newValid == 0)
    ensures var e := EntryAt(b, request, qhead, position);
      Collected(b, seen + (if e.Masked? then [] else [e]), scores[..], bases[..], newValid)
  {
    hide Valid, EntryAt, Collected, Stands;
    ghost var e := EntryAt(b, request, qhead, position);
    var score, base := Fetch(b, request, qhead, position);
    if score.Some? {
      CollectedStep(b, seen, e, scores[..], bases[..], valid, score.value, base);
      scores[valid], bases[valid] := score.value, base;
      newMaximum := MaxLevel(tileMaximum, score);
      newValid := valid + 1;
    } else {
      assert seen + [] == seen;
      newMaximum, newValid := tileMaximum, valid;
    }
  }

  lemma SeenStep(entries: seq<Entry>, begin: nat, position: nat)
    requires begin <= position < |entries|
    ensures SeenOf(entries[begin..position + 1])
         == SeenOf(entries[begin..position]) + (if entries[position].Masked? then [] else [entries[position]])
  {
    var tile := entries[begin..position + 1];
    assert tile[..|tile| - 1] == entries[begin..position];
  }

  lemma NothingCollected(b: Batch, entries: seq<Entry>, begin: nat, scores: seq<real>, bases: seq<nat>)
    requires |scores| == |bases| && begin <= |entries|
    ensures Collected(b, SeenOf(entries[begin..begin]), scores, bases, 0)
  {
    assert entries[begin..begin] == [];
  }

  /** std::max, with None for minus infinity. */
  function MaxLevel(a: Option<real>, b: Option<real>): (m: Option<real>)
    ensures m.None? <==> a.None? && b.None?
  {
    if a.None? then b
    else if b.None? then a
    else if a.value < b.value then b else a
  }

  method OnlineScore(b: Batch, request: nat, qhead: nat, position: nat) returns (score: real)
    requires Valid(b) && Head(b, request, qhead) && InContext(b, request, position)
    ensures score == Score(b, request, qhead, position)
  {
    var dot := DotAt(b, request, qhead, position);
    hide Query, KeyRow, KvHead, Times;
    dot := Times(dot, ScoreScale(b, KvHead(b, qhead)));
    dot := dot + Times(b.alibi[qhead], (position - (b.context[request] - 1)) as real);
    score := Capped(b, dot);
  }

  method Fetch(b: Batch, request: nat, qhead: nat, position: nat) returns (score: Option<real>, base: nat)
    requires Valid(b) && Head(b, request, qhead) && InContext(b, request, position)
    requires WindowStart(b, request) <= position
    ensures var e := EntryAt(b, request, qhead, position);
      if score.None? then e.Masked? else e.Seen? && Stands(b, e, score.value, base)
  {
    hide Score, BlockHidden, Valid, KvHead, CacheRow;
    var hidden := IsBlockHidden(b, request, qhead, position);
    if hidden {
      return None, 0;
    }
    base := Locate(b, request, KvHead(b, qhead), position);
    var value := OnlineScore(b, request, qhead, position);
    score := Some(value);
  }

  /** output[d] *= factor over one row. */
  method ScaleRow(out: array<real>, at: nat, dim: nat, factor: real)
    requires at + dim <= out.Length
    modifies out
    ensures out[at..at + dim] == Scaled(old(out[at..at + dim]), factor)
    ensures Framed(old(out[..]), out[..], at, dim)
  {
    hide Times;
    ghost var row, before := out[at..at + dim], out[..];
    ghost var next := Scaled(row, factor);
    assert Rewriting(before, out[..], at, row, next, 0);
    hide Rewriting;
    for d := 0 to dim
      invariant Rewriting(before, out[..], at, row, next, d)
    {
      RewrittenAt(before, out[..], at, row, next, d);
      PutNext(before, out, at, row, next, d, Times(out[at + d], factor));
    }
    Rewritten(before, out, at, row, next);
  }

  /** Moves the state to a new maximum; a factor of one leaves the row alone. */
  method MoveMaximum(exp: real -> real, ghost sink: Option<real>, ghost taken: seq<Entry>, dim: nat,
                     maximum: Option<real>, denominator: real, next: real, out: array<real>, at: nat)
    returns (smaller: real)
    requires Exponential(exp) && at + dim <= out.Length
    requires Online(exp, sink, taken, dim, maximum, denominator, out[at..at + dim])
    modifies out
    ensures smaller >= 0.0
    ensures Balanced(exp, sink, taken, dim, next, smaller, out[at..at + dim])
    ensures Framed(old(out[..]), out[..], at, dim)
  {
    ghost var row := out[at..at + dim];
    Rescaled(exp, sink, taken, dim, maximum, denominator, row, next);
    var oldWeight := OldWeight(exp, maximum, denominator, next);
    WeightSign(exp, maximum, denominator, next);
    smaller := Times(denominator, oldWeight);
    OnlineSign(exp, sink, taken, dim, maximum, denominator, row);
    TimesNonNegative(denominator, oldWeight);
    if oldWeight != 1.0 {
      ScaleRow(out, at, dim, oldWeight);
    } else {
      ScaledByOne(row);
    }
  }

  lemma WeightSign(exp: real -> real, maximum: Option<real>, denominator: real, next: real)
    requires Exponential(exp)
    ensures OldWeight(exp, maximum, denominator, next) >= 0.0
  {
    if maximum.Some? {
      ExpPositive(exp, maximum.value - next);
    }
  }

  lemma OnlineSign(exp: real -> real, sink: Option<real>, taken: seq<Entry>, dim: nat, maximum: Option<real>,
                   denominator: real, row: seq<real>)
    requires Online(exp, sink, taken, dim, maximum, denominator, row)
    ensures denominator >= 0.0
  {
  }

  lemma ScaledByOne(row: seq<real>)
    ensures Scaled(row, 1.0) == row
  {
  }

  /** Adds the collected entries of a tile. */
  method AddTile(exp: real -> real, b: Batch, ghost sink: Option<real>, ghost head: seq<Entry>, ghost seen: seq<Entry>,
                 scores: array<real>, bases: array<nat>, valid: nat, maximum: real, start: real, out: array<real>, at: nat)
    returns (denominator: real)
    requires Exponential(exp) && at + b.dim <= out.Length && start >= 0.0 && scores != out && valid > 0
    requires Collected(b, seen, scores[..], bases[..], valid)
    requires Balanced(exp, sink, head, b.dim, maximum, start, out[at..at + b.dim])
    modifies out
    ensures denominator > 0.0
    ensures Balanced(exp, sink, head + seen, b.dim, maximum, denominator, out[at..at + b.dim])
    ensures Framed(old(out[..]), out[..], at, b.dim)
  {
    denominator := start;
    ghost var s, t, before := scores[..], bases[..], out[..];
    ghost var taken := head;
    hide Balanced, Exponential, Collected, Stands;
    for index := 0 to valid
      invariant scores[..] == s && bases[..] == t && index <= |seen| && taken == head + seen[..index]
      invariant denominator >= 0.0 && (index > 0 ==> denominator > 0.0)
      invariant Balanced(exp, sink, taken, b.dim, maximum, denominator, out[at..at + b.dim])
      invariant Framed(before, out[..], at, b.dim)
    {
      StandsAt(b, seen, s, t, valid, index);
      denominator := AddEntry(exp, b, sink, taken, seen[index], scores[index], bases[index], maximum, denominator,
                              out, at, before);
      OneMore(head, seen, index);
      taken := taken + [seen[index]];
    }
    CollectedSize(b, seen, s, t, valid);
    assert seen[..valid] == seen;
  }

  lemma OneMore(head: seq<Entry>, seen: seq<Entry>, index: nat)
    requires index < |seen|
    ensures head + seen[..index] + [seen[index]] == head + seen[..index + 1]
  {
  }

  lemma CollectedSize(b: Batch, seen: seq<Entry>, scores: seq<real>, bases: seq<nat>, valid: nat)
    requires Collected(b, seen, scores, bases, valid)
    ensures valid == |seen| <= |scores| == |bases|
  {
  }

  lemma StandsAt(b: Batch, seen: seq<Entry>, scores: seq<real>, bases: seq<nat>, valid: nat, index: nat)
    requires Collected(b, seen, scores, bases, valid) && index < valid
    ensures valid == |seen| <= |scores| == |bases| && Stands(b, seen[index], scores[index], bases[index])
  {
  }

  method AddEntry(exp: real -> real, b: Batch, ghost sink: Option<real>, ghost taken: seq<Entry>, ghost e: Entry,
                  score: real, base: nat, maximum: real, start: real, out: array<real>, at: nat, ghost before: seq<real>)
    returns (denominator: real)
    requires Exponential(exp) && at + b.dim <= out.Length && start >= 0.0 && Stands(b, e, score, base)
    requires Balanced(exp, sink, taken, b.dim, maximum, start, out[at..at + b.dim])
    requires Framed(before, out[..], at, b.dim)
    modifies out
    ensures denominator > 0.0
    ensures Balanced(exp, sink, taken + [e], b.dim, maximum, denominator, out[at..at + b.dim])
    ensures Framed(before, out[..], at, b.dim)
  {
    hide Balanced, AddScaled;
    var weight := exp(score - maximum);
    ExpPositive(exp, score - maximum);
    hide Exponential;
    SeenTaken(exp, sink, taken, e, b.dim, maximum, start, out[at..at + b.dim]);
    denominator := start + weight;
    ghost var middle := out[..];
    AddRow(out, at, b.value, base, b.dim, weight);
    FramedTwice(before, middle, out[..], at, b.dim);
  }

  // ---------- one head ----------

  /** The last scaling divides by the denominator and applies the scale of the values. */
  lemma OnlineFinished(exp: real -> real, sink: Option<real>, entries: seq<Entry>, dim: nat, maximum: Option<real>,
                       denominator: real, row: seq<real>, c: real)
    requires Exponential(exp) && Shaped(entries, dim) && Online(exp, sink, entries, dim, maximum, denominator, row)
    ensures denominator > 0.0 ==> Scaled(row, c / denominator) == Scaled(AttendRow(exp, sink, entries, dim), c)
    ensures denominator <= 0.0 ==> row == Scaled(AttendRow(exp, sink, entries, dim), c)
  {
    if maximum.Some? {
      var m: real := maximum.value;
      ExpPositive(exp, m);
      hide Exponential, Weighted, Attend, Denominator, Times;
      TimesPositive(denominator, exp(m));
      forall d | 0 <= d < dim
        ensures Times(row[d], c / denominator) == Times(Attend(exp, sink, entries, dim, d), c)
      {
        Unscaled(row[d], denominator, exp(m));
        AttendIs(exp, sink, entries, dim, d, Times(row[d], 1.0 / denominator));
        SplitQuotient(row[d], c, denominator);
      }
    } else {
      TotalOfMasked(exp, entries);
      TimesZero(c);
      forall d | 0 <= d < dim ensures Attend(exp, sink, entries, dim, d) == 0.0 {
        AllMasked(exp, entries, dim, d);
      }
    }
  }

  lemma SplitQuotient(x: real, c: real, z: real)
    requires z > 0.0
    ensures Times(x, c / z) == Times(Times(x, 1.0 / z), c)
  {
    assert c / z == Times(1.0 / z, c);
    hide Times;
    TimesAssoc(x, 1.0 / z, c);
  }

  lemma TimesPositive(a: real, b: real)
    requires a > 0.0 && b > 0.0
    ensures Times(a, b) > 0.0
  {
  }

  lemma Unscaled(x: real, z: real, m: real)
    requires z > 0.0
    ensures Times(Times(x, 1.0 / z), Times(z, m)) == Times(x, m)
  {
    var i := 1.0 / z;
    Divided(i, 1.0, z);
    hide Times;
    TimesAssoc(Times(x, i), z, m);
    TimesAssoc(x, i, z);
    TimesZero(x);
  }

  /** Positions before the window are masked. */
  lemma BeforeWindow(b: Batch, request: nat, qhead: nat)
    requires Valid(b) && Head(b, request, qhead)
    ensures WindowStart(b, request) <= |Entries(b, request, qhead)| && Shaped(Entries(b, request, qhead), b.dim)
    ensures forall i | 0 <= i < WindowStart(b, request) :: Entries(b, request, qhead)[i].Masked?
  {
    hide Score, BlockHidden, ValueRow, KvHead;
    forall i | 0 <= i < WindowStart(b, request) ensures Entries(b, request, qhead)[i].Masked? {
      EntryIs(b, request, qhead, i);
    }
  }

  method OnlineHead(exp: real -> real, b: Batch, request: nat, qhead: nat, out: array<real>, at: nat)
    requires Exponential(exp) && Valid(b) && Head(b, request, qhead) && at + b.dim <= out.Length
    modifies out
    ensures out[at..at + b.dim] == HeadOutput(exp, b, request, qhead)
    ensures Framed(old(out[..]), out[..], at, b.dim)
  {
    ghost var entries, before := Entries(b, request, qhead), out[..];
    var sink, valueScale := SinkOf(b, qhead), ValueScale(b, KvHead(b, qhead));
    var context, start := b.context[request], WindowStart(b, request);
    ZeroRow(out, at, b.dim);
    BeforeWindow(b, request, qhead);
    OnlineStart(exp, sink, entries[..start], b.dim, out[at..at + b.dim]);
    hide Exponential, Online, Entries, Valid, ValueScale, SinkOf, WindowStart;
    ghost var zeroed := out[..];
    var maximum, denominator := AllTiles(exp, b, request, qhead, sink, entries, start, context, out, at);
    FramedTwice(before, zeroed, out[..], at, b.dim);
    OnlineFinished(exp, sink, entries, b.dim, maximum, denominator, out[at..at + b.dim], valueScale);
    if denominator > 0.0 {
      ghost var middle := out[..];
      ScaleRow(out, at, b.dim, valueScale / denominator);
      FramedTwice(before, middle, out[..], at, b.dim);
    }
  }

  /** The tile loop, from the start of the window. */
  method AllTiles(exp: real -> real, b: Batch, request: nat, qhead: nat, sink: Option<real>, ghost entries: seq<Entry>,
                  start: nat, context: nat, out: array<real>, at: nat)
    returns (maximum: Option<real>, denominator: real)
    requires Exponential(exp) && Valid(b) && Head(b, request, qhead) && entries == Entries(b, request, qhead)
    requires WindowStart(b, request) == start <= context == |entries| && at + b.dim <= out.Length
    requires Online(exp, sink, entries[..start], b.dim, sink, if sink.Some? then 1.0 else 0.0, out[at..at + b.dim])
    modifies out
    ensures Online(exp, sink, entries, b.dim, maximum, denominator, out[at..at + b.dim])
    ensures Framed(old(out[..]), out[..], at, b.dim)
  {
    ghost var before := out[..];
    maximum, denominator := sink, if sink.Some? then 1.0 else 0.0;
    var tileBegin := start;
    hide Exponential, Online, Entries, Valid, WindowStart;
    while tileBegin < context
      invariant start <= tileBegin && Framed(before, out[..], at, b.dim)
      invariant Online(exp, sink, entries[..Min(tileBegin, context)], b.dim, maximum, denominator, out[at..at + b.dim])
    {
      var tileEnd := Min(tileBegin + 16, context);
      ghost var middle := out[..];
      maximum, denominator := OneTile(exp, b, request, qhead, sink, entries, tileBegin, tileEnd, maximum, denominator,
                                      out, at);
      FramedTwice(before, middle, out[..], at, b.dim);
      tileBegin := tileBegin + 16;
    }
    assert entries[..context] == entries;
  }

  /** One iteration of the tile loop. */
  method OneTile(exp: real -> real, b: Batch, request: nat, qhead: nat, ghost sink: Option<real>, ghost entries: seq<Entry>,
                 begin: nat, end: nat, maximum: Option<real>, denominator: real, out: array<real>, at: nat)
    returns (newMaximum: Option<real>, newDenominator: real)
    requires Exponential(exp) && Valid(b) && Head(b, request, qhead) && entries == Entries(b, request, qhead)
    requires WindowStart(b, request) <= begin <= end <= |entries| && end - begin <= 16 && at + b.dim <= out.Length
    requires Online(exp, sink, entries[..begin], b.dim, maximum, denominator, out[at..at + b.dim])
    modifies out
    ensures Online(exp, sink, entries[..end], b.dim, newMaximum, newDenominator, out[at..at + b.dim])
    ensures Framed(old(out[..]), out[..], at, b.dim)
  {
    hide Exponential, Valid, SeenOf, Online, Collected, WindowStart, MaxLevel;
    ghost var head, tile := entries[..begin], entries[begin..end];
    assert head + tile == entries[..end];
    assert Shaped(head, b.dim) && Shaped(tile, b.dim);
    hide Entries, Shaped;
    var scores, bases := new real[16](i => 0.0), new nat[16](i => 0);
    var valid, tileMaximum := CollectTile(b, request, qhead, begin, end, scores, bases);
    if valid == 0 {
      NoneCollected(b, SeenOf(tile), scores[..], bases[..]);
      TileSkipped(exp, sink, head, tile, b.dim, maximum, denominator, out[at..at + b.dim]);
      return maximum, denominator;
    }
    newMaximum := MaxLevel(maximum, tileMaximum);
    newDenominator := TakeTile(exp, b, sink, head, tile, maximum, denominator, scores, bases, valid, newMaximum.value, out,
                               at);
    OnlineAgain(exp, sink, head + tile, b.dim, newMaximum, newDenominator, out[at..at + b.dim]);
  }

  /** What has been taken so far is rescaled to the new maximum, then the tile's entries are added. */
  method TakeTile(exp: real -> real, b: Batch, ghost sink: Option<real>, ghost head: seq<Entry>, ghost tile: seq<Entry>,
                  maximum: Option<real>, denominator: real, scores: array<real>, bases: array<nat>, valid: nat,
                  next: real, out: array<real>, at: nat)
    returns (newDenominator: real)
    requires Exponential(exp) && Shaped(head, b.dim) && Shaped(tile, b.dim)
    requires at + b.dim <= out.Length && scores != out && valid > 0
    requires Collected(b, SeenOf(tile), scores[..], bases[..], valid)
    requires Online(exp, sink, head, b.dim, maximum, denominator, out[at..at + b.dim])
    modifies out
    ensures newDenominator > 0.0
    ensures Balanced(exp, sink, head + tile, b.dim, next, newDenominator, out[at..at + b.dim])
    ensures Framed(old(out[..]), out[..], at, b.dim)
  {
    hide Exponential, SeenOf, Online, Balanced, Collected, Shaped, Framed;
    ghost var before := out[..];
    var smaller := MoveMaximum(exp, sink, head, b.dim, maximum, denominator, next, out, at);
    ghost var middle := out[..];
    newDenominator := AddTile(exp, b, sink, head, SeenOf(tile), scores, bases, valid, next, smaller, out, at);
    FramedTwice(before, middle, out[..], at, b.dim);
    TileTaken(exp, sink, head, tile, b.dim, next, newDenominator, out[at..at + b.dim]);
  }

  lemma NoneCollected(b: Batch, seen: seq<Entry>, scores: seq<real>, bases: seq<nat>)
    requires Collected(b, seen, scores, bases, 0)
    ensures seen == []
  {
  }

  lemma OnlineAgain(exp: real -> real, sink: Option<real>, taken: seq<Entry>, dim: nat, maximum: Option<real>,
                    denominator: real, row: seq<real>)
    requires maximum.Some? && denominator > 0.0 && Balanced(exp, sink, taken, dim, maximum.value, denominator, row)
    ensures Online(exp, sink, taken, dim, maximum, denominator, row)
  {
  }

  /** The kernel's loop over items: one request and query head each. */
  method OnlinePagedAttention(exp: real -> real, b: Batch) returns (out: array<real>)
    requires Exponential(exp) && Valid(b)
    ensures RowsDone(exp, b, out[..], Flat(b.batch, b.queryHeads, 0))
  {
    hide RowMajor, RowsDone, Valid, Exponential, HeadOutput;
    var items := RowMajor(b.batch, b.queryHeads, 0);
    out := new real[RowMajor(items, b.dim, 0)](i => 0.0);
    NothingDone(exp, b, out[..]);
    hide Flat;
    for item := 0 to items
      invariant out.Length == Flat(Flat(b.batch, b.queryHeads, 0), b.dim, 0)
      invariant RowsDone(exp, b, out[..], item)
    {
      FlatSplit(item, b.batch, b.queryHeads);
      DivMod(item, b.queryHeads);
      var request, qhead := item / b.queryHeads, item % b.queryHeads;
      HeadRow(b, request, qhead);
      ghost var before := out[..];
      var at := RowMajor(item, b.dim, 0);
      OnlineHead(exp, b, request, qhead, out, at);
      assert RowOf(out[..], item, b.dim) == out[at..at + b.dim];
      HeadWritten(exp, b, before, out[..], request, qhead);
    }
  }

  /** Two layouts of the same logical tokens give identical outputs, however each is computed. */
  lemma LayoutsAgree(exp: real -> real, a: Batch, b: Batch, x: seq<real>, y: seq<real>)
    requires Valid(a) && Valid(b) && SameTokens(a, b)
    requires RowsDone(exp, a, x, Flat(a.batch, a.queryHeads, 0)) && RowsDone(exp, b, y, Flat(b.batch, b.queryHeads, 0))
    ensures x == y
  {
    hide HeadOutput, Valid;
    forall request: nat, qhead: nat | Head(b, request, qhead) && Flat(request, b.queryHeads, qhead) < Flat(b.batch, b.queryHeads, 0)
      ensures RowDone(exp, b, x, request, qhead)
    {
      assert RowDone(exp, a, x, request, qhead);
      LayoutIndependent(exp, a, b, request, qhead);
    }
    SameRows(exp, b, x, y);
  }
}
