/**
 Paged decode attention, computed twice: with a materialized score buffer (benchmarks/cases/optimization_plan.cpp)
 and online, sixteen positions at a time (kernels/attention/attention_serving_ref.cpp).
 */
module PagedAttention {
  import opened Arith
  import opened Options
  import opened Reals
  import opened Rows
  import opened Softmax
  import opened PagedLayout

  // ---------- shared pieces ----------

  /** Where a position's key and value rows begin. */
  method Locate(b: Batch, request: nat, kvhead: nat, position: nat) returns (base: nat)
    requires Valid(b) && request < b.batch && kvhead < b.kvHeads && InContext(b, request, position)
    ensures base == Flat(CacheRow(b, request, kvhead, position), b.dim, 0)
    ensures base + b.dim <= |b.key| == |b.value|
  {
    hide RowMajor;
    assert ContextFits(b, request);
    DivMod(position, b.page);
    FlatSplit(position, b.maxBlocks, b.page);
    FlatOrder(request, b.batch, b.maxBlocks, Quot(position, b.page), 0);
    var physical := b.table[RowMajor(request, b.maxBlocks, position / b.page)];
    base := RowMajor(RowMajor(RowMajor(physical, b.page, position % b.page), b.kvHeads, kvhead), b.dim, 0);
  }

  /** The dot product of a query head with the key at a position. */
  method DotAt(b: Batch, request: nat, qhead: nat, position: nat) returns (dot: real)
    requires Valid(b) && Head(b, request, qhead) && InContext(b, request, position)
    ensures dot == Dot(Query(b, request, qhead), KeyRow(b, request, KvHead(b, qhead), position))
  {
    var kvhead := KvHead(b, qhead);
    var base := Locate(b, request, kvhead, position);
    FlatOrder(request, b.batch, b.queryHeads, qhead, 0);
    RowInside(Flat(request, b.queryHeads, qhead), Flat(b.batch, b.queryHeads, 0), b.dim);
    var at := RowMajor(RowMajor(request, b.queryHeads, qhead), b.dim, 0);
    ghost var query, key := Query(b, request, qhead), KeyRow(b, request, kvhead, position);
    hide Valid, CacheRow, RowMajor, KvHead, Dot;
    dot := DotParts(b.q, at, b.key, base, b.dim);
  }

  /** The product of two stretches of n elements. */
  method DotParts(x: seq<real>, at: nat, y: seq<real>, from: nat, n: nat) returns (dot: real)
    requires at + n <= |x| && from + n <= |y|
    ensures dot == Dot(x[at..at + n], y[from..from + n])
  {
    hide Times;
    ghost var a, b := x[at..at + n], y[from..from + n];
    dot := 0.0;
    for d := 0 to n
      invariant dot == Dot(a[..d], b[..d])
    {
      DotStep(a, b, d);
      dot := dot + Times(x[at + d], y[from + d]);
    }
    assert a[..n] == a && b[..n] == b;
  }

  method PlainScore(b: Batch, request: nat, qhead: nat, position: nat) returns (score: real)
    requires Valid(b) && Plain(b) && Head(b, request, qhead) && InContext(b, request, position)
    ensures score == Score(b, request, qhead, position)
  {
    var dot := DotAt(b, request, qhead, position);
    hide Query, KeyRow, KvHead, Times;
    score := Times(dot, b.scale) + Times(b.alibi[qhead], (position - (b.context[request] - 1)) as real);
  }

  method IsBlockHidden(b: Batch, request: nat, qhead: nat, position: nat) returns (hidden: bool)
    requires Valid(b) && Head(b, request, qhead) && InContext(b, request, position)
    ensures hidden == BlockHidden(b, request, qhead, position)
  {
    assert ContextFits(b, request);
    DivMod(position, b.page);
    FlatSplit(position, b.maxBlocks, b.page);
    FlatOrder(request, b.batch, b.queryHeads, qhead, 0);
    FlatOrder(Flat(request, b.queryHeads, qhead), Flat(b.batch, b.queryHeads, 0), b.maxBlocks, Quot(position, b.page), 0);
    hidden := b.mask[RowMajor(RowMajor(request, b.queryHeads, qhead), b.maxBlocks, position / b.page)] == 0;
  }

  /** output[d] += value[d] * weight over one row of the output. */
  method AddRow(out: array<real>, at: nat, value: seq<real>, base: nat, dim: nat, weight: real)
    requires at + dim <= out.Length && base + dim <= |value|
    modifies out
    ensures out[at..at + dim] == AddScaled(old(out[at..at + dim]), value[base..base + dim], weight)
    ensures Framed(old(out[..]), out[..], at, dim)
  {
    hide Times;
    ghost var row, before := out[at..at + dim], out[..];
    ghost var next := AddScaled(row, value[base..base + dim], weight);
    for d := 0 to dim
      invariant out[at..at + d] == next[..d] && out[at + d..at + dim] == row[d..]
      invariant Framed(before, out[..], at, dim)
    {
      ghost var middle := out[..];
      assert out[at + d] == out[at + d..at + dim][0] == row[d];
      out[at + d] := out[at + d] + Times(value[base + d], weight);
      assert out[at + d + 1..at + dim] == middle[at + d..at + dim][1..];
    }
  }

  method ZeroRow(out: array<real>, at: nat, dim: nat)
    requires at + dim <= out.Length
    modifies out
    ensures AllZero(out[at..at + dim])
    ensures Framed(old(out[..]), out[..], at, dim)
  {
    forall i | at <= i < at + dim {
      out[i] := 0.0;
    }
  }

  // ---------- the materialized reference ----------

  predicate ScoreIs(e: Entry, score: Option<real>) {
    if e.Masked? then score.None? else score == Some(e.score)
  }

  ghost predicate ScoresAre(entries: seq<Entry>, scores: seq<Option<real>>, n: nat, sink: real, maximum: real) {
    && n <= |scores| == |entries| && sink <= maximum
    && forall i | 0 <= i < n :: ScoreIs(entries[i], scores[i]) && (scores[i].Some? ==> scores[i].value <= maximum)
  }

  /** The score buffer, with None for the masked positions' minus infinity, and a maximum no score exceeds. */
  method ScoreAll(b: Batch, request: nat, qhead: nat, sink: real) returns (buffer: seq<Option<real>>, maximum: real)
    requires Valid(b) && Plain(b) && Head(b, request, qhead)
    ensures ScoresAre(Entries(b, request, qhead), buffer, |buffer|, sink, maximum)
  {
    ghost var entries := Entries(b, request, qhead);
    var context := b.context[request];
    var scores := new Option<real>[context](i => None);
    maximum := sink;
    hide Valid, Entries;
    for position := 0 to context
      invariant ScoresAre(entries, scores[..], position, sink, maximum)
    {
      EntryIs(b, request, qhead, position);
      var score := ScoreOrNone(b, request, qhead, position);
      scores[position] := score;
      if score.Some? {
        maximum := if maximum < score.value then score.value else maximum;
      }
    }
    buffer := scores[..];
  }

  method ScoreOrNone(b: Batch, request: nat, qhead: nat, position: nat) returns (score: Option<real>)
    requires Valid(b) && Plain(b) && Head(b, request, qhead) && InContext(b, request, position)
    ensures ScoreIs(EntryAt(b, request, qhead, position), score)
  {
    hide Score, BlockHidden, Valid, ValueRow, KvHead;
    var hidden := IsBlockHidden(b, request, qhead, position);
    if hidden {
      return None;
    }
    var value := PlainScore(b, request, qhead, position);
    score := Some(value);
  }

  /** Every exponent the reference evaluates is at most zero. */
  method Normalize(exp: real -> real, ghost entries: seq<Entry>, scores: seq<Option<real>>, sink: real, maximum: real)
    returns (denominator: real)
    requires ScoresAre(entries, scores, |scores|, sink, maximum)
    ensures denominator == exp(sink - maximum) + ShiftedTotal(exp, entries, maximum)
  {
    assert sink - maximum <= 0.0;
    denominator := exp(sink - maximum);
    for i := 0 to |scores|
      invariant denominator == exp(sink - maximum) + ShiftedTotal(exp, entries[..i], maximum)
    {
      assert entries[..i + 1][..i] == entries[..i] && ScoreIs(entries[i], scores[i]);
      if scores[i].Some? {
        var score: real := scores[i].value;
        assert score - maximum <= 0.0;
        denominator := denominator + exp(score - maximum);
      }
    }
    assert entries[..|scores|] == entries;
  }

  ghost predicate AccumulatedRow(exp: real -> real, entries: seq<Entry>, maximum: real, z: real, dim: nat, row: seq<real>) {
    && |row| == dim && Shaped(entries, dim) && z > 0.0
    && forall d | 0 <= d < dim :: row[d] == Accumulated(exp, entries, maximum, z, dim, d)
  }

  lemma AccumulatedStep(exp: real -> real, entries: seq<Entry>, n: nat, maximum: real, z: real, dim: nat,
                        before: seq<real>, after: seq<real>)
    requires n < |entries| && Shaped(entries, dim) && |after| == dim
    requires AccumulatedRow(exp, entries[..n], maximum, z, dim, before)
    requires if entries[n].Masked? then after == before
             else after == AddScaled(before, entries[n].value, Probability(exp, entries[n].score, maximum, z))
    ensures AccumulatedRow(exp, entries[..n + 1], maximum, z, dim, after)
  {
    hide Times, Probability;
    assert entries[..n + 1][..n] == entries[..n];
    forall d | 0 <= d < dim ensures after[d] == before[d] + Term(exp, entries[n], maximum, z, d) {
      if entries[n].Seen? {
        TimesComm(Probability(exp, entries[n].score, maximum, z), entries[n].value[d]);
      }
    }
  }

  method MaterializedHead(exp: real -> real, b: Batch, request: nat, qhead: nat, out: array<real>, at: nat)
    requires Exponential(exp) && Valid(b) && Plain(b) && b.sinks.Some? && Head(b, request, qhead) && at + b.dim <= out.Length
    modifies out
    ensures out[at..at + b.dim] == HeadOutput(exp, b, request, qhead)
    ensures Framed(old(out[..]), out[..], at, b.dim)
  {
    hide Exponential, ShiftedTotal, AccumulatedRow, EntryAt;
    var sink := b.sinks.value[qhead];
    ghost var entries := Entries(b, request, qhead);
    var scores, maximum := ScoreAll(b, request, qhead, sink);
    var denominator := Normalize(exp, entries, scores, sink, maximum);
    ShiftPositive(exp, sink, entries, maximum);
    ghost var before := out[..];
    ZeroRow(out, at, b.dim);
    NothingAccumulated(exp, entries, maximum, denominator, b.dim, out[at..at + b.dim]);
    hide HeadOutput, Entries, Valid;
    for position := 0 to |scores|
      invariant Framed(before, out[..], at, b.dim)
      invariant AccumulatedRow(exp, entries[..position], maximum, denominator, b.dim, out[at..at + b.dim])
    {
      AddPosition(exp, b, request, qhead, entries, scores[position], position, maximum, denominator, out, at, before);
    }
    assert entries[..|scores|] == entries;
    RowFinished(exp, b, request, qhead, sink, entries, maximum, denominator, out[at..at + b.dim]);
  }

  lemma NothingAccumulated(exp: real -> real, entries: seq<Entry>, maximum: real, z: real, dim: nat, row: seq<real>)
    requires Shaped(entries, dim) && z > 0.0 && |row| == dim && AllZero(row)
    ensures AccumulatedRow(exp, entries[..0], maximum, z, dim, row)
  {
  }

  method AddPosition(exp: real -> real, b: Batch, request: nat, qhead: nat, ghost entries: seq<Entry>,
                     score: Option<real>, position: nat, maximum: real, z: real, out: array<real>, at: nat,
                     ghost before: seq<real>)
    requires Valid(b) && Head(b, request, qhead) && entries == Entries(b, request, qhead) && position < |entries|
    requires ScoreIs(entries[position], score) && at + b.dim <= out.Length && z > 0.0
    requires Framed(before, out[..], at, b.dim)
    requires AccumulatedRow(exp, entries[..position], maximum, z, b.dim, out[at..at + b.dim])
    modifies out
    ensures Framed(before, out[..], at, b.dim)
    ensures AccumulatedRow(exp, entries[..position + 1], maximum, z, b.dim, out[at..at + b.dim])
  {
    EntryIs(b, request, qhead, position);
    hide Score, Hidden, KvHead, AccumulatedRow, Valid, Entries, AddScaled, Probability, ValueRow;
    ghost var row := out[at..at + b.dim];
    if score.Some? {
      var s: real := score.value;
      AddValue(b, request, qhead, position, Probability(exp, s, maximum, z), out, at, before);
    }
    AccumulatedStep(exp, entries, position, maximum, z, b.dim, row, out[at..at + b.dim]);
  }

  method AddValue(b: Batch, request: nat, qhead: nat, position: nat, weight: real, out: array<real>, at: nat,
                  ghost before: seq<real>)
    requires Valid(b) && Head(b, request, qhead) && InContext(b, request, position) && at + b.dim <= out.Length
    requires Framed(before, out[..], at, b.dim)
    modifies out
    ensures Framed(before, out[..], at, b.dim)
    ensures out[at..at + b.dim]
         == AddScaled(old(out[at..at + b.dim]), ValueRow(b, request, KvHead(b, qhead), position), weight)
  {
    hide Valid, AddScaled, CacheRow, KvHead;
    ghost var middle := out[..];
    var base := Locate(b, request, KvHead(b, qhead), position);
    AddRow(out, at, b.value, base, b.dim, weight);
    FramedTwice(before, middle, out[..], at, b.dim);
  }

  lemma RowFinished(exp: real -> real, b: Batch, request: nat, qhead: nat, sink: real, entries: seq<Entry>,
                    maximum: real, z: real, row: seq<real>)
    requires Exponential(exp) && Valid(b) && Plain(b) && Head(b, request, qhead)
    requires entries == Entries(b, request, qhead) && b.sinks.Some? && sink == b.sinks.value[qhead]
    requires z == exp(sink - maximum) + ShiftedTotal(exp, entries, maximum) && z > 0.0
    requires AccumulatedRow(exp, entries, maximum, z, b.dim, row)
    ensures row == HeadOutput(exp, b, request, qhead)
  {
    hide Exponential, ShiftedTotal, Accumulated, Attend, Entries;
    forall d | 0 <= d < b.dim ensures row[d] == HeadOutput(exp, b, request, qhead)[d] {
      ShiftIrrelevant(exp, sink, entries, maximum, b.dim, d);
      TimesZero(row[d]);
    }
  }

  // ---------- whole batches ----------

  /** The first `done` output rows, in row-major order of request and query head, are finished. */
  ghost predicate RowsDone(exp: real -> real, b: Batch, out: seq<real>, done: nat)
    requires Valid(b)
  {
    && |out| == Flat(Flat(b.batch, b.queryHeads, 0), b.dim, 0)
    && forall request: nat, qhead: nat | Head(b, request, qhead) && Flat(request, b.queryHeads, qhead) < done ::
         RowDone(exp, b, out, request, qhead)
  }

  ghost predicate RowDone(exp: real -> real, b: Batch, out: seq<real>, request: nat, qhead: nat)
    requires Valid(b) && Head(b, request, qhead)
  {
    var item := Flat(request, b.queryHeads, qhead);
    Flat(item, b.dim, 0) + b.dim <= |out| && RowOf(out, item, b.dim) == HeadOutput(exp, b, request, qhead)
  }

  lemma HeadWritten(exp: real -> real, b: Batch, before: seq<real>, after: seq<real>, request: nat, qhead: nat)
    requires Valid(b) && Head(b, request, qhead)
    requires RowsDone(exp, b, before, Flat(request, b.queryHeads, qhead))
    requires Framed(before, after, Flat(Flat(request, b.queryHeads, qhead), b.dim, 0), b.dim)
    requires RowDone(exp, b, after, request, qhead)
    ensures RowsDone(exp, b, after, Flat(request, b.queryHeads, qhead) + 1)
  {
    hide HeadOutput, Valid, Framed;
    var item, next := Flat(request, b.queryHeads, qhead), Flat(request, b.queryHeads, qhead) + 1;
    FramedSize(before, after, Flat(item, b.dim, 0), b.dim);
    forall r: nat, h: nat | Head(b, r, h) && Flat(r, b.queryHeads, h) < next ensures RowDone(exp, b, after, r, h) {
      var other := Flat(r, b.queryHeads, h);
      if other == item {
        FlatInjective(r, request, b.queryHeads, h, qhead);
      } else {
        assert RowDone(exp, b, before, r, h);
        OtherRowKept(before, after, item, b.dim, other);
      }
    }
  }

  lemma HeadRow(b: Batch, request: nat, qhead: nat)
    requires Valid(b) && Head(b, request, qhead)
    ensures Flat(Flat(request, b.queryHeads, qhead), b.dim, 0) + b.dim
         <= Flat(Flat(b.batch, b.queryHeads, 0), b.dim, 0)
  {
    FlatOrder(request, b.batch, b.queryHeads, qhead, 0);
    RowInside(Flat(request, b.queryHeads, qhead), Flat(b.batch, b.queryHeads, 0), b.dim);
  }

  lemma NothingDone(exp: real -> real, b: Batch, out: seq<real>)
    requires Valid(b) && |out| == Flat(Flat(b.batch, b.queryHeads, 0), b.dim, 0)
    ensures RowsDone(exp, b, out, 0)
  {
  }

  method MaterializedRow(exp: real -> real, b: Batch, request: nat, qhead: nat, out: array<real>)
    requires Exponential(exp) && Valid(b) && Plain(b) && b.sinks.Some? && Head(b, request, qhead)
    requires out.Length == Flat(Flat(b.batch, b.queryHeads, 0), b.dim, 0)
    requires RowsDone(exp, b, out[..], Flat(request, b.queryHeads, qhead))
    modifies out
    ensures RowsDone(exp, b, out[..], Flat(request, b.queryHeads, qhead) + 1)
  {
    hide RowsDone, Valid, Exponential, HeadOutput;
    HeadRow(b, request, qhead);
    ghost var before := out[..];
    var at := RowMajor(RowMajor(request, b.queryHeads, qhead), b.dim, 0);
    MaterializedHead(exp, b, request, qhead, out, at);
    assert RowOf(out[..], Flat(request, b.queryHeads, qhead), b.dim) == out[at..at + b.dim];
    HeadWritten(exp, b, before, out[..], request, qhead);
  }

  /** materialized_paged_attention */
  method MaterializedPagedAttention(exp: real -> real, b: Batch) returns (out: array<real>)
    requires Exponential(exp) && Valid(b) && Plain(b) && b.sinks.Some?
    ensures RowsDone(exp, b, out[..], Flat(b.batch, b.queryHeads, 0))
  {
    hide RowMajor, Flat, RowsDone, Valid, Exponential, HeadOutput;
    out := new real[RowMajor(RowMajor(b.batch, b.queryHeads, 0), b.dim, 0)](i => 0.0);
    FlatNext(0, b.queryHeads);
    NothingDone(exp, b, out[..]);
    for request := 0 to b.batch
      invariant out.Length == Flat(Flat(b.batch, b.queryHeads, 0), b.dim, 0)
      invariant RowsDone(exp, b, out[..], Flat(request, b.queryHeads, 0))
    {
      for qhead := 0 to b.queryHeads
        invariant out.Length == Flat(Flat(b.batch, b.queryHeads, 0), b.dim, 0)
        invariant RowsDone(exp, b, out[..], Flat(request, b.queryHeads, qhead))
      {
        MaterializedRow(exp, b, request, qhead, out);
        FlatShift(request, b.queryHeads, qhead, 1);
      }
      FlatNext(request, b.queryHeads);
    }
  }

  /** Two complete outputs of the same batch are equal. */
  lemma SameRows(exp: real -> real, b: Batch, x: seq<real>, y: seq<real>)
    requires Valid(b)
    requires RowsDone(exp, b, x, Flat(b.batch, b.queryHeads, 0)) && RowsDone(exp, b, y, Flat(b.batch, b.queryHeads, 0))
    ensures x == y
  {
    var items := Flat(b.batch, b.queryHeads, 0);
    forall item: nat | item < items
      ensures Flat(item, b.dim, 0) + b.dim <= |x| && RowOf(x, item, b.dim) == RowOf(y, item, b.dim)
    {
      FlatSplit(item, b.batch, b.queryHeads);
      var request, qhead := Quot(item, b.queryHeads), Rem(item, b.queryHeads);
      hide HeadOutput, Flat, RowOf, Valid;
      assert RowDone(exp, b, x, request, qhead) && RowDone(exp, b, y, request, qhead);
    }
    EqualRows(x, y, items, b.dim);
  }
}
