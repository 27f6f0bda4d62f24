/**
 Paged attention written out over the buffers of a batch: what kernels/attention/attention_serving_ref.cpp and its
 materialized reference compute for query head j of the group that shares a key/value head.
 */
module AttentionFormula {
  import opened Arith
  import opened Options
  import opened Reals
  import opened Rows
  import opened Sums
  import opened Softmax
  import opened PagedLayout
  import opened PagedAttention

  /** The query heads kvhead * group, ..., kvhead * group + group - 1 share key/value head kvhead. */
  lemma SharedHead(b: Batch, kvhead: nat, j: nat)
    requires Valid(b) && kvhead < b.kvHeads && j < Quot(b.queryHeads, b.kvHeads)
    ensures var qhead := RowMajor(kvhead, Quot(b.queryHeads, b.kvHeads), j);
      qhead < b.queryHeads && KvHead(b, qhead) == kvhead
  {
    HeadOfGroup(b.queryHeads, b.kvHeads, kvhead, j);
    hide RowMajor, Quot, ContextFits;
  }

  lemma HeadOfGroup(queryHeads: nat, kvHeads: nat, kvhead: nat, j: nat)
    requires kvHeads > 0 && queryHeads % kvHeads == 0 && kvhead < kvHeads && j < Quot(queryHeads, kvHeads)
    ensures var qhead := RowMajor(kvhead, Quot(queryHeads, kvHeads), j);
      qhead < queryHeads && queryHeads / kvHeads > 0 && qhead / (queryHeads / kvHeads) == kvhead
  {
    var group := Quot(queryHeads, kvHeads);
    DivMod(queryHeads, kvHeads);
    QuotRem(queryHeads, kvHeads);
    MulComm(group, kvHeads);
    FlatProduct(kvHeads, group, 0);
    FlatOrder(kvhead, kvHeads, group, j, 0);
    hide RowMajor;
    DivMod(Flat(kvhead, group, j), group);
    FlatQuotRem(kvhead, group, j);
  }

  /** The cache row of a position. */
  lemma CacheRowIs(b: Batch, request: nat, kvhead: nat, p: nat)
    requires Valid(b) && request < b.batch && kvhead < b.kvHeads && InContext(b, request, p)
    ensures var block := At(b.table, RowMajor(request, b.maxBlocks, Quot(p, b.page)), 0);
      CacheRow(b, request, kvhead, p) == RowMajor(RowMajor(block, b.page, Rem(p, b.page)), b.kvHeads, kvhead)
  {
    hide RowMajor, Flat;
    assert ContextFits(b, request);
    FlatSplit(p, b.maxBlocks, b.page);
    FlatOrder(request, b.batch, b.maxBlocks, Quot(p, b.page), 0);
  }

  lemma HiddenIs(b: Batch, request: nat, qhead: nat, p: nat)
    requires Valid(b) && Head(b, request, qhead) && InContext(b, request, p)
    ensures Hidden(b, request, qhead, p) <==>
      || At(b.mask, RowMajor(RowMajor(request, b.queryHeads, qhead), b.maxBlocks, Quot(p, b.page)), 0) == 0
      || (b.window > 0 && p < b.context[request] - b.window)
  {
    hide RowMajor, Flat;
    assert ContextFits(b, request);
    FlatSplit(p, b.maxBlocks, b.page);
    FlatOrder(request, b.batch, b.queryHeads, qhead, 0);
    FlatOrder(Flat(request, b.queryHeads, qhead), Flat(b.batch, b.queryHeads, 0), b.maxBlocks, Quot(p, b.page), 0);
  }

  lemma DotIs(b: Batch, request: nat, qhead: nat, kvhead: nat, p: nat, item: nat, row: nat, product: nat -> real)
    requires Valid(b) && Head(b, request, qhead) && kvhead < b.kvHeads && InContext(b, request, p)
    requires item == RowMajor(request, b.queryHeads, qhead) && row == CacheRow(b, request, kvhead, p)
    requires forall e: nat | e < b.dim ::
      product(e) == Times(At(b.q, RowMajor(item, b.dim, e), 0.0), At(b.key, RowMajor(row, b.dim, e), 0.0))
    ensures Dot(Query(b, request, qhead), KeyRow(b, request, kvhead, p)) == SumTo(product, b.dim)
  {
    hide CacheRow, RowOf, Flat, At, RowMajor, Times, Dot, SumTo;
    FlatOrder(request, b.batch, b.queryHeads, qhead, 0);
    RowInside(item, Flat(b.batch, b.queryHeads, 0), b.dim);
    var query, key := Query(b, request, qhead), KeyRow(b, request, kvhead, p);
    hide Valid;
    forall e: nat | e < b.dim ensures product(e) == Times(query[e], key[e]) {
      RowElement(b.q, item, b.dim, e, 0.0);
      RowElement(b.key, row, b.dim, e, 0.0);
    }
    DotSum(query, key, product);
  }

  /**
   Position p of a request, for query head qhead, whose rows are those of `item`: `row` is its cache row, `product` the
   products of its inner product, and `score`, `weight` and `term` are its score, its weight and its weighted value.
   */
  ghost predicate PositionIs(exp: real -> real, b: Batch, request: nat, kvhead: nat, qhead: nat, item: nat, d: nat, p: nat,
                             row: nat, product: nat -> real, score: real, weight: real, term: real)
    requires request < |b.context| && b.page > 0 && (b.fp8.Some? ==> kvhead < |b.fp8.value.key|)
  {
    var block := At(b.table, RowMajor(request, b.maxBlocks, Quot(p, b.page)), 0);
    var scale := if b.fp8.None? then b.scale else Times(b.scale, b.fp8.value.key[kvhead]);
    var raw := Times(SumTo(product, b.dim), scale)
             + Times(At(b.alibi, qhead, 0.0), (p as int - (b.context[request] as int - 1)) as real);
    var hidden := || At(b.mask, RowMajor(item, b.maxBlocks, Quot(p, b.page)), 0) == 0
                  || (b.window > 0 && p < b.context[request] - b.window);
    && block >= 0 && row == RowMajor(RowMajor(block, b.page, Rem(p, b.page)), b.kvHeads, kvhead)
    && (forall e: nat | e < b.dim ::
          product(e) == Times(At(b.q, RowMajor(item, b.dim, e), 0.0), At(b.key, RowMajor(row, b.dim, e), 0.0)))
    && score == (if b.softcap > 0.0 then Times(b.softcap, b.tanh(raw / b.softcap)) else raw)
    && weight == (if hidden then 0.0 else exp(score))
    && term == Times(weight, At(b.value, RowMajor(row, b.dim, d), 0.0))
  }

  /** Weight and weighted value of one position. */
  lemma EntryIs(exp: real -> real, b: Batch, request: nat, qhead: nat, kvhead: nat, p: nat, d: nat, item: nat, row: nat,
                product: nat -> real, score: real, weight: real, term: real)
    requires Valid(b) && Head(b, request, qhead) && KvHead(b, qhead) == kvhead < b.kvHeads && InContext(b, request, p)
    requires item == RowMajor(request, b.queryHeads, qhead) && d < b.dim && request < |b.context|
    requires b.fp8.Some? ==> kvhead < |b.fp8.value.key|
    requires PositionIs(exp, b, request, kvhead, qhead, item, d, p, row, product, score, weight, term)
    ensures var e := EntryAt(b, request, qhead, p); WeightOf(exp, e) == weight && Contribution(exp, e, d) == term
  {
    hide CacheRow, RowOf, Flat, RowMajor, Times, Dot, SumTo, KvHead, Quot, Query, KeyRow, Hidden;
    CacheRowIs(b, request, kvhead, p);
    DotIs(b, request, qhead, kvhead, p, item, row, product);
    HiddenIs(b, request, qhead, p);
    assert score == Score(b, request, qhead, p);
    if Hidden(b, request, qhead, p) {
      TimesZero(At(b.value, RowMajor(row, b.dim, d), 0.0));
    } else {
      RowElement(b.value, row, b.dim, d, 0.0);
    }
  }

  lemma {:induction false} SumsOfEntries(exp: real -> real, entries: seq<Entry>, dim: nat, d: nat, weight: nat -> real,
                                         term: nat -> real)
    requires Shaped(entries, dim) && d < dim
    requires forall p: nat | p < |entries| ::
      WeightOf(exp, entries[p]) == weight(p) && Contribution(exp, entries[p], d) == term(p)
    ensures Total(exp, entries) == SumTo(weight, |entries|) && Weighted(exp, entries, dim, d) == SumTo(term, |entries|)
  {
    hide WeightOf, Contribution;
    if entries != [] {
      SumsOfEntries(exp, entries[..|entries| - 1], dim, d, weight, term);
    }
  }

  lemma EntriesAre(exp: real -> real, b: Batch, request: nat, kvhead: nat, qhead: nat, item: nat, d: nat,
                   row: nat -> nat, product: nat -> nat -> real, score: nat -> real, weight: nat -> real,
                   term: nat -> real)
    requires Valid(b) && Head(b, request, qhead) && KvHead(b, qhead) == kvhead < b.kvHeads && d < b.dim
    requires item == RowMajor(request, b.queryHeads, qhead)
    requires forall p: nat | p < b.context[request] ::
      PositionIs(exp, b, request, kvhead, qhead, item, d, p, row(p), product(p), score(p), weight(p), term(p))
    ensures var entries := Entries(b, request, qhead);
      && Shaped(entries, b.dim)
      && Total(exp, entries) == SumTo(weight, b.context[request])
      && Weighted(exp, entries, b.dim, d) == SumTo(term, b.context[request])
  {
    hide RowOf, Flat, RowMajor, Times, SumTo, KvHead, Quot, Rem, WeightOf, Contribution, PositionIs, CacheRow, Hidden, EntryAt;
    var entries := Entries(b, request, qhead);
    forall p: nat | p < |entries|
      ensures WeightOf(exp, entries[p]) == weight(p) && Contribution(exp, entries[p], d) == term(p)
    {
      EntryIs(exp, b, request, qhead, kvhead, p, d, item, row(p), product(p), score(p), weight(p), term(p));
    }
    SumsOfEntries(exp, entries, b.dim, d, weight, term);
  }

  lemma OutputAt(exp: real -> real, b: Batch, out: seq<real>, request: nat, qhead: nat, item: nat, d: nat)
    requires Valid(b) && Head(b, request, qhead) && d < b.dim && item == RowMajor(request, b.queryHeads, qhead)
    requires RowsDone(exp, b, out, Flat(b.batch, b.queryHeads, 0))
    ensures RowMajor(item, b.dim, d) < |out|
    ensures out[RowMajor(item, b.dim, d)] == HeadOutput(exp, b, request, qhead)[d]
  {
    hide HeadOutput, Valid, Flat, RowMajor;
    FlatOrder(request, b.batch, b.queryHeads, qhead, 0);
    assert RowDone(exp, b, out, request, qhead);
    RowElement(out, item, b.dim, d, 0.0);
  }

  // ---------- the formula ----------

  /** Every element of the output, for every query head of every group. */
  lemma OutputWrittenOut(exp: real -> real, b: Batch, out: seq<real>, request: nat, kvhead: nat, j: nat, d: nat,
                         qhead: nat, item: nat, row: nat -> nat, product: nat -> nat -> real, score: nat -> real,
                         weight: nat -> real, term: nat -> real)
    requires Exponential(exp) && Valid(b) && RowsDone(exp, b, out, Flat(b.batch, b.queryHeads, 0))
    requires request < b.batch && kvhead < b.kvHeads && j < Quot(b.queryHeads, b.kvHeads) && d < b.dim
    requires qhead == RowMajor(kvhead, Quot(b.queryHeads, b.kvHeads), j) && item == RowMajor(request, b.queryHeads, qhead)
    requires forall p: nat | p < b.context[request] ::
      PositionIs(exp, b, request, kvhead, qhead, item, d, p, row(p), product(p), score(p), weight(p), term(p))
    ensures var total := SumTo(weight, b.context[request])
                       + if b.sinks.None? then 0.0 else exp(At(b.sinks.value, qhead, 0.0));
      var scale := if b.fp8.None? then 1.0 else b.fp8.value.value[kvhead];
      && RowMajor(item, b.dim, d) < |out|
      && out[RowMajor(item, b.dim, d)]
      == if total > 0.0 then Times(SumTo(term, b.context[request]) / total, scale) else 0.0
  {
    SharedHead(b, kvhead, j);
    hide RowOf, Flat, RowMajor, Times, SumTo, KvHead, Quot, Rem, RowsDone, PositionIs, EntryAt, Shaped;
    EntriesAre(exp, b, request, kvhead, qhead, item, d, row, product, score, weight, term);
    OutputAt(exp, b, out, request, qhead, item, d);
    HeadComponent(exp, b, request, qhead, d);
    hide HeadOutput, Entries, Total, Weighted;
    TimesZero(ValueScale(b, kvhead));
  }
}
