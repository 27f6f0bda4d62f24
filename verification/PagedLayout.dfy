/**
 The paged key/value layout of decode attention: how a request, a query head and a position become a masked or a
 scored entry, and that only the logical tokens matter.
 */
module PagedLayout {
  import opened Arith
  import opened Options
  import opened Reals
  import opened Rows
  import opened Softmax

  /** Per key/value head, for caches of FP8 codes; the codes themselves appear as the reals they decode to. */
  datatype Fp8Scales = Fp8Scales(key: seq<real>, value: seq<real>)

  /** A window or a softcap of zero means none. */
  datatype Batch = Batch(q: seq<real>, key: seq<real>, value: seq<real>, table: seq<nat>, mask: seq<int>,
                         context: seq<nat>, alibi: seq<real>, sinks: Option<seq<real>>, fp8: Option<Fp8Scales>,
                         scale: real, window: nat, softcap: real, tanh: real -> real, batch: nat, queryHeads: nat,
                         kvHeads: nat, dim: nat, page: nat, maxBlocks: nat, blocks: nat)

  /** What the benchmark's reference covers. */
  predicate Plain(b: Batch) {
    b.fp8.None? && b.window == 0 && b.softcap <= 0.0
  }

  /** What the kernel validates, and the buffer sizes that go with it. */
  ghost predicate Valid(b: Batch) {
    && b.kvHeads > 0 && b.queryHeads > 0 && b.queryHeads % b.kvHeads == 0 && b.page > 0
    && |b.q| == Flat(Flat(b.batch, b.queryHeads, 0), b.dim, 0)
    && |b.key| == |b.value| == Flat(Flat(Flat(b.blocks, b.page, 0), b.kvHeads, 0), b.dim, 0)
    && |b.table| == Flat(b.batch, b.maxBlocks, 0)
    && |b.mask| == Flat(Flat(b.batch, b.queryHeads, 0), b.maxBlocks, 0)
    && |b.context| == b.batch && |b.alibi| == b.queryHeads
    && (b.sinks.Some? ==> |b.sinks.value| == b.queryHeads)
    && (b.fp8.Some? ==> |b.fp8.value.key| == |b.fp8.value.value| == b.kvHeads)
    && forall r | 0 <= r < b.batch :: ContextFits(b, r)
  }

  ghost predicate ContextFits(b: Batch, r: nat)
    requires b.page > 0 && r < |b.context|
  {
    && b.context[r] <= Flat(b.maxBlocks, b.page, 0)
    && forall position: nat | position < b.context[r] ::
         Flat(r, b.maxBlocks, Quot(position, b.page)) < |b.table| ==>
           b.table[Flat(r, b.maxBlocks, Quot(position, b.page))] < b.blocks
  }

  predicate Head(b: Batch, request: nat, qhead: nat) {
    request < b.batch && qhead < b.queryHeads
  }

  predicate InContext(b: Batch, request: nat, position: nat) {
    request < |b.context| && position < b.context[request]
  }

  /** The key/value head a query head shares. */
  function KvHead(b: Batch, qhead: nat): (kvhead: nat)
    requires Valid(b) && qhead < b.queryHeads
    ensures kvhead < b.kvHeads
  {
    KvHeadInRange(b.queryHeads, b.kvHeads, qhead);
    qhead / (b.queryHeads / b.kvHeads)
  }

  lemma KvHeadInRange(queryHeads: nat, kvHeads: nat, qhead: nat)
    requires kvHeads > 0 && queryHeads % kvHeads == 0 && qhead < queryHeads
    ensures queryHeads / kvHeads > 0 && qhead / (queryHeads / kvHeads) < kvHeads
  {
    var group := queryHeads / kvHeads;
    DivMod(queryHeads, kvHeads);
    QuotRem(queryHeads, kvHeads);
    MulComm(group, kvHeads);
    assert group > 0;
    DivMod(qhead, group);
    FlatProduct(kvHeads, group, 0);
    FlatSplit(qhead, kvHeads, group);
  }

  /** The row of the key and value caches that holds a position, through the block table. */
  function CacheRow(b: Batch, request: nat, kvhead: nat, position: nat): (row: nat)
    requires Valid(b) && request < b.batch && kvhead < b.kvHeads && InContext(b, request, position)
    ensures Flat(row, b.dim, 0) + b.dim <= |b.key| == |b.value|
  {
    var logical := Quot(position, b.page);
    assert ContextFits(b, request);
    FlatSplit(position, b.maxBlocks, b.page);
    FlatOrder(request, b.batch, b.maxBlocks, logical, 0);
    var physical := b.table[Flat(request, b.maxBlocks, logical)];
    FlatOrder(physical, b.blocks, b.page, Rem(position, b.page), 0);
    var slot := Flat(physical, b.page, Rem(position, b.page));
    FlatOrder(slot, Flat(b.blocks, b.page, 0), b.kvHeads, kvhead, 0);
    RowInside(Flat(slot, b.kvHeads, kvhead), Flat(Flat(b.blocks, b.page, 0), b.kvHeads, 0), b.dim);
    Flat(slot, b.kvHeads, kvhead)
  }

  function KeyRow(b: Batch, request: nat, kvhead: nat, position: nat): (row: seq<real>)
    requires Valid(b) && request < b.batch && kvhead < b.kvHeads && InContext(b, request, position)
    ensures |row| == b.dim
  {
    RowOf(b.key, CacheRow(b, request, kvhead, position), b.dim)
  }

  function ValueRow(b: Batch, request: nat, kvhead: nat, position: nat): (row: seq<real>)
    requires Valid(b) && request < b.batch && kvhead < b.kvHeads && InContext(b, request, position)
    ensures |row| == b.dim
  {
    RowOf(b.value, CacheRow(b, request, kvhead, position), b.dim)
  }

  function Query(b: Batch, request: nat, qhead: nat): (row: seq<real>)
    requires Valid(b) && Head(b, request, qhead)
    ensures |row| == b.dim
  {
    FlatOrder(request, b.batch, b.queryHeads, qhead, 0);
    RowInside(Flat(request, b.queryHeads, qhead), Flat(b.batch, b.queryHeads, 0), b.dim);
    RowOf(b.q, Flat(request, b.queryHeads, qhead), b.dim)
  }

  /** A zero in the block mask hides a whole block of positions from a query head. */
  function BlockHidden(b: Batch, request: nat, qhead: nat, position: nat): bool
    requires Valid(b) && Head(b, request, qhead) && InContext(b, request, position)
  {
    assert ContextFits(b, request);
    FlatSplit(position, b.maxBlocks, b.page);
    FlatOrder(request, b.batch, b.queryHeads, qhead, 0);
    FlatOrder(Flat(request, b.queryHeads, qhead), Flat(b.batch, b.queryHeads, 0), b.maxBlocks, Quot(position, b.page), 0);
    b.mask[Flat(Flat(request, b.queryHeads, qhead), b.maxBlocks, Quot(position, b.page))] == 0
  }

  /** The first position inside the sliding window. */
  function WindowStart(b: Batch, request: nat): (start: nat)
    requires request < |b.context|
    ensures start <= b.context[request]
  {
    if b.window == 0 || b.context[request] < b.window then 0 else b.context[request] - b.window
  }

  function Hidden(b: Batch, request: nat, qhead: nat, position: nat): bool
    requires Valid(b) && Head(b, request, qhead) && InContext(b, request, position)
  {
    position < WindowStart(b, request) || BlockHidden(b, request, qhead, position)
  }

  function ScoreScale(b: Batch, kvhead: nat): real
    requires Valid(b) && kvhead < b.kvHeads
  {
    if b.fp8.None? then b.scale else Times(b.scale, b.fp8.value.key[kvhead])
  }

  function ValueScale(b: Batch, kvhead: nat): real
    requires Valid(b) && kvhead < b.kvHeads
  {
    if b.fp8.None? then 1.0 else b.fp8.value.value[kvhead]
  }

  /** capped_score */
  function Capped(b: Batch, score: real): real {
    if b.softcap > 0.0 then Times(b.softcap, b.tanh(score / b.softcap)) else score
  }

  /** Scaled dot product plus the ALiBi bias, which is zero at the newest position. */
  function Score(b: Batch, request: nat, qhead: nat, position: nat): real
    requires Valid(b) && Head(b, request, qhead) && InContext(b, request, position)
  {
    var kvhead := KvHead(b, qhead);
    Capped(b, Times(Dot(Query(b, request, qhead), KeyRow(b, request, kvhead, position)), ScoreScale(b, kvhead))
                + Times(b.alibi[qhead], (position - (b.context[request] - 1)) as real))
  }

  function EntryAt(b: Batch, request: nat, qhead: nat, position: nat): (e: Entry)
    requires Valid(b) && Head(b, request, qhead) && InContext(b, request, position)
    ensures e.Seen? ==> |e.value| == b.dim
  {
    if Hidden(b, request, qhead, position) then Masked
    else Seen(Score(b, request, qhead, position), ValueRow(b, request, KvHead(b, qhead), position))
  }

  /** The logical sequence a query head attends to. */
  function Entries(b: Batch, request: nat, qhead: nat): (entries: seq<Entry>)
    requires Valid(b) && Head(b, request, qhead)
    ensures |entries| == b.context[request] && Shaped(entries, b.dim)
    ensures forall i | 0 <= i < |entries| :: entries[i] == EntryAt(b, request, qhead, i)
  {
    seq(b.context[request], i requires 0 <= i < b.context[request] => EntryAt(b, request, qhead, i))
  }

  lemma EntryIs(b: Batch, request: nat, qhead: nat, position: nat)
    requires Valid(b) && Head(b, request, qhead) && position < |Entries(b, request, qhead)|
    ensures InContext(b, request, position)
    ensures Entries(b, request, qhead)[position] == EntryAt(b, request, qhead, position)
  {
  }

  function SinkOf(b: Batch, qhead: nat): Option<real>
    requires Valid(b) && qhead < b.queryHeads
  {
    if b.sinks.None? then None else Some(b.sinks.value[qhead])
  }

  /** The output row of a request and a query head. */
  function HeadOutput(exp: real -> real, b: Batch, request: nat, qhead: nat): (row: seq<real>)
    requires Valid(b) && Head(b, request, qhead)
    ensures |row| == b.dim
  {
    Scaled(AttendRow(exp, SinkOf(b, qhead), Entries(b, request, qhead), b.dim), ValueScale(b, KvHead(b, qhead)))
  }

  lemma HeadComponent(exp: real -> real, b: Batch, request: nat, qhead: nat, d: nat)
    requires Valid(b) && Head(b, request, qhead) && d < b.dim
    ensures HeadOutput(exp, b, request, qhead)[d]
         == Times(Attend(exp, SinkOf(b, qhead), Entries(b, request, qhead), b.dim, d), ValueScale(b, KvHead(b, qhead)))
  {
    hide Valid, Attend, Entries, KvHead, Times;
  }

  // ---------- what the output is like ----------

  /** Some position is neither outside the window nor hidden by the mask. */
  ghost predicate SomeSeen(b: Batch, request: nat, qhead: nat)
    requires Valid(b) && Head(b, request, qhead)
  {
    exists position: nat :: InContext(b, request, position) && !Hidden(b, request, qhead, position)
  }

  /** A head that sees nothing outputs zeros, with or without a sink. */
  lemma HiddenHeadIsZero(exp: real -> real, b: Batch, request: nat, qhead: nat)
    requires Exponential(exp) && Valid(b) && Head(b, request, qhead) && !SomeSeen(b, request, qhead)
    ensures AllZero(HeadOutput(exp, b, request, qhead))
  {
    var entries, scale := Entries(b, request, qhead), ValueScale(b, KvHead(b, qhead));
    forall i | 0 <= i < |entries| ensures entries[i].Masked? {
      assert InContext(b, request, i);
    }
    TimesZero(scale);
    hide Valid, Hidden, Entries, HeadOutput, Attend, Times;
    forall d | 0 <= d < b.dim ensures HeadOutput(exp, b, request, qhead)[d] == 0.0 {
      HeadComponent(exp, b, request, qhead, d);
      MaskedRowIsZero(exp, SinkOf(b, qhead), entries, b.dim, d);
    }
  }

  /**
   Otherwise, and whenever there is a sink, the shares of the positions and of the sink sum to one, and the output is
   the sum of the value rows, each times its share, times the value scale.
   */
  lemma HeadMixes(exp: real -> real, b: Batch, request: nat, qhead: nat, d: nat)
    requires Exponential(exp) && Valid(b) && Head(b, request, qhead) && d < b.dim
    requires SinkOf(b, qhead).Some? || SomeSeen(b, request, qhead)
    ensures var sink, entries := SinkOf(b, qhead), Entries(b, request, qhead);
      var z := Denominator(exp, sink, entries);
      && z > 0.0 && Shares(exp, entries, z) + Share(exp, SinkWeight(exp, sink), z) == 1.0
      && HeadOutput(exp, b, request, qhead)[d] == Times(Mix(exp, entries, z, b.dim, d), ValueScale(b, KvHead(b, qhead)))
  {
    var sink, entries := SinkOf(b, qhead), Entries(b, request, qhead);
    if sink.None? {
      var position: nat :| InContext(b, request, position) && !Hidden(b, request, qhead, position);
      assert entries[position].Seen?;
    }
    hide Valid, Hidden, Entries, HeadOutput, Attend, Times, Shares, Share, SinkWeight, Denominator, Mix;
    SharesSumToOne(exp, sink, entries);
    AttendIsMix(exp, sink, entries, b.dim, d);
    HeadComponent(exp, b, request, qhead, d);
  }

  /** Component d of every value row that the head sees lies between lo and hi. */
  ghost predicate ValuesBetween(b: Batch, request: nat, qhead: nat, d: nat, lo: real, hi: real)
    requires Valid(b) && Head(b, request, qhead) && d < b.dim
  {
    forall position: nat | InContext(b, request, position) && !Hidden(b, request, qhead, position) ::
      lo <= ValueRow(b, request, KvHead(b, qhead), position)[d] <= hi
  }

  /** The output stays between the bounds of those rows, zero included, times the value scale. */
  lemma HeadBounded(exp: real -> real, b: Batch, request: nat, qhead: nat, d: nat, lo: real, hi: real)
    requires Exponential(exp) && Valid(b) && Head(b, request, qhead) && d < b.dim
    requires lo <= 0.0 <= hi && ValuesBetween(b, request, qhead, d, lo, hi)
    ensures var out, scale := HeadOutput(exp, b, request, qhead)[d], ValueScale(b, KvHead(b, qhead));
      if scale >= 0.0 then Times(lo, scale) <= out <= Times(hi, scale) else Times(hi, scale) <= out <= Times(lo, scale)
  {
    var sink, entries, scale := SinkOf(b, qhead), Entries(b, request, qhead), ValueScale(b, KvHead(b, qhead));
    forall i | 0 <= i < |entries| && entries[i].Seen? ensures lo <= entries[i].value[d] <= hi {
      assert InContext(b, request, i) && !Hidden(b, request, qhead, i);
    }
    assert Between(entries, b.dim, d, lo, hi);
    hide Valid, Hidden, Entries, HeadOutput, Attend, Times, Between;
    HeadComponent(exp, b, request, qhead, d);
    AttendBounded(exp, sink, entries, b.dim, d, lo, hi);
    ScaledBounds(lo, Attend(exp, sink, entries, b.dim, d), hi, scale);
  }

  lemma ScaledBounds(lo: real, x: real, hi: real, scale: real)
    requires lo <= x <= hi
    ensures if scale >= 0.0 then Times(lo, scale) <= Times(x, scale) <= Times(hi, scale)
            else Times(hi, scale) <= Times(x, scale) <= Times(lo, scale)
  {
    if scale >= 0.0 {
      TimesMono(lo, x, scale);
      TimesMono(x, hi, scale);
    } else {
      TimesMono(lo, x, -scale);
      TimesMono(x, hi, -scale);
    }
  }

  // ---------- only the logical tokens matter ----------

  /** Two layouts of the same batch: page size, block table and cache contents may all differ. */
  ghost predicate SameTokens(a: Batch, b: Batch)
    requires Valid(a) && Valid(b)
  {
    && a.batch == b.batch && a.queryHeads == b.queryHeads && a.kvHeads == b.kvHeads && a.dim == b.dim
    && a.q == b.q && a.context == b.context && a.alibi == b.alibi && a.sinks == b.sinks && a.scale == b.scale
    && a.fp8 == b.fp8 && a.window == b.window && a.softcap == b.softcap && a.tanh == b.tanh
    && (forall r: nat, h: nat, position: nat | r < a.batch && h < a.kvHeads && InContext(a, r, position) ::
          KeyRow(a, r, h, position) == KeyRow(b, r, h, position)
          && ValueRow(a, r, h, position) == ValueRow(b, r, h, position))
    && forall r: nat, h: nat, position: nat | Head(a, r, h) && InContext(a, r, position) ::
         Hidden(a, r, h, position) == Hidden(b, r, h, position)
  }

  /** Paged attention depends only on the logical keys, values and mask. */
  lemma LayoutIndependent(exp: real -> real, a: Batch, b: Batch, request: nat, qhead: nat)
    requires Valid(a) && Valid(b) && SameTokens(a, b) && Head(a, request, qhead)
    ensures Head(b, request, qhead) && HeadOutput(exp, a, request, qhead) == HeadOutput(exp, b, request, qhead)
  {
    hide KeyRow, ValueRow, Hidden, Dot, Times;
    SameKvHead(a, b, qhead);
    forall i | 0 <= i < a.context[request]
      ensures EntryAt(a, request, qhead, i) == EntryAt(b, request, qhead, i)
    {
      assert InContext(a, request, i);
    }
    assert Entries(a, request, qhead) == Entries(b, request, qhead);
  }

  lemma SameKvHead(a: Batch, b: Batch, qhead: nat)
    requires Valid(a) && Valid(b) && a.queryHeads == b.queryHeads && a.kvHeads == b.kvHeads && qhead < a.queryHeads
    ensures KvHead(a, qhead) == KvHead(b, qhead)
  {
  }
}
