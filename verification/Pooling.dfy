/**
 Pooling image tokens: by coordinate, in any order (kernels/vision/patch_ops_ref.cpp and its scalar reference in
 benchmarks/cases/basert.cpp), and by regular windows (benchmarks/cases/basert.cpp).
 */
module Pooling {
  import opened Arith
  import opened Options
  import opened Reals
  import opened Rows
  import opened Sums
  import opened Ranking

  // ---------- coordinate pooling ----------

  datatype Tokens = Tokens(x: seq<real>, positions: seq<int>, valid: seq<int>, count: nat, channels: nat, length: nat,
                           kernel: nat, width: nat, scale: real)

  predicate Shaped(p: Tokens) {
    && p.kernel > 0 && p.width % p.kernel == 0
    && |p.x| == Flat(p.count, p.channels, 0) && |p.positions| == 2 * p.count && |p.valid| == p.count
  }

  /** The bucket of a token; tokens that are masked, negative or past the end have none. */
  function BucketOf(p: Tokens, t: nat): (b: Option<nat>)
    requires Shaped(p) && t < p.count
    ensures b.Some? ==> b.value < p.length
  {
    var px, py := p.positions[2 * t], p.positions[2 * t + 1];
    if p.valid[t] == 0 || px < 0 || py < 0 then None
    else
      var bucket := Flat(Quot(py, p.kernel), Quot(p.width, p.kernel), Quot(px, p.kernel));
      if bucket >= p.length then None else Some(bucket)
  }

  function Contribution(p: Tokens, t: nat, d: nat): real
    requires Shaped(p) && t < p.count && d < p.channels
  {
    FlatOrder(t, p.count, p.channels, d, 0);
    Times(p.x[Flat(t, p.channels, d)], p.scale)
  }

  /** What the first n tokens leave in a bucket. */
  function BucketSum(p: Tokens, n: nat, b: nat, d: nat): real
    requires Shaped(p) && n <= p.count && d < p.channels
  {
    if n == 0 then 0.0
    else BucketSum(p, n - 1, b, d) + (if BucketOf(p, n - 1) == Some(b) then Contribution(p, n - 1, d) else 0.0)
  }

  function Hit(p: Tokens, n: nat, b: nat): bool
    requires Shaped(p) && n <= p.count
  {
    exists t: nat :: t < n && BucketOf(p, t) == Some(b)
  }

  /** Tokens before n are added, and of token n the channels before `done`. */
  ghost predicate Pooled(p: Tokens, out: seq<real>, n: nat, done: nat)
    requires Shaped(p) && n <= p.count && (done > 0 ==> n < p.count)
  {
    && |out| == Flat(p.length, p.channels, 0)
    && forall b: nat, d: nat | b < p.length && d < p.channels :: PooledAt(p, out, n, done, b, d)
  }

  ghost predicate PooledAt(p: Tokens, out: seq<real>, n: nat, done: nat, b: nat, d: nat)
    requires Shaped(p) && n <= p.count && (done > 0 ==> n < p.count) && d < p.channels
  {
    && Flat(b, p.channels, d) < |out|
    && out[Flat(b, p.channels, d)]
       == BucketSum(p, if done > 0 && d < done && BucketOf(p, n) == Some(b) then n + 1 else n, b, d)
  }

  lemma NothingPooled(p: Tokens, out: seq<real>)
    requires Shaped(p) && |out| == Flat(p.length, p.channels, 0) && forall i | 0 <= i < |out| :: out[i] == 0.0
    ensures Pooled(p, out, 0, 0)
  {
    forall b: nat, d: nat | b < p.length && d < p.channels ensures PooledAt(p, out, 0, 0, b, d) {
      FlatOrder(b, p.length, p.channels, d, 0);
    }
  }

  lemma ChannelAdded(p: Tokens, before: seq<real>, after: seq<real>, n: nat, b: nat, c: nat)
    requires Shaped(p) && n < p.count && BucketOf(p, n) == Some(b) && c < p.channels
    requires Pooled(p, before, n, c) && Flat(b, p.channels, c) < |before|
    requires after == before[Flat(b, p.channels, c) := before[Flat(b, p.channels, c)] + Contribution(p, n, c)]
    ensures Pooled(p, after, n, c + 1)
  {
    hide Contribution, BucketOf;
    var next := c + 1;
    forall a: nat, d: nat | a < p.length && d < p.channels ensures PooledAt(p, after, n, next, a, d) {
      assert PooledAt(p, before, n, c, a, d);
      if Flat(a, p.channels, d) == Flat(b, p.channels, c) {
        FlatInjective(a, b, p.channels, d, c);
      }
    }
  }

  lemma TokenPooled(p: Tokens, out: seq<real>, n: nat, done: nat)
    requires Shaped(p) && n < p.count && Pooled(p, out, n, done)
    requires done == if BucketOf(p, n).Some? then p.channels else 0
    ensures Pooled(p, out, n + 1, 0)
  {
    hide Contribution, BucketOf;
    var next := n + 1;
    forall b: nat, d: nat | b < p.length && d < p.channels ensures PooledAt(p, out, next, 0, b, d) {
      assert PooledAt(p, out, n, done, b, d);
    }
  }

  /** pool_tokens_by_position for one batch item. */
  method PoolItem(p: Tokens) returns (out: array<real>, mask: array<nat>)
    requires Shaped(p)
    ensures Pooled(p, out[..], p.count, 0)
    ensures mask.Length == p.length && forall b: nat | b < p.length :: mask[b] == if Hit(p, p.count, b) then 1 else 0
  {
    hide RowMajor;
    out := new real[RowMajor(p.length, p.channels, 0)](i => 0.0);
    mask := new nat[p.length](i => 0);
    NothingPooled(p, out[..]);
    hide Pooled, BucketOf;
    for token := 0 to p.count
      invariant Pooled(p, out[..], token, 0)
      invariant forall b: nat | b < p.length :: mask[b] == if Hit(p, token, b) then 1 else 0
    {
      var bucket := FindBucket(p, token);
      if bucket.Some? {
        mask[bucket.value] := 1;
        AddToken(p, out, token, bucket.value);
      }
      TokenPooled(p, out[..], token, if bucket.Some? then p.channels else 0);
      HitStep(p, token);
    }
  }

  lemma HitStep(p: Tokens, n: nat)
    requires Shaped(p) && n < p.count
    ensures forall b: nat :: Hit(p, n + 1, b) <==> Hit(p, n, b) || BucketOf(p, n) == Some(b)
  {
  }

  method FindBucket(p: Tokens, t: nat) returns (b: Option<nat>)
    requires Shaped(p) && t < p.count
    ensures b == BucketOf(p, t)
  {
    var px, py := p.positions[2 * t], p.positions[2 * t + 1];
    if p.valid[t] == 0 || px < 0 || py < 0 {
      return None;
    }
    DivMod(px, p.kernel);
    DivMod(py, p.kernel);
    DivMod(p.width, p.kernel);
    FlatProduct(Quot(py, p.kernel), Quot(p.width, p.kernel), Quot(px, p.kernel));
    MulComm(p.width / p.kernel, py / p.kernel);
    var bucket := px / p.kernel + p.width / p.kernel * (py / p.kernel);
    b := if bucket >= p.length then None else Some(bucket);
  }

  method AddToken(p: Tokens, out: array<real>, token: nat, bucket: nat)
    requires Shaped(p) && token < p.count && BucketOf(p, token) == Some(bucket) && Pooled(p, out[..], token, 0)
    modifies out
    ensures Pooled(p, out[..], token, p.channels)
  {
    hide RowMajor, BucketOf, Times;
    for channel := 0 to p.channels
      invariant Pooled(p, out[..], token, channel)
    {
      FlatOrder(token, p.count, p.channels, channel, 0);
      FlatOrder(bucket, p.length, p.channels, channel, 0);
      ghost var before := out[..];
      var at := RowMajor(bucket, p.channels, channel);
      out[at] := out[at] + Times(p.x[RowMajor(token, p.channels, channel)], p.scale);
      ChannelAdded(p, before, out[..], token, bucket, channel);
    }
  }

  // ---------- all batch items ----------

  /** The items of a batch, one after the other. */
  datatype TokenBatch = TokenBatch(x: seq<real>, positions: seq<int>, valid: seq<int>, batch: nat, count: nat,
                                   channels: nat, length: nat, kernel: nat, width: nat, scale: real)

  predicate ShapedBatch(m: TokenBatch) {
    && m.kernel > 0 && m.width % m.kernel == 0
    && |m.x| == Flat(m.batch, Flat(m.count, m.channels, 0), 0)
    && |m.positions| == Flat(m.batch, 2 * m.count, 0) && |m.valid| == Flat(m.batch, m.count, 0)
  }

  function ItemOf(m: TokenBatch, item: nat): (p: Tokens)
    requires ShapedBatch(m) && item < m.batch
    ensures Shaped(p) && p.count == m.count && p.channels == m.channels && p.length == m.length
  {
    RowInside(item, m.batch, Flat(m.count, m.channels, 0));
    RowInside(item, m.batch, 2 * m.count);
    RowInside(item, m.batch, m.count);
    Tokens(RowOf(m.x, item, Flat(m.count, m.channels, 0)), RowOf(m.positions, item, 2 * m.count),
           RowOf(m.valid, item, m.count), m.count, m.channels, m.length, m.kernel, m.width, m.scale)
  }

  function OutputSize(m: TokenBatch): nat {
    Flat(m.length, m.channels, 0)
  }

  /** The first `done` items have their buckets and their masks. */
  ghost predicate ItemsPooled(m: TokenBatch, out: seq<real>, mask: seq<nat>, done: nat)
    requires ShapedBatch(m)
  {
    && |out| == Flat(m.batch, OutputSize(m), 0) && |mask| == Flat(m.batch, m.length, 0)
    && forall item: nat | item < done && item < m.batch :: ItemPooled(m, out, mask, item)
  }

  ghost predicate ItemPooled(m: TokenBatch, out: seq<real>, mask: seq<nat>, item: nat)
    requires ShapedBatch(m) && item < m.batch
  {
    && Flat(item, OutputSize(m), 0) + OutputSize(m) <= |out| && Flat(item, m.length, 0) + m.length <= |mask|
    && ItemDone(ItemOf(m, item), RowOf(out, item, OutputSize(m)), RowOf(mask, item, m.length))
  }

  ghost predicate ItemDone(p: Tokens, out: seq<real>, mask: seq<nat>)
    requires Shaped(p)
  {
    && Pooled(p, out, p.count, 0) && |mask| == p.length
    && forall b: nat | b < p.length :: mask[b] == if Hit(p, p.count, b) then 1 else 0
  }

  lemma NoItemPooled(m: TokenBatch, out: seq<real>, mask: seq<nat>)
    requires ShapedBatch(m) && |out| == Flat(m.batch, OutputSize(m), 0) && |mask| == Flat(m.batch, m.length, 0)
    ensures ItemsPooled(m, out, mask, 0)
  {
  }

  /** pool_tokens_by_position */
  method PoolTokens(m: TokenBatch) returns (out: array<real>, mask: array<nat>)
    requires ShapedBatch(m)
    ensures ItemsPooled(m, out[..], mask[..], m.batch)
  {
    out := new real[RowMajor(m.batch, RowMajor(m.length, m.channels, 0), 0)](i => 0.0);
    mask := new nat[RowMajor(m.batch, m.length, 0)](i => 0);
    NoItemPooled(m, out[..], mask[..]);
    hide *;
    for item := 0 to m.batch
      invariant ItemsPooled(m, out[..], mask[..], item)
    {
      PoolInto(m, item, out, mask);
    }
  }

  method PoolInto(m: TokenBatch, item: nat, out: array<real>, mask: array<nat>)
    requires ShapedBatch(m) && item < m.batch && ItemsPooled(m, out[..], mask[..], item)
    modifies out, mask
    ensures ItemsPooled(m, out[..], mask[..], item + 1)
  {
    hide ItemsPooled, ShapedBatch, Shaped, Flat, Pooled, Hit;
    ghost var out0, mask0 := out[..], mask[..];
    var one, hits := PoolItem(ItemOf(m, item));
    assert out[..] == out0 && mask[..] == mask0;
    assert ItemDone(ItemOf(m, item), one[..], hits[..]);
    StoreItem(m, item, one[..], hits[..], out, mask);
  }

  method StoreItem(m: TokenBatch, item: nat, one: seq<real>, hits: seq<nat>, out: array<real>, mask: array<nat>)
    requires ShapedBatch(m) && item < m.batch && ItemsPooled(m, out[..], mask[..], item)
    requires ItemDone(ItemOf(m, item), one, hits)
    modifies out, mask
    ensures ItemsPooled(m, out[..], mask[..], item + 1)
  {
    RowInside(item, m.batch, OutputSize(m));
    RowInside(item, m.batch, m.length);
    assert |one| == OutputSize(m) && |hits| == m.length;
    hide ItemDone, ItemOf, Flat, RowOf, Framed, OutputSize, ShapedBatch;
    ghost var out0, mask0 := out[..], mask[..];
    PutRow(out, item, |one|, one);
    PutRow(mask, item, |hits|, hits);
    forall other: nat | other < item ensures ItemPooled(m, out[..], mask[..], other) {
      assert ItemPooled(m, out0, mask0, other);
      RowsExtended(out0, out[..], item, m.batch, OutputSize(m), other);
      RowsExtended(mask0, mask[..], item, m.batch, m.length, other);
    }
  }

  // ---------- conservation ----------

  /** The total over all buckets of one channel. */
  function AllBuckets(p: Tokens, n: nat, m: nat, d: nat): real
    requires Shaped(p) && n <= p.count && d < p.channels
  {
    if m == 0 then 0.0 else AllBuckets(p, n, m - 1, d) + BucketSum(p, n, m - 1, d)
  }

  /** The total input of the tokens that have a bucket. */
  function AcceptedInput(p: Tokens, n: nat, d: nat): real
    requires Shaped(p) && n <= p.count && d < p.channels
  {
    if n == 0 then 0.0
    else
      FlatOrder(n - 1, p.count, p.channels, d, 0);
      AcceptedInput(p, n - 1, d) + (if BucketOf(p, n - 1).Some? then p.x[Flat(n - 1, p.channels, d)] else 0.0)
  }

  lemma {:induction false} OneMoreToken(p: Tokens, n: nat, m: nat, d: nat)
    requires Shaped(p) && n < p.count && d < p.channels && m <= p.length
    ensures AllBuckets(p, n + 1, m, d) == AllBuckets(p, n, m, d)
              + (if BucketOf(p, n).Some? && BucketOf(p, n).value < m then Contribution(p, n, d) else 0.0)
    decreases m
  {
    hide Contribution, BucketOf;
    if m > 0 {
      OneMoreToken(p, n, m - 1, d);
    }
  }

  lemma {:induction false} NoTokens(p: Tokens, m: nat, d: nat)
    requires Shaped(p) && d < p.channels
    ensures AllBuckets(p, 0, m, d) == 0.0
    decreases m
  {
    if m > 0 {
      NoTokens(p, m - 1, d);
    }
  }

  /** Whatever the coordinates, the total output of a channel is the scaled total of the accepted input. */
  lemma {:induction false} PoolingConserves(p: Tokens, n: nat, d: nat)
    requires Shaped(p) && n <= p.count && d < p.channels
    ensures AllBuckets(p, n, p.length, d) == Times(AcceptedInput(p, n, d), p.scale)
    decreases n
  {
    if n == 0 {
      NoTokens(p, p.length, d);
      TimesZero(p.scale);
    } else {
      PoolingConserves(p, n - 1, d);
      OneMoreToken(p, n - 1, p.length, d);
      FlatOrder(n - 1, p.count, p.channels, d, 0);
      hide Times, BucketOf, AllBuckets;
      TimesAdd(AcceptedInput(p, n - 1, d), p.x[Flat(n - 1, p.channels, d)], p.scale);
    }
  }

  // ---------- regular average pooling ----------

  datatype Image = Image(x: seq<real>, height: nat, width: nat, channels: nat, kernel: nat)

  predicate Sized(g: Image) {
    g.kernel > 0 && |g.x| == Flat(Flat(g.height, g.width, 0), g.channels, 0)
  }

  function Pixel(g: Image, y: nat, x: nat, c: nat): real
    requires Sized(g) && y < g.height && x < g.width && c < g.channels
  {
    FlatOrder(y, g.height, g.width, x, 0);
    FlatOrder(Flat(y, g.width, x), Flat(g.height, g.width, 0), g.channels, c, 0);
    g.x[Flat(Flat(y, g.width, x), g.channels, c)]
  }

  predicate Window(g: Image, oy: nat, ox: nat, c: nat) {
    g.kernel > 0 && oy < Quot(g.height, g.kernel) && ox < Quot(g.width, g.kernel) && c < g.channels
  }

  /** The first n pixels of line ky of a window. */
  function LineSum(g: Image, oy: nat, ox: nat, c: nat, ky: nat, n: nat): real
    requires Sized(g) && Window(g, oy, ox, c) && ky < g.kernel && n <= g.kernel
  {
    if n == 0 then 0.0
    else
      InTile(g.height, g.kernel, oy, ky);
      InTile(g.width, g.kernel, ox, n - 1);
      LineSum(g, oy, ox, c, ky, n - 1) + Pixel(g, Flat(oy, g.kernel, ky), Flat(ox, g.kernel, n - 1), c)
  }

  function WindowSum(g: Image, oy: nat, ox: nat, c: nat, n: nat): real
    requires Sized(g) && Window(g, oy, ox, c) && n <= g.kernel
  {
    if n == 0 then 0.0 else WindowSum(g, oy, ox, c, n - 1) + LineSum(g, oy, ox, c, n - 1, g.kernel)
  }

  function Average(g: Image, oy: nat, ox: nat, c: nat): real
    requires Sized(g) && Window(g, oy, ox, c)
  {
    WindowSum(g, oy, ox, c, g.kernel) / Area(g.kernel)
  }

  function Area(kernel: nat): (a: real)
    requires kernel > 0
    ensures a > 0.0
  {
    (kernel * kernel) as real
  }

  /** The window loops of the average pool. */
  method WindowTotal(g: Image, oy: nat, ox: nat, c: nat) returns (sum: real)
    requires Sized(g) && Window(g, oy, ox, c)
    ensures sum == WindowSum(g, oy, ox, c, g.kernel)
  {
    hide RowMajor, Sized;
    sum := 0.0;
    for ky := 0 to g.kernel
      invariant sum == WindowSum(g, oy, ox, c, ky)
    {
      ghost var start := sum;
      for kx := 0 to g.kernel
        invariant sum == start + LineSum(g, oy, ox, c, ky, kx)
      {
        InTile(g.height, g.kernel, oy, ky);
        InTile(g.width, g.kernel, ox, kx);
        PixelIndex(g, Flat(oy, g.kernel, ky), Flat(ox, g.kernel, kx), c);
        sum := sum + g.x[RowMajor(RowMajor(RowMajor(oy, g.kernel, ky), g.width, RowMajor(ox, g.kernel, kx)), g.channels, c)];
      }
    }
  }

  lemma PixelIndex(g: Image, y: nat, x: nat, c: nat)
    requires Sized(g) && y < g.height && x < g.width && c < g.channels
    ensures Flat(Flat(y, g.width, x), g.channels, c) < |g.x|
    ensures Pixel(g, y, x, c) == g.x[Flat(Flat(y, g.width, x), g.channels, c)]
  {
    FlatOrder(y, g.height, g.width, x, 0);
    FlatOrder(Flat(y, g.width, x), Flat(g.height, g.width, 0), g.channels, c, 0);
  }

  /** One output of the average pool. */
  method AveragePoolAt(g: Image, oy: nat, ox: nat, c: nat) returns (mean: real)
    requires Sized(g) && Window(g, oy, ox, c)
    ensures mean == Average(g, oy, ox, c)
  {
    var sum := WindowTotal(g, oy, ox, c);
    mean := sum / Area(g.kernel);
  }

  /** The first `done` outputs, in row-major order, are window averages. */
  ghost predicate Averaged(g: Image, out: seq<real>, done: nat)
    requires Sized(g)
  {
    && |out| == Flat(Flat(Quot(g.height, g.kernel), Quot(g.width, g.kernel), 0), g.channels, 0)
    && forall oy: nat, ox: nat, c: nat | Window(g, oy, ox, c) && OutIndex(g, oy, ox, c) < done ::
         AveragedAt(g, out, oy, ox, c)
  }

  function OutIndex(g: Image, oy: nat, ox: nat, c: nat): nat
    requires Sized(g)
  {
    Flat(Flat(oy, Quot(g.width, g.kernel), ox), g.channels, c)
  }

  ghost predicate AveragedAt(g: Image, out: seq<real>, oy: nat, ox: nat, c: nat)
    requires Sized(g) && Window(g, oy, ox, c)
  {
    OutIndex(g, oy, ox, c) < |out| && out[OutIndex(g, oy, ox, c)] == Average(g, oy, ox, c)
  }

  lemma NothingAveraged(g: Image, out: seq<real>)
    requires Sized(g) && |out| == Flat(Flat(Quot(g.height, g.kernel), Quot(g.width, g.kernel), 0), g.channels, 0)
    ensures Averaged(g, out, 0)
  {
  }

  lemma OutInRange(g: Image, oy: nat, ox: nat, c: nat)
    requires Sized(g) && Window(g, oy, ox, c)
    ensures OutIndex(g, oy, ox, c) < Flat(Flat(Quot(g.height, g.kernel), Quot(g.width, g.kernel), 0), g.channels, 0)
  {
    FlatOrder(oy, Quot(g.height, g.kernel), Quot(g.width, g.kernel), ox, 0);
    FlatOrder(Flat(oy, Quot(g.width, g.kernel), ox), Flat(Quot(g.height, g.kernel), Quot(g.width, g.kernel), 0),
              g.channels, c, 0);
  }

  lemma AverageWritten(g: Image, before: seq<real>, after: seq<real>, oy: nat, ox: nat, c: nat)
    requires Sized(g) && Window(g, oy, ox, c) && Averaged(g, before, OutIndex(g, oy, ox, c)) && |after| == |before|
    requires forall i | 0 <= i < |after| && i != OutIndex(g, oy, ox, c) :: after[i] == before[i]
    requires AveragedAt(g, after, oy, ox, c)
    ensures Averaged(g, after, OutIndex(g, oy, ox, c) + 1)
  {
    hide Average, Sized;
    var next := OutIndex(g, oy, ox, c) + 1;
    forall y: nat, x: nat, d: nat | Window(g, y, x, d) && OutIndex(g, y, x, d) < next
      ensures AveragedAt(g, after, y, x, d)
    {
      if OutIndex(g, y, x, d) == OutIndex(g, oy, ox, c) {
        FlatInjective(Flat(y, Quot(g.width, g.kernel), x), Flat(oy, Quot(g.width, g.kernel), ox), g.channels, d, c);
        FlatInjective(y, oy, Quot(g.width, g.kernel), x, ox);
      } else {
        assert AveragedAt(g, before, y, x, d);
      }
    }
  }

  method StoreAverage(g: Image, out: array<real>, oy: nat, ox: nat, c: nat)
    requires Sized(g) && Window(g, oy, ox, c) && Averaged(g, out[..], OutIndex(g, oy, ox, c))
    modifies out
    ensures Averaged(g, out[..], OutIndex(g, oy, ox, c) + 1)
  {
    OutInRange(g, oy, ox, c);
    hide Average, RowMajor;
    var mean := AveragePoolAt(g, oy, ox, c);
    ghost var before := out[..];
    out[RowMajor(RowMajor(oy, Quot(g.width, g.kernel), ox), g.channels, c)] := mean;
    AverageWritten(g, before, out[..], oy, ox, c);
  }

  /** The average pool reference. */
  method AveragePool(g: Image) returns (out: array<real>)
    requires Sized(g)
    ensures Averaged(g, out[..], Flat(Flat(Quot(g.height, g.kernel), Quot(g.width, g.kernel), 0), g.channels, 0))
  {
    hide Averaged, Flat, Quot;
    var oh, ow := Quot(g.height, g.kernel), Quot(g.width, g.kernel);
    out := new real[Flat(Flat(oh, ow, 0), g.channels, 0)](i => 0.0);
    NothingAveraged(g, out[..]);
    hide Sized;
    FlatNext(0, ow);
    FlatNext(0, g.channels);
    for oy := 0 to oh
      invariant Averaged(g, out[..], Flat(Flat(oy, ow, 0), g.channels, 0))
    {
      for ox := 0 to ow
        invariant Averaged(g, out[..], Flat(Flat(oy, ow, ox), g.channels, 0))
      {
        for c := 0 to g.channels
          invariant Averaged(g, out[..], Flat(Flat(oy, ow, ox), g.channels, c))
        {
          StoreAverage(g, out, oy, ox, c);
          FlatShift(Flat(oy, ow, ox), g.channels, c, 1);
        }
        FlatNext(Flat(oy, ow, ox), g.channels);
        FlatShift(oy, ow, ox, 1);
      }
      FlatNext(oy, ow);
    }
  }

  // ---------- a batch of images ----------

  datatype ImageBatch = ImageBatch(x: seq<real>, batch: nat, height: nat, width: nat, channels: nat, kernel: nat)

  function ImageSize(m: ImageBatch): nat {
    Flat(Flat(m.height, m.width, 0), m.channels, 0)
  }

  predicate SizedBatch(m: ImageBatch) {
    m.kernel > 0 && |m.x| == Flat(m.batch, ImageSize(m), 0)
  }

  function ImageOf(m: ImageBatch, item: nat): (g: Image)
    requires SizedBatch(m) && item < m.batch
    ensures Sized(g) && g.height == m.height && g.width == m.width && g.channels == m.channels && g.kernel == m.kernel
  {
    RowInside(item, m.batch, ImageSize(m));
    Image(RowOf(m.x, item, ImageSize(m)), m.height, m.width, m.channels, m.kernel)
  }

  function AverageSize(m: ImageBatch): nat
    requires m.kernel > 0
  {
    Flat(Flat(Quot(m.height, m.kernel), Quot(m.width, m.kernel), 0), m.channels, 0)
  }

  /** The first `done` items are averaged. */
  ghost predicate ImagesAveraged(m: ImageBatch, out: seq<real>, done: nat)
    requires SizedBatch(m)
  {
    && |out| == Flat(m.batch, AverageSize(m), 0)
    && forall item: nat | item < done && item < m.batch :: ImageAveraged(m, out, item)
  }

  ghost predicate ImageAveraged(m: ImageBatch, out: seq<real>, item: nat)
    requires SizedBatch(m) && item < m.batch
  {
    && Flat(item, AverageSize(m), 0) + AverageSize(m) <= |out|
    && Averaged(ImageOf(m, item), RowOf(out, item, AverageSize(m)), AverageSize(m))
  }

  /** avg_pool2d_tokens with square windows that do not overlap. */
  method AveragePools(m: ImageBatch) returns (out: array<real>)
    requires SizedBatch(m)
    ensures ImagesAveraged(m, out[..], m.batch)
  {
    out := new real[Flat(m.batch, AverageSize(m), 0)](i => 0.0);
    for item := 0 to m.batch
      invariant ImagesAveraged(m, out[..], item)
    {
      AverageInto(m, item, out);
    }
  }

  method AverageInto(m: ImageBatch, item: nat, out: array<real>)
    requires SizedBatch(m) && item < m.batch && ImagesAveraged(m, out[..], item)
    modifies out
    ensures ImagesAveraged(m, out[..], item + 1)
  {
    hide Flat, Averaged, Quot;
    RowInside(item, m.batch, AverageSize(m));
    ghost var before := out[..];
    var one := AveragePool(ImageOf(m, item));
    AveragedLength(ImageOf(m, item), one[..], AverageSize(m));
    assert out[..] == before;
    hide SizedBatch, AverageSize, RowOf, Framed;
    PutRow(out, item, one.Length, one[..]);
    forall other: nat | other < item ensures ImageAveraged(m, out[..], other) {
      assert ImageAveraged(m, before, other);
      RowsExtended(before, out[..], item, m.batch, AverageSize(m), other);
    }
  }

  lemma AveragedLength(g: Image, out: seq<real>, done: nat)
    requires Sized(g) && Averaged(g, out, done)
    ensures |out| == Flat(Flat(Quot(g.height, g.kernel), Quot(g.width, g.kernel), 0), g.channels, 0)
  {
  }

  // ---------- the two agree on complete grids ----------

  predicate OnGrid(p: Tokens, g: Image, t: nat)
    requires Shaped(p) && t < p.count
  {
    p.valid[t] != 0 && 0 <= p.positions[2 * t] < g.width && 0 <= p.positions[2 * t + 1] < g.height
  }

  /** The spatial index of a token. */
  function PlaceOf(p: Tokens, g: Image, t: nat): nat
    requires Shaped(p) && t < p.count && OnGrid(p, g, t)
  {
    Flat(p.positions[2 * t + 1], g.width, p.positions[2 * t])
  }

  /** The tokens are the pixels of a kernel-divisible image, each once, in any order. */
  ghost predicate CompleteGrid(p: Tokens, g: Image) {
    && Shaped(p) && Sized(g)
    && p.channels == g.channels && p.kernel == g.kernel && p.width == g.width
    && Rem(g.height, g.kernel) == 0 && Rem(g.width, g.kernel) == 0
    && p.length == Flat(Quot(g.height, g.kernel), Quot(g.width, g.kernel), 0)
    && p.count == Flat(g.height, g.width, 0)
    && (forall t: nat | t < p.count :: OnGrid(p, g, t))
    && (forall t: nat, u: nat | t < u < p.count && OnGrid(p, g, t) && OnGrid(p, g, u) ::
          PlaceOf(p, g, t) != PlaceOf(p, g, u))
    && forall t: nat, c: nat | t < p.count && c < p.channels :: SameValue(p, g, t, c)
  }

  ghost predicate SameValue(p: Tokens, g: Image, t: nat, c: nat)
    requires Shaped(p) && Sized(g) && t < p.count && c < p.channels && p.channels == g.channels
  {
    OnGrid(p, g, t) ==>
      Flat(t, p.channels, c) < |p.x|
      && p.x[Flat(t, p.channels, c)] == Pixel(g, p.positions[2 * t + 1], p.positions[2 * t], c)
  }

  /** The scaled pixel at spatial index j, when it lies in window (oy, ox). */
  function CellValue(g: Image, scale: real, oy: nat, ox: nat, c: nat, j: nat): real
    requires Sized(g) && Window(g, oy, ox, c)
  {
    if j < Flat(g.height, g.width, 0) then
      FlatSplit(j, g.height, g.width);
      var y, x := Quot(j, g.width), Rem(j, g.width);
      if Quot(y, g.kernel) == oy && Quot(x, g.kernel) == ox then Times(Pixel(g, y, x, c), scale) else 0.0
    else 0.0
  }

  function Cells(g: Image, scale: real, oy: nat, ox: nat, c: nat): nat -> real
    requires Sized(g) && Window(g, oy, ox, c)
  {
    (j: nat) => CellValue(g, scale, oy, ox, c, j)
  }

  function Places(p: Tokens, g: Image): (s: seq<nat>)
    requires CompleteGrid(p, g)
    ensures |s| == p.count && forall t | 0 <= t < |s| :: OnGrid(p, g, t) && s[t] == PlaceOf(p, g, t)
  {
    seq(p.count, t requires 0 <= t < p.count => assert OnGrid(p, g, t); PlaceOf(p, g, t))
  }

  /** A token's share of a bucket is its pixel's share of the window. */
  lemma TokenIsCell(p: Tokens, g: Image, oy: nat, ox: nat, c: nat, t: nat)
    requires CompleteGrid(p, g) && Window(g, oy, ox, c) && t < p.count
    ensures (if BucketOf(p, t) == Some(Flat(oy, Quot(g.width, g.kernel), ox)) then Contribution(p, t, c) else 0.0)
         == CellValue(g, p.scale, oy, ox, c, Places(p, g)[t])
  {
    hide Times;
    assert OnGrid(p, g, t) && SameValue(p, g, t, c);
    var px, py: nat := p.positions[2 * t], p.positions[2 * t + 1];
    var k, pw := g.kernel, Quot(g.width, g.kernel);
    FlatQuotRem(py, g.width, px);
    FlatOrder(py, g.height, g.width, px, 0);
    TileOf(g.width, k, px);
    TileOf(g.height, k, py);
    FlatOrder(Quot(py, k), Quot(g.height, k), pw, Quot(px, k), 0);
    if Flat(Quot(py, k), pw, Quot(px, k)) == Flat(oy, pw, ox) {
      FlatInjective(Quot(py, k), oy, pw, Quot(px, k), ox);
    }
  }

  lemma {:induction false} BucketIsSum(p: Tokens, g: Image, oy: nat, ox: nat, c: nat, n: nat)
    requires CompleteGrid(p, g) && Window(g, oy, ox, c) && n <= p.count
    ensures BucketSum(p, n, Flat(oy, Quot(g.width, g.kernel), ox), c)
         == SumOver(Cells(g, p.scale, oy, ox, c), Places(p, g)[..n])
    decreases n
  {
    hide CellValue, BucketOf, Contribution, Places, Flat, Quot, OnGrid, SameValue;
    if n > 0 {
      BucketIsSum(p, g, oy, ox, c, n - 1);
      TokenIsCell(p, g, oy, ox, c, n - 1);
      var s := Places(p, g);
      assert s[..n][..n - 1] == s[..n - 1];
      assert Cells(g, p.scale, oy, ox, c)(s[n - 1]) == CellValue(g, p.scale, oy, ox, c, s[n - 1]);
    }
  }

  /** The cells of line y add up to the window's line, if the window has that line. */
  function LineValue(g: Image, scale: real, oy: nat, ox: nat, c: nat, y: nat): real
    requires Sized(g) && Window(g, oy, ox, c)
  {
    if Quot(y, g.kernel) == oy then Times(LineSum(g, oy, ox, c, Rem(y, g.kernel), g.kernel), scale) else 0.0
  }

  function PixelTerm(g: Image, scale: real, oy: nat, ox: nat, c: nat, ky: nat, kx: nat): real
    requires Sized(g) && Window(g, oy, ox, c) && ky < g.kernel
  {
    if kx < g.kernel then
      InTile(g.height, g.kernel, oy, ky);
      InTile(g.width, g.kernel, ox, kx);
      Times(Pixel(g, Flat(oy, g.kernel, ky), Flat(ox, g.kernel, kx), c), scale)
    else 0.0
  }

  function Terms(g: Image, scale: real, oy: nat, ox: nat, c: nat, ky: nat): nat -> real
    requires Sized(g) && Window(g, oy, ox, c) && ky < g.kernel
  {
    (kx: nat) => PixelTerm(g, scale, oy, ox, c, ky, kx)
  }

  lemma {:induction false} LineTerms(g: Image, scale: real, oy: nat, ox: nat, c: nat, ky: nat, n: nat)
    requires Sized(g) && Window(g, oy, ox, c) && ky < g.kernel && n <= g.kernel
    ensures SumTo(Terms(g, scale, oy, ox, c, ky), n) == Times(LineSum(g, oy, ox, c, ky, n), scale)
    decreases n
  {
    hide Times, Pixel;
    if n == 0 {
      TimesZero(scale);
    } else {
      LineTerms(g, scale, oy, ox, c, ky, n - 1);
      InTile(g.height, g.kernel, oy, ky);
      InTile(g.width, g.kernel, ox, n - 1);
      TimesAdd(LineSum(g, oy, ox, c, ky, n - 1), Pixel(g, Flat(oy, g.kernel, ky), Flat(ox, g.kernel, n - 1), c), scale);
    }
  }

  lemma CellAt(g: Image, scale: real, oy: nat, ox: nat, c: nat, y: nat, x: nat)
    requires Sized(g) && Window(g, oy, ox, c) && y < g.height && x < g.width
    ensures CellValue(g, scale, oy, ox, c, Flat(y, g.width, x))
         == if Quot(y, g.kernel) == oy && Quot(x, g.kernel) == ox then Times(Pixel(g, y, x, c), scale) else 0.0
  {
    FlatOrder(y, g.height, g.width, x, 0);
    FlatQuotRem(y, g.width, x);
  }

  /** x lies in tile o exactly when its quotient is o. */
  lemma TileIs(kernel: nat, o: nat, x: nat)
    requires kernel > 0
    ensures Quot(x, kernel) == o <==> Flat(o, kernel, 0) <= x < Flat(o, kernel, 0) + kernel
    ensures Quot(x, kernel) == o ==> x == Flat(o, kernel, Rem(x, kernel))
  {
    QuotRem(x, kernel);
    FlatProduct(Quot(x, kernel), kernel, Rem(x, kernel));
    var q, r := Quot(x, kernel), Rem(x, kernel);
    FlatShift(q, kernel, 0, r);
    if q < o {
      FlatOrder(q, o, kernel, r, 0);
    } else if q > o {
      FlatOrder(o, q, kernel, kernel - 1, 0);
      FlatShift(o, kernel, 0, kernel - 1);
    }
  }

  function RowCells(g: Image, scale: real, oy: nat, ox: nat, c: nat, y: nat): nat -> real
    requires Sized(g) && Window(g, oy, ox, c)
  {
    (x: nat) => CellValue(g, scale, oy, ox, c, Flat(y, g.width, x))
  }

  lemma LineIsSum(g: Image, scale: real, oy: nat, ox: nat, c: nat, y: nat)
    requires Sized(g) && Window(g, oy, ox, c) && y < g.height
    ensures SumTo(RowCells(g, scale, oy, ox, c, y), g.width) == LineValue(g, scale, oy, ox, c, y)
  {
    var f := RowCells(g, scale, oy, ox, c, y);
    if Quot(y, g.kernel) == oy {
      LineInWindow(g, scale, oy, ox, c, y);
      LineTerms(g, scale, oy, ox, c, Rem(y, g.kernel), g.kernel);
    } else {
      hide CellValue, Times, Pixel;
      forall i: nat | i < g.width ensures f(i) == 0.0 {
        CellAt(g, scale, oy, ox, c, y, i);
      }
      SumZero(f, g.width);
    }
  }

  lemma LineInWindow(g: Image, scale: real, oy: nat, ox: nat, c: nat, y: nat)
    requires Sized(g) && Window(g, oy, ox, c) && y < g.height && Quot(y, g.kernel) == oy
    ensures SumTo(RowCells(g, scale, oy, ox, c, y), g.width)
         == SumTo(Terms(g, scale, oy, ox, c, Rem(y, g.kernel)), g.kernel)
  {
    hide Flat, Quot, Rem, SumTo, Sized, CellValue, PixelTerm;
    InTile(g.width, g.kernel, ox, g.kernel - 1);
    FlatShift(ox, g.kernel, 0, g.kernel - 1);
    var f, h := RowCells(g, scale, oy, ox, c, y), Terms(g, scale, oy, ox, c, Rem(y, g.kernel));
    hide *;
    forall i: nat | i < g.width && !(Flat(ox, g.kernel, 0) <= i < Flat(ox, g.kernel, 0) + g.kernel)
      ensures f(i) == 0.0
    {
      CellOutside(g, scale, oy, ox, c, y, i);
    }
    forall k: nat | k < g.kernel ensures f(Flat(ox, g.kernel, 0) + k) == h(k) {
      CellInside(g, scale, oy, ox, c, y, k);
    }
    SumWindow(f, h, g.width, Flat(ox, g.kernel, 0), g.kernel);
  }

  lemma CellOutside(g: Image, scale: real, oy: nat, ox: nat, c: nat, y: nat, x: nat)
    requires Sized(g) && Window(g, oy, ox, c) && y < g.height && x < g.width
    requires !(Flat(ox, g.kernel, 0) <= x < Flat(ox, g.kernel, 0) + g.kernel)
    ensures RowCells(g, scale, oy, ox, c, y)(x) == 0.0
  {
    hide CellValue, Times, Pixel;
    CellAt(g, scale, oy, ox, c, y, x);
    TileIs(g.kernel, ox, x);
  }

  lemma CellInside(g: Image, scale: real, oy: nat, ox: nat, c: nat, y: nat, k: nat)
    requires Sized(g) && Window(g, oy, ox, c) && y < g.height && Quot(y, g.kernel) == oy && k < g.kernel
    ensures RowCells(g, scale, oy, ox, c, y)(Flat(ox, g.kernel, 0) + k)
         == Terms(g, scale, oy, ox, c, Rem(y, g.kernel))(k)
  {
    hide CellValue, PixelTerm, Flat, Window, Sized, Quot, Rem;
    TileIs(g.kernel, oy, y);
    FlatShift(ox, g.kernel, 0, k);
    CellOfTile(g, scale, oy, ox, c, Rem(y, g.kernel), k);
  }

  lemma CellOfTile(g: Image, scale: real, oy: nat, ox: nat, c: nat, ky: nat, kx: nat)
    requires Sized(g) && Window(g, oy, ox, c) && ky < g.kernel && kx < g.kernel
    ensures CellValue(g, scale, oy, ox, c, Flat(Flat(oy, g.kernel, ky), g.width, Flat(ox, g.kernel, kx)))
         == PixelTerm(g, scale, oy, ox, c, ky, kx)
  {
    InTile(g.height, g.kernel, oy, ky);
    InTile(g.width, g.kernel, ox, kx);
    FlatQuotRem(oy, g.kernel, ky);
    FlatQuotRem(ox, g.kernel, kx);
    hide CellValue, Times, Pixel, Flat, Window;
    CellAt(g, scale, oy, ox, c, Flat(oy, g.kernel, ky), Flat(ox, g.kernel, kx));
  }

  function Lines(g: Image, scale: real, oy: nat, ox: nat, c: nat): nat -> real
    requires Sized(g) && Window(g, oy, ox, c)
  {
    (ky: nat) => LineTerm(g, scale, oy, ox, c, ky)
  }

  lemma {:induction false} WindowTerms(g: Image, scale: real, oy: nat, ox: nat, c: nat, n: nat)
    requires Sized(g) && Window(g, oy, ox, c) && n <= g.kernel
    ensures SumTo(Lines(g, scale, oy, ox, c), n) == Times(WindowSum(g, oy, ox, c, n), scale)
    decreases n
  {
    hide Times, LineSum;
    if n == 0 {
      TimesZero(scale);
    } else {
      WindowTerms(g, scale, oy, ox, c, n - 1);
      TimesAdd(WindowSum(g, oy, ox, c, n - 1), LineSum(g, oy, ox, c, n - 1, g.kernel), scale);
    }
  }

  function LineTerm(g: Image, scale: real, oy: nat, ox: nat, c: nat, ky: nat): real
    requires Sized(g) && Window(g, oy, ox, c)
  {
    if ky < g.kernel then Times(LineSum(g, oy, ox, c, ky, g.kernel), scale) else 0.0
  }

  lemma GridIsWindow(g: Image, scale: real, oy: nat, ox: nat, c: nat)
    requires Sized(g) && Window(g, oy, ox, c)
    ensures SumTo(Cells(g, scale, oy, ox, c), Flat(g.height, g.width, 0)) == Times(WindowSum(g, oy, ox, c, g.kernel), scale)
  {
    var f := Cells(g, scale, oy, ox, c);
    var rows := (y: nat) => LineValue(g, scale, oy, ox, c, y);
    hide Times, LineSum, CellValue, LineValue;
    forall y: nat | y < g.height ensures rows(y) == SumTo((x: nat) => f(Flat(y, g.width, x)), g.width) {
      LineIsSum(g, scale, oy, ox, c, y);
      SumSame((x: nat) => f(Flat(y, g.width, x)), RowCells(g, scale, oy, ox, c, y), g.width);
    }
    SumByRows(f, rows, g.height, g.width);
    LinesInWindow(g, scale, oy, ox, c, rows);
    WindowTerms(g, scale, oy, ox, c, g.kernel);
  }

  lemma LinesInWindow(g: Image, scale: real, oy: nat, ox: nat, c: nat, rows: nat -> real)
    requires Sized(g) && Window(g, oy, ox, c)
    requires forall y: nat :: rows(y) == LineValue(g, scale, oy, ox, c, y)
    ensures SumTo(rows, g.height) == SumTo(Lines(g, scale, oy, ox, c), g.kernel)
  {
    hide Times, LineSum, Flat, Quot, Rem, SumTo, Sized;
    var lines := Lines(g, scale, oy, ox, c);
    var lo := Flat(oy, g.kernel, 0);
    InTile(g.height, g.kernel, oy, g.kernel - 1);
    FlatShift(oy, g.kernel, 0, g.kernel - 1);
    forall i: nat | i < g.height && !(lo <= i < lo + g.kernel) ensures rows(i) == 0.0 {
      TileIs(g.kernel, oy, i);
    }
    forall k: nat | k < g.kernel ensures rows(lo + k) == lines(k) {
      TileIs(g.kernel, oy, lo + k);
      FlatShift(oy, g.kernel, 0, k);
      FlatQuotRem(oy, g.kernel, k);
    }
    SumWindow(rows, lines, g.height, lo, g.kernel);
  }

  /**
   On a complete grid, in any token order, coordinate pooling is average pooling times the root that is folded into
   its scale.
   */
  lemma CoordinatePoolIsAverage(p: Tokens, g: Image, root: real, oy: nat, ox: nat, c: nat)
    requires CompleteGrid(p, g) && Window(g, oy, ox, c) && p.scale == root / Area(g.kernel)
    ensures BucketSum(p, p.count, Flat(oy, Quot(g.width, g.kernel), ox), c) == Times(root, Average(g, oy, ox, c))
  {
    var s := Places(p, g);
    BucketIsSum(p, g, oy, ox, c, p.count);
    assert s[..p.count] == s;
    PlacesDistinct(p, g);
    SumOverAll(Cells(g, p.scale, oy, ox, c), s, p.count);
    GridIsWindow(g, p.scale, oy, ox, c);
    hide Times, WindowSum, CompleteGrid, BucketSum, Area;
    Rescale(WindowSum(g, oy, ox, c, g.kernel), root, Area(g.kernel));
  }

  lemma PlacesDistinct(p: Tokens, g: Image)
    requires CompleteGrid(p, g)
    ensures Distinct(Places(p, g)) && forall i | 0 <= i < p.count :: Places(p, g)[i] < p.count
  {
    var s := Places(p, g);
    forall i | 0 <= i < p.count ensures s[i] < p.count {
      assert OnGrid(p, g, i);
      FlatOrder(p.positions[2 * i + 1], g.height, g.width, p.positions[2 * i], 0);
    }
  }

  lemma Rescale(sum: real, root: real, area: real)
    requires area > 0.0
    ensures Times(sum, root / area) == Times(root, sum / area)
  {
    var i := 1.0 / area;
    assert root / area == root * i && sum / area == sum * i;
    assert sum * (root * i) == root * (sum * i);
  }

  lemma ElementsAgree(p: Tokens, g: Image, root: real, pooled: seq<real>, averaged: seq<real>, oy: nat, ox: nat, c: nat)
    requires CompleteGrid(p, g) && Window(g, oy, ox, c) && p.scale == root / Area(g.kernel)
    requires Pooled(p, pooled, p.count, 0)
    requires Averaged(g, averaged, Flat(Flat(Quot(g.height, g.kernel), Quot(g.width, g.kernel), 0), g.channels, 0))
    ensures OutIndex(g, oy, ox, c) < |pooled| && OutIndex(g, oy, ox, c) < |averaged|
    ensures pooled[OutIndex(g, oy, ox, c)] == Times(root, averaged[OutIndex(g, oy, ox, c)])
  {
    var b := Flat(oy, Quot(g.width, g.kernel), ox);
    OutInRange(g, oy, ox, c);
    FlatOrder(oy, Quot(g.height, g.kernel), Quot(g.width, g.kernel), ox, 0);
    assert AveragedAt(g, averaged, oy, ox, c) && PooledAt(p, pooled, p.count, 0, b, c);
    hide Times, BucketSum, Average, Area;
    CoordinatePoolIsAverage(p, g, root, oy, ox, c);
  }

  /** One sequence is the other times the root. */
  ghost predicate Rooted(pooled: seq<real>, averaged: seq<real>, root: real) {
    |pooled| == |averaged| && forall i | 0 <= i < |pooled| :: pooled[i] == Times(root, averaged[i])
  }

  lemma ItemsAgree(p: Tokens, g: Image, root: real, pooled: seq<real>, averaged: seq<real>)
    requires CompleteGrid(p, g) && p.scale == root / Area(g.kernel) && Pooled(p, pooled, p.count, 0)
    requires Averaged(g, averaged, Flat(Flat(Quot(g.height, g.kernel), Quot(g.width, g.kernel), 0), g.channels, 0))
    ensures Rooted(pooled, averaged, root)
  {
    var ph, pw := Quot(g.height, g.kernel), Quot(g.width, g.kernel);
    assert |pooled| == |averaged| == Flat(Flat(ph, pw, 0), g.channels, 0) && Sized(g);
    hide CompleteGrid, Pooled, Averaged, Area, Times, Flat, Sized;
    forall i | 0 <= i < |pooled| ensures pooled[i] == Times(root, averaged[i]) {
      FlatSplit(i, Flat(ph, pw, 0), g.channels);
      var b, c := Quot(i, g.channels), Rem(i, g.channels);
      FlatSplit(b, ph, pw);
      ElementsAgree(p, g, root, pooled, averaged, Quot(b, pw), Rem(b, pw), c);
    }
  }

  /** On a complete grid every bucket is hit. */
  lemma EveryBucketHit(p: Tokens, g: Image, b: nat)
    requires CompleteGrid(p, g) && b < p.length
    ensures Hit(p, p.count, b)
  {
    var k, ph, pw := g.kernel, Quot(g.height, g.kernel), Quot(g.width, g.kernel);
    FlatSplit(b, ph, pw);
    var oy, ox := Quot(b, pw), Rem(b, pw);
    InTile(g.height, k, oy, 0);
    InTile(g.width, k, ox, 0);
    FlatOrder(Flat(oy, k, 0), g.height, g.width, Flat(ox, k, 0), 0);
    PlacesDistinct(p, g);
    var t := Occurs(Places(p, g), p.count, Flat(Flat(oy, k, 0), g.width, Flat(ox, k, 0)));
    assert OnGrid(p, g, t);
    hide CompleteGrid;
    FlatInjective(p.positions[2 * t + 1], Flat(oy, k, 0), g.width, p.positions[2 * t], Flat(ox, k, 0));
    FlatQuotRem(oy, k, 0);
    FlatQuotRem(ox, k, 0);
    assert BucketOf(p, t) == Some(b);
  }

  /** Every item of the batch is a complete grid of the image of the same number. */
  ghost predicate CompleteGrids(m: TokenBatch, n: ImageBatch)
    requires ShapedBatch(m) && SizedBatch(n)
  {
    m.batch == n.batch && forall item: nat | item < m.batch :: CompleteGrid(ItemOf(m, item), ImageOf(n, item))
  }

  lemma ItemAgrees(m: TokenBatch, n: ImageBatch, root: real, pooled: seq<real>, mask: seq<nat>, averaged: seq<real>,
                   item: nat)
    requires ShapedBatch(m) && SizedBatch(n) && CompleteGrids(m, n) && item < m.batch && m.scale == root / Area(n.kernel)
    requires ItemPooled(m, pooled, mask, item) && ImageAveraged(n, averaged, item)
    ensures OutputSize(m) == AverageSize(n)
    ensures Rooted(RowOf(pooled, item, OutputSize(m)), RowOf(averaged, item, OutputSize(m)), root)
    ensures AllOnes(RowOf(mask, item, m.length))
  {
    var p, g := ItemOf(m, item), ImageOf(n, item);
    assert CompleteGrid(p, g);
    SameSize(p, g);
    hide CompleteGrid, RowOf, Pooled, Averaged, Hit, Rooted, Flat, Area;
    ItemsAgree(p, g, root, RowOf(pooled, item, OutputSize(m)), RowOf(averaged, item, AverageSize(n)));
    forall i | 0 <= i < m.length ensures RowOf(mask, item, m.length)[i] == 1 {
      EveryBucketHit(p, g, i);
    }
  }

  lemma SameSize(p: Tokens, g: Image)
    requires CompleteGrid(p, g)
    ensures p.length == Flat(Quot(g.height, g.kernel), Quot(g.width, g.kernel), 0)
    ensures p.channels == g.channels && p.kernel == g.kernel
  {
  }

  /** What holds of every row holds of the whole. */
  lemma RootedRows(pooled: seq<real>, averaged: seq<real>, root: real, n: nat, w: nat)
    requires |pooled| == |averaged| == Flat(n, w, 0)
    requires forall r: nat | r < n ::
      Flat(r, w, 0) + w <= |pooled| && Rooted(RowOf(pooled, r, w), RowOf(averaged, r, w), root)
    ensures Rooted(pooled, averaged, root)
  {
    hide Flat, Times;
    forall i | 0 <= i < |pooled| ensures pooled[i] == Times(root, averaged[i]) {
      FlatSplit(i, n, w);
      var r, c := Quot(i, w), Rem(i, w);
      FlatShift(r, w, 0, c);
      assert RowOf(pooled, r, w)[c] == Times(root, RowOf(averaged, r, w)[c]);
    }
  }

  predicate AllOnes(mask: seq<nat>) {
    forall i | 0 <= i < |mask| :: mask[i] == 1
  }

  lemma OnesRows(mask: seq<nat>, n: nat, w: nat)
    requires |mask| == Flat(n, w, 0)
    requires forall r: nat | r < n :: Flat(r, w, 0) + w <= |mask| && AllOnes(RowOf(mask, r, w))
    ensures AllOnes(mask)
  {
    hide Flat;
    forall i | 0 <= i < |mask| ensures mask[i] == 1 {
      FlatSplit(i, n, w);
      var r, c := Quot(i, w), Rem(i, w);
      FlatShift(r, w, 0, c);
      assert RowOf(mask, r, w)[c] == 1;
    }
  }

  lemma ItemRows(m: TokenBatch, n: ImageBatch, root: real, pooled: seq<real>, mask: seq<nat>, averaged: seq<real>,
                 item: nat, w: nat)
    requires ShapedBatch(m) && SizedBatch(n) && CompleteGrids(m, n) && item < m.batch && m.scale == root / Area(n.kernel)
    requires ItemsPooled(m, pooled, mask, m.batch) && ImagesAveraged(n, averaged, n.batch) && w == OutputSize(m)
    ensures |averaged| == |pooled| && Flat(item, w, 0) + w <= |pooled|
    ensures Rooted(RowOf(pooled, item, w), RowOf(averaged, item, w), root)
    ensures Flat(item, m.length, 0) + m.length <= |mask| && AllOnes(RowOf(mask, item, m.length))
  {
    assert ItemPooled(m, pooled, mask, item) && ImageAveraged(n, averaged, item);
    hide ItemDone, Averaged, Rooted, RowOf, Flat, Area, OutputSize, AverageSize;
    ItemAgrees(m, n, root, pooled, mask, averaged, item);
  }

  lemma Sizes(m: TokenBatch, n: ImageBatch, pooled: seq<real>, mask: seq<nat>, averaged: seq<real>)
    requires ShapedBatch(m) && SizedBatch(n) && CompleteGrids(m, n)
    requires ItemsPooled(m, pooled, mask, m.batch) && ImagesAveraged(n, averaged, n.batch)
    ensures |pooled| == Flat(m.batch, OutputSize(m), 0) && |mask| == Flat(m.batch, m.length, 0)
    ensures m.batch == 0 ==> |averaged| == |pooled|
  {
    hide CompleteGrid;
    FlatNext(0, OutputSize(m));
    FlatNext(0, AverageSize(n));
  }

  /** Hence the two routines' whole outputs differ by the root alone, and every mask entry is set. */
  lemma PoolsAgree(m: TokenBatch, n: ImageBatch, root: real, pooled: seq<real>, mask: seq<nat>, averaged: seq<real>)
    requires ShapedBatch(m) && SizedBatch(n) && CompleteGrids(m, n) && m.scale == root / Area(n.kernel)
    requires ItemsPooled(m, pooled, mask, m.batch) && ImagesAveraged(n, averaged, n.batch)
    ensures Rooted(pooled, averaged, root) && AllOnes(mask)
  {
    hide *;
    var w := OutputSize(m);
    Sizes(m, n, pooled, mask, averaged);
    forall item: nat | item < m.batch
      ensures |averaged| == |pooled| && Flat(item, w, 0) + w <= |pooled|
      ensures Rooted(RowOf(pooled, item, w), RowOf(averaged, item, w), root)
      ensures Flat(item, m.length, 0) + m.length <= |mask| && AllOnes(RowOf(mask, item, m.length))
    {
      ItemRows(m, n, root, pooled, mask, averaged, item, w);
    }
    if m.batch > 0 {
      ItemRows(m, n, root, pooled, mask, averaged, 0, w);
    }
    RootedRows(pooled, averaged, root, m.batch, w);
    OnesRows(mask, m.batch, m.length);
  }
}
