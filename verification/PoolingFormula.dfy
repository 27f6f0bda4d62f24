/** Both poolings written out over the buffers of a batch. */
module PoolingFormula {
  import opened Arith
  import opened Options
  import opened Reals
  import opened Rows
  import opened Sums
  import opened Pooling

  /** An element of a batch of n items that are h x w matrices. */
  lemma ItemElement<T>(data: seq<T>, item: nat, n: nat, h: nat, r: nat, w: nat, c: nat, other: T)
    requires item < n && r < h && c < w && |data| == Flat(n, Flat(h, w, 0), 0)
    ensures Flat(item, Flat(h, w, 0), 0) + Flat(h, w, 0) <= |data| && Flat(r, w, c) < Flat(h, w, 0)
    ensures RowMajor(RowMajor(item, h, r), w, c) < |data|
    ensures RowOf(data, item, Flat(h, w, 0))[Flat(r, w, c)] == At(data, RowMajor(RowMajor(item, h, r), w, c), other)
  {
    RowInside(item, n, Flat(h, w, 0));
    FlatOrder(r, h, w, c, 0);
    FlatFlat(item, h, r, w, c);
    hide RowMajor, Flat, RowOf;
    RowElement(data, item, Flat(h, w, 0), Flat(r, w, c), other);
  }

  // ---------- coordinate pooling ----------

  /** Token t of the item is valid, has coordinates from zero up, and these fall into bucket b. */
  ghost predicate FallsIn(m: TokenBatch, item: nat, t: nat, b: nat)
    requires m.kernel > 0
  {
    var token := RowMajor(item, m.count, t);
    var px, py := At(m.positions, RowMajor(token, 2, 0), -1), At(m.positions, RowMajor(token, 2, 1), -1);
    && At(m.valid, token, 0) != 0 && px >= 0 && py >= 0
    && Quot(px, m.kernel) + Quot(m.width, m.kernel) * Quot(py, m.kernel) == b
  }

  lemma TokenIs(m: TokenBatch, item: nat, t: nat)
    requires ShapedBatch(m) && item < m.batch && t < m.count
    ensures var p, token := ItemOf(m, item), RowMajor(item, m.count, t);
      && p.valid[t] == At(m.valid, token, 0) && p.positions[2 * t] == At(m.positions, RowMajor(token, 2, 0), -1)
      && p.positions[2 * t + 1] == At(m.positions, RowMajor(token, 2, 1), -1)
  {
    FlatProduct(m.count, 2, 0);
    FlatProduct(t, 2, 0);
    FlatProduct(t, 2, 1);
    RowInside(item, m.batch, m.count);
    hide Flat, RowMajor, RowOf;
    ItemElement(m.positions, item, m.batch, m.count, t, 2, 0, -1);
    ItemElement(m.positions, item, m.batch, m.count, t, 2, 1, -1);
    RowElement(m.valid, item, m.count, t, 0);
  }

  lemma FallsInBucket(m: TokenBatch, item: nat, t: nat, b: nat)
    requires ShapedBatch(m) && item < m.batch && t < m.count && b < m.length && m.kernel > 0
    ensures BucketOf(ItemOf(m, item), t) == Some(b) <==> FallsIn(m, item, t, b)
  {
    TokenIs(m, item, t);
    var p := ItemOf(m, item);
    var px, py := p.positions[2 * t], p.positions[2 * t + 1];
    if px >= 0 && py >= 0 {
      FlatProduct(Quot(py, m.kernel), Quot(m.width, m.kernel), Quot(px, m.kernel));
      MulComm(Quot(py, m.kernel), Quot(m.width, m.kernel));
    }
    hide Flat, RowMajor, RowOf, Quot, At, ShapedBatch;
  }

  lemma ContributionIs(m: TokenBatch, item: nat, t: nat, d: nat)
    requires ShapedBatch(m) && item < m.batch && t < m.count && d < m.channels
    ensures Contribution(ItemOf(m, item), t, d)
         == Times(At(m.x, RowMajor(RowMajor(item, m.count, t), m.channels, d), 0.0), m.scale)
  {
    FlatOrder(t, m.count, m.channels, d, 0);
    hide Flat, RowMajor, RowOf, Times;
    ItemElement(m.x, item, m.batch, m.count, t, m.channels, d, 0.0);
  }

  lemma {:induction false} BucketIsSum(m: TokenBatch, item: nat, n: nat, b: nat, d: nat, term: nat -> real)
    requires ShapedBatch(m) && item < m.batch && n <= m.count && b < m.length && d < m.channels && m.kernel > 0
    requires forall t: nat | t < m.count ::
      term(t) == if FallsIn(m, item, t, b) then Times(At(m.x, RowMajor(RowMajor(item, m.count, t), m.channels, d), 0.0), m.scale)
                 else 0.0
    ensures BucketSum(ItemOf(m, item), n, b, d) == SumTo(term, n)
  {
    hide FallsIn, BucketOf, Contribution, ItemOf, RowMajor, Times, ShapedBatch;
    if n > 0 {
      BucketIsSum(m, item, n - 1, b, d, term);
      FallsInBucket(m, item, n - 1, b);
      ContributionIs(m, item, n - 1, d);
    }
  }

  /** A bucket is the sum of the scaled tokens that fall into it, and its mask tells whether there is one. */
  lemma PoolWrittenOut(m: TokenBatch, out: seq<real>, mask: seq<nat>, item: nat, b: nat, d: nat, term: nat -> real)
    requires ShapedBatch(m) && ItemsPooled(m, out, mask, m.batch) && m.kernel > 0
    requires item < m.batch && b < m.length && d < m.channels
    requires forall t: nat | t < m.count ::
      term(t) == if FallsIn(m, item, t, b) then Times(At(m.x, RowMajor(RowMajor(item, m.count, t), m.channels, d), 0.0), m.scale)
                 else 0.0
    ensures At(out, RowMajor(RowMajor(item, m.length, b), m.channels, d), 0.0) == SumTo(term, m.count)
    ensures At(mask, RowMajor(item, m.length, b), 0) == if exists t: nat :: t < m.count && FallsIn(m, item, t, b) then 1 else 0
  {
    assert ItemPooled(m, out, mask, item);
    var p := ItemOf(m, item);
    assert PooledAt(p, RowOf(out, item, OutputSize(m)), p.count, 0, b, d);
    BucketIsSum(m, item, m.count, b, d, term);
    hide FallsIn, BucketOf, BucketSum, ItemOf, RowMajor, Times, Flat, ShapedBatch, RowOf, At;
    ItemElement(out, item, m.batch, m.length, b, m.channels, d, 0.0);
    RowElement(mask, item, m.length, b, 0);
    forall t: nat | t < m.count ensures BucketOf(p, t) == Some(b) <==> FallsIn(m, item, t, b) {
      FallsInBucket(m, item, t, b);
    }
  }

  // ---------- regular average pooling ----------

  /** An element of a batch of n items of h x w x d. */
  lemma ImageElement(data: seq<real>, item: nat, n: nat, h: nat, y: nat, w: nat, x: nat, d: nat, c: nat)
    requires item < n && y < h && x < w && c < d && |data| == Flat(n, Flat(Flat(h, w, 0), d, 0), 0)
    ensures var size := Flat(Flat(h, w, 0), d, 0);
      && Flat(item, size, 0) + size <= |data| && Flat(Flat(y, w, x), d, c) < size
      && RowOf(data, item, size)[Flat(Flat(y, w, x), d, c)]
         == At(data, RowMajor(RowMajor(RowMajor(item, h, y), w, x), d, c), 0.0)
  {
    FlatOrder(y, h, w, x, 0);
    FlatFlat(item, h, y, w, x);
    hide RowMajor, Flat, RowOf;
    ItemElement(data, item, n, Flat(h, w, 0), Flat(y, w, x), d, c, 0.0);
  }

  lemma {:induction false} LineIsSum(m: ImageBatch, item: nat, oy: nat, ox: nat, c: nat, ky: nat, n: nat, pixel: nat -> real)
    requires SizedBatch(m) && item < m.batch && Window(ImageOf(m, item), oy, ox, c) && ky < m.kernel && n <= m.kernel
    requires PixelsAre(m, item, oy, ox, c, ky, pixel)
    ensures LineSum(ImageOf(m, item), oy, ox, c, ky, n) == SumTo(pixel, n)
  {
    hide Flat, RowMajor, RowOf, Quot, At;
    if n > 0 {
      LineIsSum(m, item, oy, ox, c, ky, n - 1, pixel);
      InTile(m.height, m.kernel, oy, ky);
      InTile(m.width, m.kernel, ox, n - 1);
      ImageElement(m.x, item, m.batch, m.height, Flat(oy, m.kernel, ky), m.width, Flat(ox, m.kernel, n - 1), m.channels, c);
    }
  }

  /** pixel(kx) is what position (ky, kx) of a window shows. */
  ghost predicate PixelsAre(m: ImageBatch, item: nat, oy: nat, ox: nat, c: nat, ky: nat, pixel: nat -> real) {
    forall kx: nat | kx < m.kernel ::
      pixel(kx) == At(m.x, RowMajor(RowMajor(RowMajor(item, m.height, RowMajor(oy, m.kernel, ky)),
                                             m.width, RowMajor(ox, m.kernel, kx)), m.channels, c), 0.0)
  }

  lemma {:induction false} WindowIsSum(m: ImageBatch, item: nat, oy: nat, ox: nat, c: nat, n: nat,
                                       pixel: nat -> nat -> real, line: nat -> real)
    requires SizedBatch(m) && item < m.batch && Window(ImageOf(m, item), oy, ox, c) && n <= m.kernel
    requires forall ky: nat | ky < m.kernel ::
      PixelsAre(m, item, oy, ox, c, ky, pixel(ky)) && line(ky) == SumTo(pixel(ky), m.kernel)
    ensures WindowSum(ImageOf(m, item), oy, ox, c, n) == SumTo(line, n)
  {
    hide LineSum, PixelsAre, Window, SizedBatch;
    if n > 0 {
      WindowIsSum(m, item, oy, ox, c, n - 1, pixel, line);
      LineIsSum(m, item, oy, ox, c, n - 1, m.kernel, pixel(n - 1));
    }
  }

  /** Every output is the sum over the lines of its window, divided by the number of pixels in the window. */
  lemma AverageWrittenOut(m: ImageBatch, out: seq<real>, item: nat, oy: nat, ox: nat, c: nat,
                          pixel: nat -> nat -> real, line: nat -> real)
    requires SizedBatch(m) && ImagesAveraged(m, out, m.batch) && item < m.batch && m.kernel > 0 && c < m.channels
    requires oy < Quot(m.height, m.kernel) && ox < Quot(m.width, m.kernel)
    requires forall ky: nat | ky < m.kernel ::
      PixelsAre(m, item, oy, ox, c, ky, pixel(ky)) && line(ky) == SumTo(pixel(ky), m.kernel)
    ensures Times(At(out, RowMajor(RowMajor(RowMajor(item, Quot(m.height, m.kernel), oy), Quot(m.width, m.kernel), ox),
                                   m.channels, c), 0.0),
                  Times(m.kernel as real, m.kernel as real))
         == SumTo(line, m.kernel)
  {
    var g := ImageOf(m, item);
    WindowIsSum(m, item, oy, ox, c, m.kernel, pixel, line);
    AverageArea(g, oy, ox, c);
    hide Average, WindowSum, PixelsAre, RowMajor, RowOf, Times, Flat, Quot, At;
    assert ImageAveraged(m, out, item);
    OutInRange(g, oy, ox, c);
    assert AveragedAt(g, RowOf(out, item, AverageSize(m)), oy, ox, c);
    ImageElement(out, item, m.batch, Quot(m.height, m.kernel), oy, Quot(m.width, m.kernel), ox, m.channels, c);
  }

  lemma AverageArea(g: Image, oy: nat, ox: nat, c: nat)
    requires Sized(g) && Window(g, oy, ox, c)
    ensures Times(Average(g, oy, ox, c), Times(g.kernel as real, g.kernel as real)) == WindowSum(g, oy, ox, c, g.kernel)
  {
    AreaIs(g.kernel);
    hide WindowSum;
    Undivided(WindowSum(g, oy, ox, c, g.kernel), Area(g.kernel));
  }

  lemma AreaIs(kernel: nat)
    requires kernel > 0
    ensures Area(kernel) == Times(kernel as real, kernel as real)
  {
  }

  lemma Undivided(a: real, b: real)
    requires b > 0.0
    ensures Times(a / b, b) == a
  {
  }
}
