/**
 Patch extraction and the fused patch projection of benchmarks/cases/basert.cpp. Both walk the image with running
 cursors; both agree with the closed-form index map.
 */
module Patches {
  import opened Arith
  import opened Reals
  import opened Rows
  import opened PatchLayout

  /** The cursor steps from one position of a patch to the next, and from one patch to the next. */
  lemma NextFeature(g: Geometry, kt: nat, ky: nat, kx: nat, c: nat)
    ensures Feature(g, kt, ky, kx, c + 1) == Feature(g, kt, ky, kx, c) + 1
    ensures Feature(g, kt, ky, kx, g.channels) == Feature(g, kt, ky, kx + 1, 0)
    ensures Feature(g, kt, ky, g.patch, 0) == Feature(g, kt, ky + 1, 0, 0)
    ensures Feature(g, kt, g.patch, 0, 0) == Feature(g, kt + 1, 0, 0, 0)
    ensures Feature(g, 0, 0, 0, 0) == 0 && Feature(g, g.temporal, 0, 0, 0) == PatchDim(g)
  {
    FlatShift(Flat(Flat(kt, g.patch, ky), g.patch, kx), g.channels, c, 1);
    FlatNext(Flat(Flat(kt, g.patch, ky), g.patch, kx), g.channels);
    FlatShift(Flat(kt, g.patch, ky), g.patch, kx, 1);
    FlatNext(Flat(kt, g.patch, ky), g.patch);
    FlatShift(kt, g.patch, ky, 1);
    FlatNext(kt, g.patch);
    FlatNext(0, g.patch);
    FlatNext(0, g.channels);
  }

  lemma NextRow(g: Geometry, ot: nat, oy: nat, ox: nat)
    requires Valid(g)
    ensures RowIndex(g, ot, oy, ox + 1) == RowIndex(g, ot, oy, ox) + 1
    ensures RowIndex(g, ot, oy, OutWidth(g)) == RowIndex(g, ot, oy + 1, 0)
    ensures RowIndex(g, ot, OutHeight(g), 0) == RowIndex(g, ot + 1, 0, 0)
    ensures RowIndex(g, 0, 0, 0) == 0 && RowIndex(g, OutFrames(g), 0, 0) == PatchRows(g)
  {
    FlatShift(Flat(ot, OutHeight(g), oy), OutWidth(g), ox, 1);
    FlatNext(Flat(ot, OutHeight(g), oy), OutWidth(g));
    FlatShift(ot, OutHeight(g), oy, 1);
    FlatNext(ot, OutHeight(g));
    FlatNext(0, OutHeight(g));
    FlatNext(0, OutWidth(g));
  }

  // ---------- patch extraction ----------

  /** The first n patch entries show the image elements they should. */
  ghost predicate Extracted(g: Geometry, x: seq<real>, out: seq<real>, n: nat)
    requires Valid(g) && |x| == Pixels(g)
  {
    && n <= |out| == Flat(PatchRows(g), PatchDim(g), 0)
    && forall i | 0 <= i < n :: out[i] == x[SourceOf(g, i)]
  }

  /** The source's index of the first channel of a pixel. */
  function PixelIndex(g: Geometry, ot: nat, oy: nat, ox: nat, kt: nat, ky: nat, kx: nat): (i: nat)
    ensures i == Source(g, Place(ot, oy, ox, kt, ky, kx, 0))
  {
    RowMajor(RowMajor(RowMajor(RowMajor(ot, g.temporal, kt), g.height, RowMajor(oy, g.patch, ky)),
                      g.width, RowMajor(ox, g.patch, kx)),
             g.channels, 0)
  }

  lemma ChannelIndex(g: Geometry, a: Place)
    ensures Source(g, a) == Source(g, a.(c := 0)) + a.c
  {
    FlatShift(Flat(Flat(Flat(a.ot, g.temporal, a.kt), g.height, Flat(a.oy, g.patch, a.ky)),
                   g.width, Flat(a.ox, g.patch, a.kx)),
              g.channels, 0, a.c);
  }

  /** The innermost statement: copy one element and advance the cursor. */
  method CopyElement(g: Geometry, x: seq<real>, out: array<real>, ghost a: Place, source: nat, destination: nat)
    requires Valid(g) && In(g, a) && |x| == Pixels(g)
    requires source == Source(g, a) && destination == Dest(g, a) && Extracted(g, x, out[..], destination)
    modifies out
    ensures Extracted(g, x, out[..], destination + 1)
  {
    PlaceOfDestIs(g, a);
    SourceInRange(g, a);
    hide Source, Dest, PlaceOfDest, In, Flat;
    ghost var before := out[..];
    out[destination] := x[source];
    assert out[..] == before[destination := x[source]];
  }

  method CopyPatch(g: Geometry, x: seq<real>, out: array<real>, ot: nat, oy: nat, ox: nat, start: nat)
    returns (destination: nat)
    requires Valid(g) && |x| == Pixels(g) && ot < OutFrames(g) && oy < OutHeight(g) && ox < OutWidth(g)
    requires start == Flat(RowIndex(g, ot, oy, ox), PatchDim(g), 0) && Extracted(g, x, out[..], start)
    modifies out
    ensures destination == Flat(RowIndex(g, ot, oy, ox) + 1, PatchDim(g), 0) && Extracted(g, x, out[..], destination)
  {
    destination := start;
    ghost var row, dim := RowIndex(g, ot, oy, ox), PatchDim(g);
    hide Extracted, Flat, RowIndex, PatchDim, Source;
    NextFeature(g, 0, 0, 0, 0);
    for kt := 0 to g.temporal
      invariant destination == Flat(row, dim, Feature(g, kt, 0, 0, 0)) && Extracted(g, x, out[..], destination)
    {
      for ky := 0 to g.patch
        invariant destination == Flat(row, dim, Feature(g, kt, ky, 0, 0)) && Extracted(g, x, out[..], destination)
      {
        for kx := 0 to g.patch
          invariant destination == Flat(row, dim, Feature(g, kt, ky, kx, 0)) && Extracted(g, x, out[..], destination)
        {
          destination := CopyPixel(g, x, out, ot, oy, ox, kt, ky, kx, destination);
          NextFeature(g, kt, ky, kx, 0);
        }
        NextFeature(g, kt, ky, 0, 0);
      }
      NextFeature(g, kt, 0, 0, 0);
    }
    FlatNext(row, dim);
  }

  /** The channel loop. */
  method CopyPixel(g: Geometry, x: seq<real>, out: array<real>, ot: nat, oy: nat, ox: nat, kt: nat, ky: nat, kx: nat,
                   start: nat)
    returns (destination: nat)
    requires Valid(g) && |x| == Pixels(g) && ot < OutFrames(g) && oy < OutHeight(g) && ox < OutWidth(g)
    requires kt < g.temporal && ky < g.patch && kx < g.patch
    requires start == Flat(RowIndex(g, ot, oy, ox), PatchDim(g), Feature(g, kt, ky, kx, 0))
    requires Extracted(g, x, out[..], start)
    modifies out
    ensures destination == Flat(RowIndex(g, ot, oy, ox), PatchDim(g), Feature(g, kt, ky, kx, g.channels))
    ensures Extracted(g, x, out[..], destination)
  {
    var source := PixelIndex(g, ot, oy, ox, kt, ky, kx);
    destination := start;
    hide Extracted, Flat, RowIndex, PatchDim, Source, Feature, PixelIndex;
    for c := 0 to g.channels
      invariant destination == Flat(RowIndex(g, ot, oy, ox), PatchDim(g), Feature(g, kt, ky, kx, c))
      invariant Extracted(g, x, out[..], destination)
    {
      ghost var a := Place(ot, oy, ox, kt, ky, kx, c);
      ChannelIndex(g, a);
      NextFeature(g, kt, ky, kx, c);
      FlatShift(RowIndex(g, ot, oy, ox), PatchDim(g), Feature(g, kt, ky, kx, c), 1);
      CopyElement(g, x, out, a, source + c, destination);
      destination := destination + 1;
    }
  }

  /** The patchify reference. */
  method Patchify(g: Geometry, x: seq<real>) returns (out: array<real>)
    requires Valid(g) && |x| == Pixels(g)
    ensures Extracted(g, x, out[..], Flat(PatchRows(g), PatchDim(g), 0))
  {
    out := new real[Flat(PatchRows(g), PatchDim(g), 0)](i => 0.0);
    var destination := 0;
    hide Extracted, Flat, PatchRows, PatchDim;
    NothingExtracted(g, x, out[..]);
    NextRow(g, 0, 0, 0);
    FlatNext(0, PatchDim(g));
    for ot := 0 to OutFrames(g)
      invariant destination == Flat(RowIndex(g, ot, 0, 0), PatchDim(g), 0) && Extracted(g, x, out[..], destination)
    {
      for oy := 0 to OutHeight(g)
        invariant destination == Flat(RowIndex(g, ot, oy, 0), PatchDim(g), 0) && Extracted(g, x, out[..], destination)
      {
        for ox := 0 to OutWidth(g)
          invariant destination == Flat(RowIndex(g, ot, oy, ox), PatchDim(g), 0)
          invariant Extracted(g, x, out[..], destination)
        {
          destination := CopyPatch(g, x, out, ot, oy, ox, destination);
          NextRow(g, ot, oy, ox);
        }
        NextRow(g, ot, oy, 0);
      }
      NextRow(g, ot, 0, 0);
    }
    NextRow(g, OutFrames(g), 0, 0);
  }

  lemma NothingExtracted(g: Geometry, x: seq<real>, out: seq<real>)
    requires Valid(g) && |x| == Pixels(g) && |out| == Flat(PatchRows(g), PatchDim(g), 0)
    ensures Extracted(g, x, out, 0)
  {
  }

  // ---------- fused projection ----------

  /** The first n products of one patch with one weight row, read straight from the image. */
  function ImageDot(g: Geometry, x: seq<real>, weights: seq<real>, row: nat, n: nat): real
    requires Valid(g) && |x| == Pixels(g) && row < PatchRows(g) && n <= PatchDim(g) == |weights|
  {
    if n == 0 then 0.0
    else
      FlatOrder(row, PatchRows(g), PatchDim(g), n - 1, 0);
      ImageDot(g, x, weights, row, n - 1) + Times(x[SourceOf(g, Flat(row, PatchDim(g), n - 1))], weights[n - 1])
  }

  lemma ImageDotStep(g: Geometry, x: seq<real>, weights: seq<real>, a: Place)
    requires Valid(g) && In(g, a) && |x| == Pixels(g) && |weights| == PatchDim(g)
    ensures var row, n := RowIndex(g, a.ot, a.oy, a.ox), Feature(g, a.kt, a.ky, a.kx, a.c);
      && row < PatchRows(g) && n < PatchDim(g) && Source(g, a) < |x|
      && ImageDot(g, x, weights, row, n + 1)
         == ImageDot(g, x, weights, row, n) + Times(x[Source(g, a)], weights[n])
  {
    DestInRange(g, a);
    PlaceOfDestIs(g, a);
    SourceInRange(g, a);
    hide Flat, Source, PlaceOfDest, RowIndex, Feature, PatchDim, PatchRows, Times;
  }

  /** The feature loops of one output: a running feature cursor beside the image index. */
  method ProjectOne(g: Geometry, x: seq<real>, w: seq<real>, bias: real, ot: nat, oy: nat, ox: nat, o: nat)
    returns (sum: real)
    requires Valid(g) && |x| == Pixels(g) && ot < OutFrames(g) && oy < OutHeight(g) && ox < OutWidth(g)
    requires Flat(o, PatchDim(g), 0) + PatchDim(g) <= |w|
    ensures RowIndex(g, ot, oy, ox) < PatchRows(g)
    ensures sum == bias + ImageDot(g, x, RowOf(w, o, PatchDim(g)), RowIndex(g, ot, oy, ox), PatchDim(g))
  {
    RowInRange(g, ot, oy, ox);
    sum := bias;
    var feature := 0;
    ghost var row, weights := RowIndex(g, ot, oy, ox), RowOf(w, o, PatchDim(g));
    hide Flat, RowIndex, PatchDim, PatchRows, Source, Feature, Times, ImageDot;
    NextFeature(g, 0, 0, 0, 0);
    NoProducts(g, x, weights, row);
    for kt := 0 to g.temporal
      invariant feature == Feature(g, kt, 0, 0, 0) <= PatchDim(g)
      invariant sum == bias + ImageDot(g, x, weights, row, feature)
    {
      for ky := 0 to g.patch
        invariant feature == Feature(g, kt, ky, 0, 0) <= PatchDim(g)
        invariant sum == bias + ImageDot(g, x, weights, row, feature)
      {
        for kx := 0 to g.patch
          invariant feature == Feature(g, kt, ky, kx, 0) <= PatchDim(g)
          invariant sum == bias + ImageDot(g, x, weights, row, feature)
        {
          sum, feature := ProjectPixel(g, x, w, Place(ot, oy, ox, kt, ky, kx, 0), o, sum, bias, feature);
          NextFeature(g, kt, ky, kx, 0);
        }
        NextFeature(g, kt, ky, 0, 0);
      }
      NextFeature(g, kt, 0, 0, 0);
    }
  }

  lemma NoProducts(g: Geometry, x: seq<real>, weights: seq<real>, row: nat)
    requires Valid(g) && |x| == Pixels(g) && row < PatchRows(g) && |weights| == PatchDim(g)
    ensures ImageDot(g, x, weights, row, 0) == 0.0
  {
  }

  lemma RowInRange(g: Geometry, ot: nat, oy: nat, ox: nat)
    requires Valid(g) && ot < OutFrames(g) && oy < OutHeight(g) && ox < OutWidth(g)
    ensures RowIndex(g, ot, oy, ox) < PatchRows(g)
  {
    FlatOrder(ot, OutFrames(g), OutHeight(g), oy, 0);
    FlatOrder(Flat(ot, OutHeight(g), oy), Flat(OutFrames(g), OutHeight(g), 0), OutWidth(g), ox, 0);
  }

  lemma WeightAt(w: seq<real>, o: nat, n: nat, f: nat)
    requires Flat(o, n, 0) + n <= |w| && f < n
    ensures RowOf(w, o, n)[f] == w[Flat(o, n, 0) + f]
  {
  }

  /** The innermost statement of the projection. */
  method AddProduct(g: Geometry, x: seq<real>, w: seq<real>, ghost a: Place, source: nat, o: nat, start: real,
                    ghost bias: real, feature: nat)
    returns (sum: real)
    requires Valid(g) && In(g, a) && |x| == Pixels(g) && RowIndex(g, a.ot, a.oy, a.ox) < PatchRows(g)
    requires Flat(o, PatchDim(g), 0) + PatchDim(g) <= |w| && source == Source(g, a)
    requires feature == Feature(g, a.kt, a.ky, a.kx, a.c) <= PatchDim(g)
    requires start == bias + ImageDot(g, x, RowOf(w, o, PatchDim(g)), RowIndex(g, a.ot, a.oy, a.ox), feature)
    ensures feature + 1 <= PatchDim(g)
    ensures sum == bias + ImageDot(g, x, RowOf(w, o, PatchDim(g)), RowIndex(g, a.ot, a.oy, a.ox), feature + 1)
  {
    hide Flat, RowIndex, PatchDim, Source, Feature, RowMajor, Times, ImageDot, PatchRows, Pixels, RowOf, In;
    ImageDotStep(g, x, RowOf(w, o, PatchDim(g)), a);
    WeightAt(w, o, PatchDim(g), feature);
    sum := start + Times(x[source], w[RowMajor(o, PatchDim(g), 0) + feature]);
  }

  /** The channel loop at one position of a patch. */
  method ProjectPixel(g: Geometry, x: seq<real>, w: seq<real>, a: Place, o: nat, start: real, ghost bias: real, first: nat)
    returns (sum: real, feature: nat)
    requires Valid(g) && |x| == Pixels(g) && a.c == 0 && RowIndex(g, a.ot, a.oy, a.ox) < PatchRows(g)
    requires a.ot < OutFrames(g) && a.oy < OutHeight(g) && a.ox < OutWidth(g)
    requires a.kt < g.temporal && a.ky < g.patch && a.kx < g.patch
    requires Flat(o, PatchDim(g), 0) + PatchDim(g) <= |w|
    requires first == Feature(g, a.kt, a.ky, a.kx, 0) <= PatchDim(g)
    requires start == bias + ImageDot(g, x, RowOf(w, o, PatchDim(g)), RowIndex(g, a.ot, a.oy, a.ox), first)
    ensures feature == Feature(g, a.kt, a.ky, a.kx, g.channels) <= PatchDim(g)
    ensures sum == bias + ImageDot(g, x, RowOf(w, o, PatchDim(g)), RowIndex(g, a.ot, a.oy, a.ox), feature)
  {
    var source := PixelIndex(g, a.ot, a.oy, a.ox, a.kt, a.ky, a.kx);
    ghost var row, weights := RowIndex(g, a.ot, a.oy, a.ox), RowOf(w, o, PatchDim(g));
    sum, feature := start, first;
    hide Flat, RowIndex, PatchDim, Source, Feature, PixelIndex, ImageDot, PatchRows, Pixels, RowOf, OutFrames, OutHeight, OutWidth;
    for c := 0 to g.channels
      invariant feature == Feature(g, a.kt, a.ky, a.kx, c) <= PatchDim(g)
      invariant sum == bias + ImageDot(g, x, weights, row, feature)
    {
      ChannelIndex(g, a.(c := c));
      NextFeature(g, a.kt, a.ky, a.kx, c);
      sum := AddProduct(g, x, w, a.(c := c), source + c, o, sum, bias, feature);
      feature := feature + 1;
    }
  }

  /** The fused sum is the product of the extracted patch with the weight row. */
  lemma {:induction false} FusedIsPatchProduct(g: Geometry, x: seq<real>, patches: seq<real>, weights: seq<real>,
                                               row: nat, n: nat)
    requires Valid(g) && |x| == Pixels(g) && row < PatchRows(g) && n <= PatchDim(g) == |weights|
    requires Extracted(g, x, patches, Flat(PatchRows(g), PatchDim(g), 0))
    ensures Flat(row, PatchDim(g), 0) + PatchDim(g) <= |patches|
    ensures ImageDot(g, x, weights, row, n) == Dot(RowOf(patches, row, PatchDim(g))[..n], weights[..n])
    decreases n
  {
    hide Flat, PatchDim, PatchRows, Times, SourceOf;
    RowInside(row, PatchRows(g), PatchDim(g));
    if n > 0 {
      FusedIsPatchProduct(g, x, patches, weights, row, n - 1);
      PatchEntry(g, x, patches, row, n - 1);
      hide Extracted, RowOf;
      DotStep(RowOf(patches, row, PatchDim(g)), weights, n - 1);
    }
  }

  lemma PatchEntry(g: Geometry, x: seq<real>, patches: seq<real>, row: nat, f: nat)
    requires Valid(g) && |x| == Pixels(g) && row < PatchRows(g) && f < PatchDim(g)
    requires Extracted(g, x, patches, Flat(PatchRows(g), PatchDim(g), 0))
    ensures Flat(row, PatchDim(g), f) < Flat(PatchRows(g), PatchDim(g), 0)
    ensures Flat(row, PatchDim(g), 0) + PatchDim(g) <= |patches|
    ensures RowOf(patches, row, PatchDim(g))[f] == x[SourceOf(g, Flat(row, PatchDim(g), f))]
  {
    hide Flat, PatchDim, PatchRows, SourceOf;
    RowInside(row, PatchRows(g), PatchDim(g));
    FlatOrder(row, PatchRows(g), PatchDim(g), f, 0);
    FlatShift(row, PatchDim(g), 0, f);
  }

  /** Output entries before `done` hold bias plus product. */
  ghost predicate Projected(g: Geometry, x: seq<real>, w: seq<real>, bias: seq<real>, out: seq<real>, done: nat)
    requires Valid(g) && |x| == Pixels(g) && |w| == Flat(|bias|, PatchDim(g), 0)
  {
    && |out| == Flat(PatchRows(g), |bias|, 0)
    && forall row: nat, o: nat | row < PatchRows(g) && o < |bias| && Flat(row, |bias|, o) < done ::
         ProjectedAt(g, x, w, bias, out, row, o)
  }

  ghost predicate ProjectedAt(g: Geometry, x: seq<real>, w: seq<real>, bias: seq<real>, out: seq<real>, row: nat, o: nat)
    requires Valid(g) && |x| == Pixels(g) && |w| == Flat(|bias|, PatchDim(g), 0) && row < PatchRows(g) && o < |bias|
  {
    RowInside(o, |bias|, PatchDim(g));
    && Flat(row, |bias|, o) < |out|
    && out[Flat(row, |bias|, o)] == bias[o] + ImageDot(g, x, RowOf(w, o, PatchDim(g)), row, PatchDim(g))
  }

  lemma ProjectedStep(g: Geometry, x: seq<real>, w: seq<real>, bias: seq<real>, before: seq<real>, after: seq<real>,
                      row: nat, o: nat)
    requires Valid(g) && |x| == Pixels(g) && |w| == Flat(|bias|, PatchDim(g), 0) && row < PatchRows(g) && o < |bias|
    requires Projected(g, x, w, bias, before, Flat(row, |bias|, o)) && |after| == |before|
    requires forall i | 0 <= i < |after| && i != Flat(row, |bias|, o) :: after[i] == before[i]
    requires ProjectedAt(g, x, w, bias, after, row, o)
    ensures Projected(g, x, w, bias, after, Flat(row, |bias|, o) + 1)
  {
    hide Flat, ProjectedAt, PatchDim, PatchRows;
    var next := Flat(row, |bias|, o) + 1;
    forall r: nat, p: nat | r < PatchRows(g) && p < |bias| && Flat(r, |bias|, p) < next
      ensures ProjectedAt(g, x, w, bias, after, r, p)
    {
      if Flat(r, |bias|, p) == Flat(row, |bias|, o) {
        FlatInjective(r, row, |bias|, p, o);
      } else {
        ProjectedKept(g, x, w, bias, before, after, Flat(row, |bias|, o), r, p);
      }
    }
  }

  lemma ProjectedKept(g: Geometry, x: seq<real>, w: seq<real>, bias: seq<real>, before: seq<real>, after: seq<real>,
                      at: nat, row: nat, o: nat)
    requires Valid(g) && |x| == Pixels(g) && |w| == Flat(|bias|, PatchDim(g), 0) && row < PatchRows(g) && o < |bias|
    requires ProjectedAt(g, x, w, bias, before, row, o) && |after| == |before|
    requires (forall i | 0 <= i < |after| && i != at :: after[i] == before[i]) && Flat(row, |bias|, o) != at
    ensures ProjectedAt(g, x, w, bias, after, row, o)
  {
    hide ImageDot, PatchDim, PatchRows, RowOf, Flat;
  }

  /** One output of the fused projection. */
  method StoreProjection(g: Geometry, x: seq<real>, w: seq<real>, bias: seq<real>, out: array<real>, ot: nat, oy: nat,
                         ox: nat, o: nat)
    requires Valid(g) && |x| == Pixels(g) && |w| == Flat(|bias|, PatchDim(g), 0)
    requires ot < OutFrames(g) && oy < OutHeight(g) && ox < OutWidth(g) && o < |bias|
    requires Projected(g, x, w, bias, out[..], Flat(RowIndex(g, ot, oy, ox), |bias|, o))
    modifies out
    ensures Projected(g, x, w, bias, out[..], Flat(RowIndex(g, ot, oy, ox), |bias|, o) + 1)
  {
    RowInside(o, |bias|, PatchDim(g));
    var sum := ProjectOne(g, x, w, bias[o], ot, oy, ox, o);
    ghost var row, before := RowIndex(g, ot, oy, ox), out[..];
    FlatOrder(row, PatchRows(g), |bias|, o, 0);
    hide ImageDot, PatchDim, PatchRows;
    out[RowMajor(RowMajor(RowMajor(ot, OutHeight(g), oy), OutWidth(g), ox), |bias|, o)] := sum;
    ProjectedStep(g, x, w, bias, before, out[..], row, o);
  }

  /** All outputs of one patch. */
  method ProjectRow(g: Geometry, x: seq<real>, w: seq<real>, bias: seq<real>, out: array<real>, ot: nat, oy: nat, ox: nat)
    requires Valid(g) && |x| == Pixels(g) && |w| == Flat(|bias|, PatchDim(g), 0)
    requires ot < OutFrames(g) && oy < OutHeight(g) && ox < OutWidth(g)
    requires Projected(g, x, w, bias, out[..], Flat(RowIndex(g, ot, oy, ox), |bias|, 0))
    modifies out
    ensures Projected(g, x, w, bias, out[..], Flat(RowIndex(g, ot, oy, ox) + 1, |bias|, 0))
  {
    hide Projected, Flat, PatchRows, PatchDim, RowIndex;
    for o := 0 to |bias|
      invariant Projected(g, x, w, bias, out[..], Flat(RowIndex(g, ot, oy, ox), |bias|, o))
    {
      StoreProjection(g, x, w, bias, out, ot, oy, ox, o);
      FlatShift(RowIndex(g, ot, oy, ox), |bias|, o, 1);
    }
    FlatNext(RowIndex(g, ot, oy, ox), |bias|);
  }

  /** The fused patch projection. */
  method ProjectPatches(g: Geometry, x: seq<real>, w: seq<real>, bias: seq<real>) returns (out: array<real>)
    requires Valid(g) && |x| == Pixels(g) && |w| == Flat(|bias|, PatchDim(g), 0)
    ensures Projected(g, x, w, bias, out[..], Flat(PatchRows(g), |bias|, 0))
  {
    out := new real[Flat(PatchRows(g), |bias|, 0)](i => 0.0);
    NothingProjected(g, x, w, bias, out[..]);
    hide Projected, Flat, PatchRows, PatchDim, RowIndex;
    NextRow(g, 0, 0, 0);
    FlatNext(0, |bias|);
    for ot := 0 to OutFrames(g)
      invariant Projected(g, x, w, bias, out[..], Flat(RowIndex(g, ot, 0, 0), |bias|, 0))
    {
      for oy := 0 to OutHeight(g)
        invariant Projected(g, x, w, bias, out[..], Flat(RowIndex(g, ot, oy, 0), |bias|, 0))
      {
        for ox := 0 to OutWidth(g)
          invariant Projected(g, x, w, bias, out[..], Flat(RowIndex(g, ot, oy, ox), |bias|, 0))
        {
          ProjectRow(g, x, w, bias, out, ot, oy, ox);
          NextRow(g, ot, oy, ox);
        }
        NextRow(g, ot, oy, 0);
      }
      NextRow(g, ot, 0, 0);
    }
    NextRow(g, OutFrames(g), 0, 0);
  }

  lemma NothingProjected(g: Geometry, x: seq<real>, w: seq<real>, bias: seq<real>, out: seq<real>)
    requires Valid(g) && |x| == Pixels(g) && |w| == Flat(|bias|, PatchDim(g), 0) && |out| == Flat(PatchRows(g), |bias|, 0)
    ensures Projected(g, x, w, bias, out, 0)
  {
  }

  /** Hence the fused projection is patch extraction followed by a matrix product and the bias. */
  lemma FusedIsPatchifyThenMatmul(g: Geometry, x: seq<real>, w: seq<real>, bias: seq<real>, patches: seq<real>,
                                  out: seq<real>, row: nat, o: nat)
    requires Valid(g) && |x| == Pixels(g) && |w| == Flat(|bias|, PatchDim(g), 0)
    requires Extracted(g, x, patches, Flat(PatchRows(g), PatchDim(g), 0))
    requires Projected(g, x, w, bias, out, Flat(PatchRows(g), |bias|, 0))
    requires row < PatchRows(g) && o < |bias|
    ensures Flat(row, |bias|, o) < |out|
    ensures Flat(row, PatchDim(g), 0) + PatchDim(g) <= |patches| && Flat(o, PatchDim(g), 0) + PatchDim(g) <= |w|
    ensures out[Flat(row, |bias|, o)] == bias[o] + Dot(RowOf(patches, row, PatchDim(g)), RowOf(w, o, PatchDim(g)))
  {
    FlatOrder(row, PatchRows(g), |bias|, o, 0);
    RowInside(o, |bias|, PatchDim(g));
    assert ProjectedAt(g, x, w, bias, out, row, o);
    FusedIsPatchProduct(g, x, patches, RowOf(w, o, PatchDim(g)), row, PatchDim(g));
    var p, q := RowOf(patches, row, PatchDim(g)), RowOf(w, o, PatchDim(g));
    assert p[..PatchDim(g)] == p && q[..PatchDim(g)] == q;
  }

  // ---------- planar images ----------

  /** With one frame the indices are the planar ones of the two-dimensional loops. */
  lemma PlanarIndices(g: Geometry, oy: nat, ox: nat, ky: nat, kx: nat, c: nat)
    requires g.patch > 0 && g.frames == g.temporal == 1
    ensures OutFrames(g) == 1
    ensures Source(g, Place(0, oy, ox, 0, ky, kx, c))
         == Flat(Flat(Flat(oy, g.patch, ky), g.width, Flat(ox, g.patch, kx)), g.channels, c)
    ensures RowIndex(g, 0, oy, ox) == Flat(oy, OutWidth(g), ox)
    ensures Feature(g, 0, ky, kx, c) == Flat(Flat(ky, g.patch, kx), g.channels, c)
    ensures PatchDim(g) == Flat(Flat(g.patch, g.patch, 0), g.channels, 0)
    ensures PatchRows(g) == Flat(OutHeight(g), OutWidth(g), 0)
  {
    FlatNext(0, g.patch);
    FlatShift(0, g.height, 0, Flat(oy, g.patch, ky));
    FlatShift(0, OutHeight(g), 0, oy);
    FlatShift(0, g.patch, 0, ky);
    FlatNext(0, OutHeight(g));
  }
}
