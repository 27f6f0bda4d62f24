/** Patch extraction and the fused projection written out over the image: nested row-major indices on both sides. */
module PatchFormula {
  import opened Arith
  import opened Reals
  import opened Rows
  import opened Sums
  import opened PatchLayout
  import opened Patches

  /** The image element at position (kt, ky, kx) and channel c of patch (ot, oy, ox). */
  function Shown(g: Geometry, x: seq<real>, a: Place): real {
    At(x, RowMajor(RowMajor(RowMajor(RowMajor(a.ot, g.temporal, a.kt), g.height, RowMajor(a.oy, g.patch, a.ky)),
                            g.width, RowMajor(a.ox, g.patch, a.kx)), g.channels, a.c), 0.0)
  }

  /** The entries of a patch, and the row of a patch. */
  function Entries(g: Geometry): nat {
    RowMajor(RowMajor(RowMajor(g.temporal, g.patch, 0), g.patch, 0), g.channels, 0)
  }

  function EntryIndex(g: Geometry, a: Place): nat {
    RowMajor(RowMajor(RowMajor(a.kt, g.patch, a.ky), g.patch, a.kx), g.channels, a.c)
  }

  function PatchIndex(g: Geometry, a: Place): nat
    requires g.patch > 0
  {
    RowMajor(RowMajor(a.ot, Quot(g.height, g.patch), a.oy), Quot(g.width, g.patch), a.ox)
  }

  predicate Inside(g: Geometry, a: Place)
    requires g.temporal > 0 && g.patch > 0
  {
    && a.ot < Quot(g.frames, g.temporal) && a.oy < Quot(g.height, g.patch) && a.ox < Quot(g.width, g.patch)
    && a.kt < g.temporal && a.ky < g.patch && a.kx < g.patch && a.c < g.channels
  }

  lemma PatchifyWrittenOut(g: Geometry, x: seq<real>, out: seq<real>, a: Place)
    requires Valid(g) && g.patch > 0 && |x| == Pixels(g) && Inside(g, a)
    requires Extracted(g, x, out, Flat(PatchRows(g), PatchDim(g), 0))
    ensures At(out, RowMajor(PatchIndex(g, a), Entries(g), EntryIndex(g, a)), 0.0) == Shown(g, x, a)
  {
    DestInRange(g, a);
    PlaceOfDestIs(g, a);
    SourceInRange(g, a);
    hide RowMajor, PlaceOfDest, Quot, Pixels, PatchRows;
  }

  /** The place of an entry, from its patch. */
  lemma PlaceOfEntry(g: Geometry, a: Place, n: nat) returns (b: Place)
    requires Valid(g) && In(g, a) && n < PatchDim(g)
    ensures In(g, b) && b.ot == a.ot && b.oy == a.oy && b.ox == a.ox && Feature(g, b.kt, b.ky, b.kx, b.c) == n
    ensures RowIndex(g, a.ot, a.oy, a.ox) < PatchRows(g)
    ensures Flat(RowIndex(g, a.ot, a.oy, a.ox), PatchDim(g), n) < Flat(PatchRows(g), PatchDim(g), 0)
    ensures SourceOf(g, Flat(RowIndex(g, a.ot, a.oy, a.ox), PatchDim(g), n)) == Source(g, b)
  {
    DestInRange(g, a);
    var row := RowIndex(g, a.ot, a.oy, a.ox);
    FlatOrder(row, PatchRows(g), PatchDim(g), n, 0);
    b := PlaceOfDest(g, Flat(row, PatchDim(g), n));
    DestOfPlace(g, Flat(row, PatchDim(g), n));
    DestInRange(g, b);
    hide Flat, PatchDim, PatchRows, PlaceOfDest, Source, Feature;
    FlatInjective(RowIndex(g, b.ot, b.oy, b.ox), row, PatchDim(g), Feature(g, b.kt, b.ky, b.kx, b.c), n);
    FlatInjective(Flat(b.ot, OutHeight(g), b.oy), Flat(a.ot, OutHeight(g), a.oy), OutWidth(g), b.ox, a.ox);
    FlatInjective(b.ot, a.ot, OutHeight(g), b.oy, a.oy);
  }

  /** term(i) is the product of the patch's entry i with weight i of output o. */
  ghost predicate Products(g: Geometry, x: seq<real>, w: seq<real>, a: Place, o: nat, term: nat -> real)
    requires g.temporal > 0 && g.patch > 0
  {
    forall b: Place | Inside(g, b) && b.ot == a.ot && b.oy == a.oy && b.ox == a.ox ::
      term(EntryIndex(g, b)) == Times(Shown(g, x, b), At(w, RowMajor(o, Entries(g), EntryIndex(g, b)), 0.0))
  }

  lemma {:induction false} ImageDotIsSum(g: Geometry, x: seq<real>, w: seq<real>, a: Place, o: nat, n: nat,
                                         term: nat -> real)
    requires Valid(g) && |x| == Pixels(g) && In(g, a) && Products(g, x, w, a, o, term)
    requires n <= PatchDim(g) && Flat(o, PatchDim(g), 0) + PatchDim(g) <= |w| && RowIndex(g, a.ot, a.oy, a.ox) < PatchRows(g)
    ensures ImageDot(g, x, RowOf(w, o, PatchDim(g)), RowIndex(g, a.ot, a.oy, a.ox), n) == SumTo(term, n)
    decreases n
  {
    hide Products, Flat, PatchDim, PatchRows, Pixels, RowOf, RowIndex, SourceOf, Times, In;
    if n > 0 {
      ImageDotIsSum(g, x, w, a, o, n - 1, term);
      LastProduct(g, x, w, a, o, n - 1, term);
    }
  }

  lemma LastProduct(g: Geometry, x: seq<real>, w: seq<real>, a: Place, o: nat, n: nat, term: nat -> real)
    requires Valid(g) && |x| == Pixels(g) && In(g, a) && Products(g, x, w, a, o, term)
    requires n < PatchDim(g) && Flat(o, PatchDim(g), 0) + PatchDim(g) <= |w| && RowIndex(g, a.ot, a.oy, a.ox) < PatchRows(g)
    ensures var weights, row := RowOf(w, o, PatchDim(g)), RowIndex(g, a.ot, a.oy, a.ox);
      ImageDot(g, x, weights, row, n + 1) == ImageDot(g, x, weights, row, n) + term(n)
  {
    hide Products, Flat, PatchDim, PatchRows, Pixels, RowOf, RowIndex, Source, SourceOf, Feature, Times, In, ImageDot;
    var b := PlaceOfEntry(g, a, n);
    ProductIs(g, x, w, a, b, o, term);
    ImageDotStep(g, x, RowOf(w, o, PatchDim(g)), b);
  }

  lemma ProductIs(g: Geometry, x: seq<real>, w: seq<real>, a: Place, b: Place, o: nat, term: nat -> real)
    requires Valid(g) && |x| == Pixels(g) && Products(g, x, w, a, o, term)
    requires In(g, b) && b.ot == a.ot && b.oy == a.oy && b.ox == a.ox
    requires Flat(o, PatchDim(g), 0) + PatchDim(g) <= |w|
    ensures var f := Feature(g, b.kt, b.ky, b.kx, b.c);
      f < PatchDim(g) && Source(g, b) < |x| && term(f) == Times(x[Source(g, b)], RowOf(w, o, PatchDim(g))[f])
  {
    DestInRange(g, b);
    SourceInRange(g, b);
    hide RowMajor, Times, RowOf, Quot;
    assert EntryIndex(g, b) == Feature(g, b.kt, b.ky, b.kx, b.c) && Entries(g) == PatchDim(g);
    RowElement(w, o, PatchDim(g), Feature(g, b.kt, b.ky, b.kx, b.c), 0.0);
  }

  /** An output of the projection is its bias and the sum of these products. */
  lemma ProjectionWrittenOut(g: Geometry, x: seq<real>, w: seq<real>, bias: seq<real>, out: seq<real>, a: Place, o: nat,
                             term: nat -> real)
    requires Valid(g) && g.temporal > 0 && g.patch > 0 && |x| == Pixels(g) && |w| == Flat(|bias|, PatchDim(g), 0)
    requires Projected(g, x, w, bias, out, Flat(PatchRows(g), |bias|, 0)) && Inside(g, a) && o < |bias|
    requires Products(g, x, w, a, o, term)
    ensures At(out, RowMajor(PatchIndex(g, a), |bias|, o), 0.0) == bias[o] + SumTo(term, Entries(g))
  {
    DestInRange(g, a);
    RowInside(o, |bias|, PatchDim(g));
    ImageDotIsSum(g, x, w, a, o, PatchDim(g), term);
    var row := RowIndex(g, a.ot, a.oy, a.ox);
    FlatOrder(row, PatchRows(g), |bias|, o, 0);
    assert ProjectedAt(g, x, w, bias, out, row, o);
    hide RowMajor, ImageDot, RowOf, Times, Products, Quot;
    assert Entries(g) == PatchDim(g) && PatchIndex(g, a) == row;
  }
}
