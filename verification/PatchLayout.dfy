/**
 The index map between an NTHWC image and its transformer patches (benchmarks/cases/basert.cpp). A planar image is
 the case of one frame and temporal extent one.
 */
module PatchLayout {
  import opened Arith

  datatype Geometry = Geometry(frames: nat, height: nat, width: nat, channels: nat, temporal: nat, patch: nat)

  predicate Valid(g: Geometry) {
    g.temporal > 0 && g.patch > 0
  }

  function OutFrames(g: Geometry): nat
    requires Valid(g)
  {
    Quot(g.frames, g.temporal)
  }

  function OutHeight(g: Geometry): nat
    requires Valid(g)
  {
    Quot(g.height, g.patch)
  }

  function OutWidth(g: Geometry): nat
    requires Valid(g)
  {
    Quot(g.width, g.patch)
  }

  /** Sizes that the patches tile without remainder. */
  predicate Divisible(g: Geometry)
    requires Valid(g)
  {
    Rem(g.frames, g.temporal) == 0 && Rem(g.height, g.patch) == 0 && Rem(g.width, g.patch) == 0
  }

  /** A patch, and a position inside it. */
  datatype Place = Place(ot: nat, oy: nat, ox: nat, kt: nat, ky: nat, kx: nat, c: nat)

  predicate In(g: Geometry, a: Place)
    requires Valid(g)
  {
    && a.ot < OutFrames(g) && a.oy < OutHeight(g) && a.ox < OutWidth(g)
    && a.kt < g.temporal && a.ky < g.patch && a.kx < g.patch && a.c < g.channels
  }

  function PatchRows(g: Geometry): nat
    requires Valid(g)
  {
    Flat(Flat(OutFrames(g), OutHeight(g), 0), OutWidth(g), 0)
  }

  function PatchDim(g: Geometry): nat {
    Flat(Flat(Flat(g.temporal, g.patch, 0), g.patch, 0), g.channels, 0)
  }

  function Pixels(g: Geometry): nat {
    Flat(Flat(Flat(g.frames, g.height, 0), g.width, 0), g.channels, 0)
  }

  function RowIndex(g: Geometry, ot: nat, oy: nat, ox: nat): nat
    requires Valid(g)
  {
    Flat(Flat(ot, OutHeight(g), oy), OutWidth(g), ox)
  }

  function Feature(g: Geometry, kt: nat, ky: nat, kx: nat, c: nat): nat {
    Flat(Flat(Flat(kt, g.patch, ky), g.patch, kx), g.channels, c)
  }

  /** Where the patch entry goes: a row per patch, a feature per position. */
  function Dest(g: Geometry, a: Place): nat
    requires Valid(g)
  {
    Flat(RowIndex(g, a.ot, a.oy, a.ox), PatchDim(g), Feature(g, a.kt, a.ky, a.kx, a.c))
  }

  /** Where it comes from in the image. */
  function Source(g: Geometry, a: Place): nat {
    Flat(Flat(Flat(Flat(a.ot, g.temporal, a.kt), g.height, Flat(a.oy, g.patch, a.ky)),
              g.width, Flat(a.ox, g.patch, a.kx)),
         g.channels, a.c)
  }

  // ---------- reading the places back ----------

  /** The place of output entry i. */
  function PlaceOfDest(g: Geometry, i: nat): Place
    requires Valid(g) && i < Flat(PatchRows(g), PatchDim(g), 0)
  {
    DestParts(g, i);
    var row, f := Quot(i, PatchDim(g)), Rem(i, PatchDim(g));
    var plane, pixel := Quot(row, OutWidth(g)), Quot(f, g.channels);
    var line := Quot(pixel, g.patch);
    Place(Quot(plane, OutHeight(g)), Rem(plane, OutHeight(g)), Rem(row, OutWidth(g)),
          Quot(line, g.patch), Rem(line, g.patch), Rem(pixel, g.patch), Rem(f, g.channels))
  }

  lemma DestParts(g: Geometry, i: nat)
    requires Valid(g) && i < Flat(PatchRows(g), PatchDim(g), 0)
    ensures PatchDim(g) > 0 && g.channels > 0 && OutWidth(g) > 0 && OutHeight(g) > 0
    ensures Quot(i, PatchDim(g)) < PatchRows(g)
    ensures Quot(Quot(i, PatchDim(g)), OutWidth(g)) < Flat(OutFrames(g), OutHeight(g), 0)
    ensures Quot(Rem(i, PatchDim(g)), g.channels) < Flat(Flat(g.temporal, g.patch, 0), g.patch, 0)
    ensures Quot(Quot(Rem(i, PatchDim(g)), g.channels), g.patch) < Flat(g.temporal, g.patch, 0)
  {
    FlatSplit(i, PatchRows(g), PatchDim(g));
    var row, f := Quot(i, PatchDim(g)), Rem(i, PatchDim(g));
    FlatSplit(row, Flat(OutFrames(g), OutHeight(g), 0), OutWidth(g));
    FlatSplit(Quot(row, OutWidth(g)), OutFrames(g), OutHeight(g));
    FlatSplit(f, Flat(Flat(g.temporal, g.patch, 0), g.patch, 0), g.channels);
    FlatSplit(Quot(f, g.channels), Flat(g.temporal, g.patch, 0), g.patch);
  }

  /** Every output entry has a place, and the place leads back to it. */
  lemma DestOfPlace(g: Geometry, i: nat)
    requires Valid(g) && i < Flat(PatchRows(g), PatchDim(g), 0)
    ensures In(g, PlaceOfDest(g, i)) && Dest(g, PlaceOfDest(g, i)) == i
  {
    DestParts(g, i);
    FlatSplit(i, PatchRows(g), PatchDim(g));
    var row, f := Quot(i, PatchDim(g)), Rem(i, PatchDim(g));
    FlatSplit(row, Flat(OutFrames(g), OutHeight(g), 0), OutWidth(g));
    FlatSplit(Quot(row, OutWidth(g)), OutFrames(g), OutHeight(g));
    FlatSplit(f, Flat(Flat(g.temporal, g.patch, 0), g.patch, 0), g.channels);
    FlatSplit(Quot(f, g.channels), Flat(g.temporal, g.patch, 0), g.patch);
    FlatSplit(Quot(Quot(f, g.channels), g.patch), g.temporal, g.patch);
  }

  lemma DestInRange(g: Geometry, a: Place)
    requires Valid(g) && In(g, a)
    ensures RowIndex(g, a.ot, a.oy, a.ox) < PatchRows(g) && Feature(g, a.kt, a.ky, a.kx, a.c) < PatchDim(g)
    ensures Dest(g, a) < Flat(PatchRows(g), PatchDim(g), 0)
  {
    FlatOrder(a.ot, OutFrames(g), OutHeight(g), a.oy, 0);
    FlatOrder(Flat(a.ot, OutHeight(g), a.oy), Flat(OutFrames(g), OutHeight(g), 0), OutWidth(g), a.ox, 0);
    FlatOrder(a.kt, g.temporal, g.patch, a.ky, 0);
    FlatOrder(Flat(a.kt, g.patch, a.ky), Flat(g.temporal, g.patch, 0), g.patch, a.kx, 0);
    FlatOrder(Flat(Flat(a.kt, g.patch, a.ky), g.patch, a.kx), Flat(Flat(g.temporal, g.patch, 0), g.patch, 0), g.channels, a.c, 0);
    FlatOrder(RowIndex(g, a.ot, a.oy, a.ox), PatchRows(g), PatchDim(g), Feature(g, a.kt, a.ky, a.kx, a.c), 0);
  }

  lemma PlaceOfDestIs(g: Geometry, a: Place)
    requires Valid(g) && In(g, a)
    ensures Dest(g, a) < Flat(PatchRows(g), PatchDim(g), 0) && PlaceOfDest(g, Dest(g, a)) == a
  {
    DestInRange(g, a);
    FlatQuotRem(RowIndex(g, a.ot, a.oy, a.ox), PatchDim(g), Feature(g, a.kt, a.ky, a.kx, a.c));
    FlatQuotRem(Flat(a.ot, OutHeight(g), a.oy), OutWidth(g), a.ox);
    FlatQuotRem(a.ot, OutHeight(g), a.oy);
    FlatQuotRem(Flat(Flat(a.kt, g.patch, a.ky), g.patch, a.kx), g.channels, a.c);
    FlatQuotRem(Flat(a.kt, g.patch, a.ky), g.patch, a.kx);
    FlatQuotRem(a.kt, g.patch, a.ky);
  }

  /** Floor division never reaches past the image. */
  lemma SourceInRange(g: Geometry, a: Place)
    requires Valid(g) && In(g, a)
    ensures Flat(a.ot, g.temporal, a.kt) < g.frames
    ensures Flat(a.oy, g.patch, a.ky) < g.height && Flat(a.ox, g.patch, a.kx) < g.width
    ensures Source(g, a) < Pixels(g)
  {
    InTile(g.frames, g.temporal, a.ot, a.kt);
    InTile(g.height, g.patch, a.oy, a.ky);
    InTile(g.width, g.patch, a.ox, a.kx);
    var t, y, x := Flat(a.ot, g.temporal, a.kt), Flat(a.oy, g.patch, a.ky), Flat(a.ox, g.patch, a.kx);
    FlatOrder(t, g.frames, g.height, y, 0);
    FlatOrder(Flat(t, g.height, y), Flat(g.frames, g.height, 0), g.width, x, 0);
    FlatOrder(Flat(Flat(t, g.height, y), g.width, x), Flat(Flat(g.frames, g.height, 0), g.width, 0), g.channels, a.c, 0);
  }

  /** The place of image element j. */
  function PlaceOfSource(g: Geometry, j: nat): Place
    requires Valid(g) && j < Pixels(g)
  {
    SourceParts(g, j);
    var pixel := Quot(j, g.channels);
    var line, x := Quot(pixel, g.width), Rem(pixel, g.width);
    var t, y := Quot(line, g.height), Rem(line, g.height);
    Place(Quot(t, g.temporal), Quot(y, g.patch), Quot(x, g.patch),
          Rem(t, g.temporal), Rem(y, g.patch), Rem(x, g.patch), Rem(j, g.channels))
  }

  lemma SourceParts(g: Geometry, j: nat)
    requires Valid(g) && j < Pixels(g)
    ensures g.channels > 0 && g.width > 0 && g.height > 0
    ensures Quot(j, g.channels) < Flat(Flat(g.frames, g.height, 0), g.width, 0)
    ensures Quot(Quot(j, g.channels), g.width) < Flat(g.frames, g.height, 0)
    ensures Quot(Quot(Quot(j, g.channels), g.width), g.height) < g.frames
  {
    FlatSplit(j, Flat(Flat(g.frames, g.height, 0), g.width, 0), g.channels);
    FlatSplit(Quot(j, g.channels), Flat(g.frames, g.height, 0), g.width);
    FlatSplit(Quot(Quot(j, g.channels), g.width), g.frames, g.height);
  }

  /** With divisible sizes every image element has a place, and the place leads back to it ... */
  lemma SourceOfPlace(g: Geometry, j: nat)
    requires Valid(g) && Divisible(g) && j < Pixels(g)
    ensures In(g, PlaceOfSource(g, j)) && Source(g, PlaceOfSource(g, j)) == j
  {
    SourceParts(g, j);
    var pixel := Quot(j, g.channels);
    var line := Quot(pixel, g.width);
    FlatSplit(j, Flat(Flat(g.frames, g.height, 0), g.width, 0), g.channels);
    FlatSplit(pixel, Flat(g.frames, g.height, 0), g.width);
    FlatSplit(line, g.frames, g.height);
    TileOf(g.frames, g.temporal, Quot(line, g.height));
    TileOf(g.height, g.patch, Rem(line, g.height));
    TileOf(g.width, g.patch, Rem(pixel, g.width));
  }

  /** ... and different places come from different elements. */
  lemma PlaceOfSourceIs(g: Geometry, a: Place)
    requires Valid(g) && In(g, a)
    ensures Source(g, a) < Pixels(g) && PlaceOfSource(g, Source(g, a)) == a
  {
    SourceInRange(g, a);
    var t, y, x := Flat(a.ot, g.temporal, a.kt), Flat(a.oy, g.patch, a.ky), Flat(a.ox, g.patch, a.kx);
    FlatQuotRem(Flat(Flat(t, g.height, y), g.width, x), g.channels, a.c);
    FlatQuotRem(Flat(t, g.height, y), g.width, x);
    FlatQuotRem(t, g.height, y);
    FlatQuotRem(a.ot, g.temporal, a.kt);
    FlatQuotRem(a.oy, g.patch, a.ky);
    FlatQuotRem(a.ox, g.patch, a.kx);
  }

  /** The image element that patch entry i shows. */
  function SourceOf(g: Geometry, i: nat): (j: nat)
    requires Valid(g) && i < Flat(PatchRows(g), PatchDim(g), 0)
    ensures j < Pixels(g)
  {
    DestOfPlace(g, i);
    SourceInRange(g, PlaceOfDest(g, i));
    Source(g, PlaceOfDest(g, i))
  }

  /** The patch entry that shows image element j. */
  function EntryOf(g: Geometry, j: nat): (i: nat)
    requires Valid(g) && Divisible(g) && j < Pixels(g)
    ensures i < Flat(PatchRows(g), PatchDim(g), 0)
  {
    SourceOfPlace(g, j);
    DestInRange(g, PlaceOfSource(g, j));
    Dest(g, PlaceOfSource(g, j))
  }

  /** The map between image elements and patch entries is a bijection. */
  lemma PatchBijection(g: Geometry, i: nat, j: nat)
    requires Valid(g) && Divisible(g)
    ensures i < Flat(PatchRows(g), PatchDim(g), 0) ==> EntryOf(g, SourceOf(g, i)) == i
    ensures j < Pixels(g) ==> SourceOf(g, EntryOf(g, j)) == j
  {
    if i < Flat(PatchRows(g), PatchDim(g), 0) {
      DestOfPlace(g, i);
      PlaceOfSourceIs(g, PlaceOfDest(g, i));
    }
    if j < Pixels(g) {
      SourceOfPlace(g, j);
      PlaceOfDestIs(g, PlaceOfSource(g, j));
    }
  }
}
