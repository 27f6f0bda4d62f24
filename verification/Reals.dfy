/** Exact arithmetic on reals. Multiplication has a name so that proofs can pass over it with `hide`. */
module Reals {

  function Times(x: real, y: real): real {
    x * y
  }

  lemma TimesIs(x: real, y: real)
    ensures Times(x, y) == x * y
  {
  }

  lemma TimesZero(x: real)
    ensures Times(x, 0.0) == 0.0 && Times(0.0, x) == 0.0 && Times(x, 1.0) == x && Times(1.0, x) == x
  {
  }

  lemma TimesComm(x: real, y: real)
    ensures Times(x, y) == Times(y, x)
  {
  }

  lemma TimesAssoc(x: real, y: real, z: real)
    ensures Times(Times(x, y), z) == Times(x, Times(y, z))
  {
    assert x * y * z == x * (y * z);
  }

  lemma TimesAdd(x: real, y: real, z: real)
    ensures Times(x + y, z) == Times(x, z) + Times(y, z)
    ensures Times(x - y, z) == Times(x, z) - Times(y, z)
  {
  }

  lemma TimesNonNegative(x: real, y: real)
    requires x >= 0.0 && y >= 0.0
    ensures Times(x, y) >= 0.0
    ensures x > 0.0 && y > 0.0 ==> Times(x, y) > 0.0
  {
  }

  lemma TimesMono(x: real, y: real, z: real)
    requires x <= y && z >= 0.0
    ensures Times(x, z) <= Times(y, z)
  {
    TimesNonNegative(y - x, z);
    TimesAdd(y, x, z);
  }

  function Abs(x: real): real {
    if x < 0.0 then -x else x
  }

  // ---------- vectors ----------

  predicate AllZero(row: seq<real>) {
    forall i | 0 <= i < |row| :: row[i] == 0.0
  }

  function Sum(s: seq<real>): real {
    if s == [] then 0.0 else Sum(s[..|s| - 1]) + s[|s| - 1]
  }

  function Dot(a: seq<real>, b: seq<real>): real
    requires |a| == |b|
  {
    if a == [] then 0.0
    else Dot(a[..|a| - 1], b[..|b| - 1]) + Times(a[|a| - 1], b[|b| - 1])
  }

  function Scaled(a: seq<real>, c: real): (r: seq<real>)
    ensures |r| == |a|
  {
    seq(|a|, i requires 0 <= i < |a| => Times(a[i], c))
  }

  /** a + c * b */
  function AddScaled(a: seq<real>, b: seq<real>, c: real): (r: seq<real>)
    requires |a| == |b|
    ensures |r| == |a|
  {
    seq(|a|, i requires 0 <= i < |a| => a[i] + Times(b[i], c))
  }

  /** The laws that determine the inner product. */
  lemma DotLaws(a: seq<real>, b: seq<real>, x: real, y: real)
    requires |a| == |b|
    ensures Dot([], []) == 0.0 && Dot(a + [x], b + [y]) == Dot(a, b) + x * y
  {
    assert (a + [x])[..|a|] == a && (b + [y])[..|b|] == b;
  }

  lemma DotStep(a: seq<real>, b: seq<real>, n: nat)
    requires n < |a| && n < |b|
    ensures Dot(a[..n + 1], b[..n + 1]) == Dot(a[..n], b[..n]) + Times(a[n], b[n])
  {
    assert a[..n + 1][..n] == a[..n] && b[..n + 1][..n] == b[..n];
  }

  lemma {:induction false} DotScaled(a: seq<real>, b: seq<real>, c: real)
    requires |a| == |b|
    ensures Dot(Scaled(a, c), b) == Times(Dot(a, b), c)
  {
    if a != [] {
      var n := |a| - 1;
      DotScaled(a[..n], b[..n], c);
      assert Scaled(a, c)[..n] == Scaled(a[..n], c);
      TimesAdd(Dot(a[..n], b[..n]), Times(a[n], b[n]), c);
      TimesAssoc(a[n], c, b[n]);
      TimesComm(c, b[n]);
      TimesAssoc(a[n], b[n], c);
    } else {
      TimesZero(c);
    }
  }

  lemma {:induction false} DotAddScaled(a: seq<real>, b: seq<real>, c: real, d: seq<real>)
    requires |a| == |b| == |d|
    ensures Dot(AddScaled(a, b, c), d) == Dot(a, d) + Times(Dot(b, d), c)
  {
    if a != [] {
      var n := |a| - 1;
      DotAddScaled(a[..n], b[..n], c, d[..n]);
      assert AddScaled(a, b, c)[..n] == AddScaled(a[..n], b[..n], c);
      TimesAdd(Dot(b[..n], d[..n]), Times(b[n], d[n]), c);
      TimesAdd(a[n], Times(b[n], c), d[n]);
      TimesAssoc(b[n], c, d[n]);
      TimesComm(c, d[n]);
      TimesAssoc(b[n], d[n], c);
    } else {
      TimesZero(c);
    }
  }
}
