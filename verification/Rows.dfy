/** Rows of a flat, row-major sequence: where they are, and that writing one leaves the others alone. */
module Rows {
  import opened Arith

  /** Row r of a matrix of width w ends before row n begins. */
  lemma RowInside(r: nat, n: nat, w: nat)
    requires r < n
    ensures Flat(r, w, 0) + w <= Flat(n, w, 0)
  {
    if w > 0 {
      FlatOrder(r, n, w, 0, 0);
    } else {
      FlatProduct(r, w, 0);
    }
  }

  /** The n elements from position `at` on. */
  function Stretch<T>(data: seq<T>, at: nat, n: nat): (part: seq<T>)
    requires at + n <= |data|
    ensures |part| == n
  {
    data[at..at + n]
  }

  function RowOf<T>(data: seq<T>, r: nat, w: nat): (row: seq<T>)
    requires Flat(r, w, 0) + w <= |data|
    ensures |row| == w
  {
    Stretch(data, Flat(r, w, 0), w)
  }

  /** Element i, or `other` where there is none: for formulas that are written out over the buffers. */
  function At<T>(data: seq<T>, i: int, other: T): T {
    if 0 <= i < |data| then data[i] else other
  }

  lemma RowElement<T>(data: seq<T>, r: nat, w: nat, c: nat, other: T)
    requires Flat(r, w, 0) + w <= |data| && c < w
    ensures RowOf(data, r, w)[c] == At(data, RowMajor(r, w, c), other) && RowMajor(r, w, c) < |data|
  {
    FlatShift(r, w, 0, c);
  }

  /** Only positions at, ..., at + n - 1 differ. */
  predicate Framed<T(==)>(before: seq<T>, after: seq<T>, at: nat, n: nat) {
    && at + n <= |before| == |after|
    && after[..at] == before[..at] && after[at + n..] == before[at + n..]
  }

  lemma SliceBefore<T>(s: seq<T>, a: nat, b: nat, n: nat)
    requires b + n <= a <= |s|
    ensures s[b..b + n] == s[..a][b..b + n]
  {
  }

  lemma SliceAfter<T>(s: seq<T>, a: nat, b: nat, n: nat)
    requires a <= b && b + n <= |s|
    ensures s[b..b + n] == s[a..][b - a..b - a + n]
  {
  }

  /** A stretch that does not meet the written one is kept. */
  lemma StretchKept<T>(before: seq<T>, after: seq<T>, at: nat, n: nat, other: nat, m: nat)
    requires Framed(before, after, at, n) && other + m <= |before|
    requires other + m <= at || at + n <= other
    ensures after[other..other + m] == before[other..other + m]
  {
    if other + m <= at {
      SliceBefore(before, at, other, m);
      SliceBefore(after, at, other, m);
    } else {
      SliceAfter(before, at + n, other, m);
      SliceAfter(after, at + n, other, m);
    }
  }

  lemma FramedTwice<T>(a: seq<T>, b: seq<T>, c: seq<T>, at: nat, n: nat)
    requires Framed(a, b, at, n) && Framed(b, c, at, n)
    ensures Framed(a, c, at, n)
  {
  }

  lemma FramedSize<T>(before: seq<T>, after: seq<T>, at: nat, n: nat)
    requires Framed(before, after, at, n)
    ensures |after| == |before|
  {
  }

  /** Writing row r keeps every other row. */
  lemma OtherRowKept<T>(before: seq<T>, after: seq<T>, r: nat, w: nat, other: nat)
    requires Framed(before, after, Flat(r, w, 0), w) && other != r
    requires Flat(other, w, 0) + w <= |before|
    ensures RowOf(after, other, w) == RowOf(before, other, w)
  {
    if other < r {
      RowInside(other, r, w);
    } else {
      RowInside(r, other, w);
    }
    StretchKept(before, after, Flat(r, w, 0), w, Flat(other, w, 0), w);
  }

  /** Equal stretches have equal parts. */
  lemma PartsEqual<T>(s: seq<T>, t: seq<T>, at: nat, to: nat, n: nat, o: nat, m: nat)
    requires at + n <= |s| && to + n <= |t| && t[to..to + n] == s[at..at + n] && o + m <= n
    ensures t[to + o..to + o + m] == s[at + o..at + o + m]
  {
    var part, other := s[at + o..at + o + m], t[to + o..to + o + m];
    forall i | 0 <= i < m ensures other[i] == part[i] {
      assert t[to..to + n][o + i] == s[at..at + n][o + i];
    }
  }

  /** A row at `at` whose first `done` elements are already those of `next`, the others still those of `row`. */
  ghost predicate Rewriting<T>(before: seq<T>, now: seq<T>, at: nat, row: seq<T>, next: seq<T>, done: nat) {
    && Framed(before, now, at, |row|) && |next| == |row| && done <= |row|
    && now[at..at + done] == next[..done] && now[at + done..at + |row|] == row[done..]
  }

  method PutNext<T>(ghost before: seq<T>, out: array<T>, at: nat, ghost row: seq<T>, ghost next: seq<T>, done: nat,
                          x: T)
    requires Rewriting(before, out[..], at, row, next, done) && done < |row| && x == next[done]
    modifies out
    ensures Rewriting(before, out[..], at, row, next, done + 1)
  {
    ghost var middle := out[..];
    out[at + done] := x;
    assert out[..][at + done + 1..at + |row|] == middle[at + done..at + |row|][1..];
  }

  lemma Rewritten<T>(before: seq<T>, out: array<T>, at: nat, row: seq<T>, next: seq<T>)
    requires Rewriting(before, out[..], at, row, next, |row|)
    ensures Framed(before, out[..], at, |row|) && at + |row| <= out.Length && out[at..at + |row|] == next
  {
    assert out[at..at + |row|] == out[..][at..at + |row|];
  }

  lemma RewrittenAt<T>(before: seq<T>, now: seq<T>, at: nat, row: seq<T>, next: seq<T>, done: nat)
    requires Rewriting(before, now, at, row, next, done) && done < |row|
    ensures at + done < |now| && now[at + done] == row[done]
  {
    assert now[at + done..at + |row|][0] == row[done..][0];
  }

  /** Fills row r of a matrix. */
  method PutRow<T>(out: array<T>, r: nat, w: nat, row: seq<T>)
    requires |row| == w && Flat(r, w, 0) + w <= out.Length
    modifies out
    ensures RowOf(out[..], r, w) == row && Framed(old(out[..]), out[..], Flat(r, w, 0), w)
  {
    var at := RowMajor(r, w, 0);
    for i := 0 to w
      invariant forall k | 0 <= k < i :: out[at + k] == row[k]
      invariant forall k | 0 <= k < out.Length && !(at <= k < at + i) :: out[k] == old(out[k])
    {
      out[at + i] := row[i];
    }
    assert out[at..at + w] == row;
  }

  /** Filling a row keeps the earlier ones. */
  lemma RowsExtended<T>(before: seq<T>, after: seq<T>, r: nat, n: nat, w: nat, other: nat)
    requires Framed(before, after, Flat(r, w, 0), w) && other < r < n && |before| == Flat(n, w, 0)
    ensures |after| == |before| && Flat(other, w, 0) + w <= |before|
    ensures RowOf(after, other, w) == RowOf(before, other, w)
  {
    RowInside(other, n, w);
    OtherRowKept(before, after, r, w, other);
  }

  /** Matrices with equal rows are equal. */
  lemma EqualRows<T>(a: seq<T>, b: seq<T>, n: nat, w: nat)
    requires |a| == |b| == Flat(n, w, 0)
    requires forall r: nat | r < n :: Flat(r, w, 0) + w <= |a| && RowOf(a, r, w) == RowOf(b, r, w)
    ensures a == b
  {
    forall i | 0 <= i < |a| ensures a[i] == b[i] {
      FlatSplit(i, n, w);
      var r, c := Quot(i, w), Rem(i, w);
      FlatShift(r, w, 0, c);
      assert RowOf(a, r, w)[c] == RowOf(b, r, w)[c];
    }
  }
}
