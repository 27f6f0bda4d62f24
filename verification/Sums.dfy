/** Finite sums of real-valued functions of an index. */
module Sums {
  import opened Arith
  import opened Reals
  import opened Ranking

  function SumTo(f: nat -> real, n: nat): real {
    if n == 0 then 0.0 else SumTo(f, n - 1) + f(n - 1)
  }

  /** The laws that determine a sum. */
  lemma SumLaws(f: nat -> real, n: nat)
    ensures SumTo(f, 0) == 0.0 && SumTo(f, n + 1) == SumTo(f, n) + f(n)
  {
  }

  lemma {:induction false} SumSame(f: nat -> real, g: nat -> real, n: nat)
    requires forall i: nat | i < n :: f(i) == g(i)
    ensures SumTo(f, n) == SumTo(g, n)
  {
    if n > 0 {
      SumSame(f, g, n - 1);
    }
  }

  lemma {:induction false} SumZero(f: nat -> real, n: nat)
    requires forall i: nat | i < n :: f(i) == 0.0
    ensures SumTo(f, n) == 0.0
  {
    if n > 0 {
      SumZero(f, n - 1);
    }
  }

  /** Only a window of the summands is not zero. */
  lemma {:induction false} SumWindow(f: nat -> real, g: nat -> real, n: nat, lo: nat, m: nat)
    requires lo + m <= n
    requires forall i: nat | i < n && !(lo <= i < lo + m) :: f(i) == 0.0
    requires forall k: nat | k < m :: f(lo + k) == g(k)
    ensures SumTo(f, n) == SumTo(g, m)
    decreases n
  {
    if n > lo + m {
      SumWindow(f, g, n - 1, lo, m);
    } else if m > 0 {
      SumWindow(f, g, n - 1, lo, m - 1);
      assert f(lo + (m - 1)) == g(m - 1);
    } else {
      SumZero(f, n);
    }
  }

  /** A sum over a matrix is the sum of its row sums. */
  lemma {:induction false} SumByRows(f: nat -> real, rows: nat -> real, h: nat, w: nat)
    requires forall r: nat | r < h :: rows(r) == SumTo((q: nat) => f(Flat(r, w, q)), w)
    ensures SumTo(f, Flat(h, w, 0)) == SumTo(rows, h)
    decreases h
  {
    hide Flat;
    FlatNext(0, w);
    if h > 0 {
      SumByRows(f, rows, h - 1, w);
      SumRow(f, h - 1, w, w);
      FlatNext(h - 1, w);
      assert rows(h - 1) == SumTo((q: nat) => f(Flat(h - 1, w, q)), w);
    }
  }

  lemma {:induction false} SumRow(f: nat -> real, r: nat, w: nat, n: nat)
    ensures SumTo(f, Flat(r, w, n)) == SumTo(f, Flat(r, w, 0)) + SumTo((q: nat) => f(Flat(r, w, q)), n)
    decreases n
  {
    if n > 0 {
      SumRow(f, r, w, n - 1);
      FlatShift(r, w, n - 1, 1);
    }
  }

  lemma {:induction false} SumTimes(f: nat -> real, g: nat -> real, c: real, n: nat)
    requires forall i: nat | i < n :: g(i) == Times(f(i), c)
    ensures SumTo(g, n) == Times(SumTo(f, n), c)
  {
    hide Times;
    if n == 0 {
      TimesZero(c);
    } else {
      SumTimes(f, g, c, n - 1);
      TimesAdd(SumTo(f, n - 1), f(n - 1), c);
    }
  }

  /** An inner product is the sum of the products. */
  lemma {:induction false} DotSum(a: seq<real>, b: seq<real>, f: nat -> real)
    requires |a| == |b| && forall i: nat | i < |a| :: f(i) == Times(a[i], b[i])
    ensures Dot(a, b) == SumTo(f, |a|)
  {
    hide Times;
    if a != [] {
      DotSum(a[..|a| - 1], b[..|b| - 1], f);
    }
  }

  // ---------- sums over a list of indices ----------

  function SumOver(f: nat -> real, s: seq<nat>): real {
    if s == [] then 0.0 else SumOver(f, s[..|s| - 1]) + f(s[|s| - 1])
  }

  /** The laws that determine it. */
  lemma SumOverLaws(f: nat -> real, s: seq<nat>, i: nat)
    ensures SumOver(f, []) == 0.0 && SumOver(f, s + [i]) == SumOver(f, s) + f(i)
  {
    assert (s + [i])[..|s|] == s;
  }

  lemma {:induction false} SumOverConcat(f: nat -> real, a: seq<nat>, b: seq<nat>)
    ensures SumOver(f, a + b) == SumOver(f, a) + SumOver(f, b)
  {
    if b == [] {
      assert a + b == a;
    } else {
      assert (a + b)[..|a + b| - 1] == a + b[..|b| - 1];
      SumOverConcat(f, a, b[..|b| - 1]);
    }
  }

  lemma SumOverRemove(f: nat -> real, s: seq<nat>, j: nat)
    requires j < |s|
    ensures SumOver(f, s) == SumOver(f, s[..j] + s[j + 1..]) + f(s[j])
  {
    hide *;
    assert s == s[..j] + [s[j]] + s[j + 1..];
    SumOverMiddle(f, s[..j], s[j], s[j + 1..]);
  }

  lemma SumOverMiddle(f: nat -> real, a: seq<nat>, i: nat, b: seq<nat>)
    ensures SumOver(f, a + [i] + b) == SumOver(f, a + b) + f(i)
  {
    hide *;
    SumOverOne(f, i);
    SumOverConcat(f, a, [i]);
    SumOverConcat(f, a + [i], b);
    SumOverConcat(f, a, b);
  }

  lemma SumOverOne(f: nat -> real, i: nat)
    ensures SumOver(f, [i]) == f(i)
  {
    assert [i][..0] == [];
  }

  /** Any list of the indices below n, each exactly once, sums like 0, 1, ..., n - 1. */
  lemma {:induction false} SumOverAll(f: nat -> real, s: seq<nat>, n: nat)
    requires Distinct(s) && |s| == n && forall i | 0 <= i < n :: s[i] < n
    ensures SumOver(f, s) == SumTo(f, n)
    decreases n
  {
    if n > 0 {
      var j := Occurs(s, n, n - 1);
      SumOverRemove(f, s, j);
      var rest := s[..j] + s[j + 1..];
      forall i | 0 <= i < n - 1 ensures rest[i] < n - 1 {
        assert rest[i] == if i < j then s[i] else s[i + 1];
      }
      SumOverAll(f, rest, n - 1);
    }
  }

  /** Every index occurs. */
  lemma Occurs(s: seq<nat>, n: nat, k: nat) returns (j: nat)
    requires k < n && Distinct(s) && |s| == n && forall i | 0 <= i < n :: s[i] < n
    ensures j < n && s[j] == k
  {
    ElementsSize(s);
    forall c | c in Elements(s) ensures c in Below(n) {
    }
    SubsetSize(Elements(s), Below(n));
    assert k in Below(n);
    j :| 0 <= j < n && s[j] == k;
  }
}
