/** The order (score descending, index ascending) that every selection routine of the repository uses. */
module Ranking {

  /** The comparator passed to std::stable_sort. */
  predicate Precedes(scores: seq<real>, a: nat, b: nat)
    requires a < |scores| && b < |scores|
  {
    scores[a] > scores[b] || (scores[a] == scores[b] && a < b)
  }

  predicate Indices(scores: seq<real>, ids: seq<nat>) {
    forall i | 0 <= i < |ids| :: ids[i] < |scores|
  }

  predicate Ordered(scores: seq<real>, ids: seq<nat>)
    requires Indices(scores, ids)
  {
    forall i, j | 0 <= i < j < |ids| :: Precedes(scores, ids[i], ids[j])
  }

  predicate Distinct<T(==)>(s: seq<T>) {
    forall i, j | 0 <= i < j < |s| :: s[i] != s[j]
  }

  function Elements<T>(s: seq<T>): (r: set<T>) {
    set x | x in s
  }

  function Below(n: nat): (s: set<nat>)
    ensures |s| == n
    ensures forall i: nat :: i in s <==> i < n
  {
    if n == 0 then {} else Below(n - 1) + {n - 1}
  }

  lemma {:induction false} ElementsSize<T>(s: seq<T>)
    requires Distinct(s)
    ensures |Elements(s)| == |s|
  {
    if s != [] {
      var n := |s| - 1;
      ElementsSize(s[..n]);
      assert Elements(s) == Elements(s[..n]) + {s[n]};
      assert s[n] !in Elements(s[..n]);
    }
  }

  /** All column indices, best first: what std::stable_sort makes of 0, 1, 2, ... */
  ghost predicate IsRanking(scores: seq<real>, ids: seq<nat>) {
    Indices(scores, ids) && Ordered(scores, ids) && |ids| == |scores|
  }

  function Before(scores: seq<real>, c: nat): set<nat>
    requires c < |scores|
  {
    set d: nat | d < |scores| && Precedes(scores, d, c)
  }

  /** How many columns come before c. */
  function Rank(scores: seq<real>, c: nat): nat
    requires c < |scores|
  {
    |Before(scores, c)|
  }

  /** A ranking leaves no column out. */
  lemma RankingCovers(scores: seq<real>, ids: seq<nat>, c: nat)
    requires IsRanking(scores, ids) && c < |scores|
    ensures c in ids
  {
    ElementsSize(ids);
    SubsetSize(Elements(ids), Below(|scores|));
    assert c in Below(|scores|);
  }

  lemma SubsetSize<T>(a: set<T>, b: set<T>)
    requires a <= b
    ensures |a| <= |b|
    ensures |a| == |b| ==> a == b
  {
    assert b == a + (b - a);
    if |a| == |b| {
      assert |b - a| == 0;
    }
  }

  /** The column at position r of a sorted list that nothing outside precedes has rank r. */
  lemma RankInPrefix(scores: seq<real>, ids: seq<nat>, r: nat)
    requires Indices(scores, ids) && Ordered(scores, ids) && r < |ids|
    requires forall c: nat | c < |scores| && c !in ids :: Precedes(scores, ids[r], c)
    ensures Rank(scores, ids[r]) == r
  {
    var first := ids[..r];
    forall d: nat | d in Before(scores, ids[r]) ensures d in Elements(first) {
      assert d in ids;
      var i :| 0 <= i < |ids| && ids[i] == d;
      assert i < r;
    }
    assert Elements(first) == Before(scores, ids[r]);
    ElementsSize(first);
  }

  /** Rank orders columns exactly as the comparator does. */
  lemma RankOrders(scores: seq<real>, a: nat, b: nat)
    requires a < |scores| && b < |scores|
    ensures Precedes(scores, a, b) <==> Rank(scores, a) < Rank(scores, b)
  {
    if Precedes(scores, a, b) {
      assert Before(scores, a) <= Before(scores, b) && a in Before(scores, b) && a !in Before(scores, a);
      SubsetSize(Before(scores, a), Before(scores, b));
    } else if a != b {
      assert Before(scores, b) <= Before(scores, a) && b in Before(scores, a) && b !in Before(scores, b);
      SubsetSize(Before(scores, b), Before(scores, a));
    }
  }

  lemma RankingRanks(scores: seq<real>, ids: seq<nat>, r: nat)
    requires IsRanking(scores, ids) && r < |ids|
    ensures Rank(scores, ids[r]) == r
  {
    forall c: nat | c < |scores| ensures c in ids {
      RankingCovers(scores, ids, c);
    }
    RankInPrefix(scores, ids, r);
  }

  /** A sorted list that nothing outside precedes is the front of every ranking. */
  lemma PrefixOfRanking(scores: seq<real>, front: seq<nat>, ids: seq<nat>)
    requires IsRanking(scores, ids)
    requires Indices(scores, front) && Ordered(scores, front)
    requires forall i, c: nat | 0 <= i < |front| && c < |scores| && c !in front :: Precedes(scores, front[i], c)
    ensures |front| <= |ids| && front == ids[..|front|]
  {
    ElementsSize(front);
    SubsetSize(Elements(front), Below(|scores|));
    forall i | 0 <= i < |front| ensures front[i] == ids[i] {
      RankInPrefix(scores, front, i);
      RankingRanks(scores, ids, i);
      RankOrders(scores, front[i], ids[i]);
      RankOrders(scores, ids[i], front[i]);
    }
  }

  // ---------- a ranking exists ----------

  function Insert(scores: seq<real>, ids: seq<nat>, c: nat): seq<nat>
    requires c < |scores| && Indices(scores, ids)
  {
    if ids == [] || Precedes(scores, c, ids[0]) then [c] + ids
    else [ids[0]] + Insert(scores, ids[1..], c)
  }

  function SortFirst(scores: seq<real>, n: nat): (ids: seq<nat>)
    requires n <= |scores|
    ensures Indices(scores, ids)
  {
    if n == 0 then []
    else
      InsertKeeps(scores, SortFirst(scores, n - 1), n - 1);
      Insert(scores, SortFirst(scores, n - 1), n - 1)
  }

  lemma {:induction false} InsertKeeps(scores: seq<real>, ids: seq<nat>, c: nat)
    requires c < |scores| && Indices(scores, ids)
    ensures var r := Insert(scores, ids, c);
      && Indices(scores, r) && |r| == |ids| + 1
      && (forall d :: d in r <==> d in ids || d == c)
  {
    if ids == [] || Precedes(scores, c, ids[0]) {
    } else {
      InsertKeeps(scores, ids[1..], c);
      assert forall d :: d in ids <==> d == ids[0] || d in ids[1..];
    }
  }

  lemma {:induction false} InsertOrders(scores: seq<real>, ids: seq<nat>, c: nat)
    requires c < |scores| && Indices(scores, ids) && Ordered(scores, ids) && c !in ids
    ensures Indices(scores, Insert(scores, ids, c)) && Ordered(scores, Insert(scores, ids, c))
  {
    InsertKeeps(scores, ids, c);
    if ids == [] || Precedes(scores, c, ids[0]) {
    } else {
      var rest := Insert(scores, ids[1..], c);
      InsertKeeps(scores, ids[1..], c);
      InsertOrders(scores, ids[1..], c);
      forall j | 0 <= j < |rest| ensures Precedes(scores, ids[0], rest[j]) {
        assert rest[j] in rest;
        if rest[j] != c {
          var i :| 0 <= i < |ids[1..]| && ids[1..][i] == rest[j];
          assert ids[i + 1] == rest[j];
        }
      }
    }
  }

  lemma {:induction false} SortFirstOrders(scores: seq<real>, n: nat)
    requires n <= |scores|
    ensures var ids := SortFirst(scores, n);
      && |ids| == n && Ordered(scores, ids)
      && (forall d: nat :: d in ids <==> d < n)
  {
    if n > 0 {
      SortFirstOrders(scores, n - 1);
      InsertKeeps(scores, SortFirst(scores, n - 1), n - 1);
      InsertOrders(scores, SortFirst(scores, n - 1), n - 1);
    }
  }

  /** std::stable_sort over iota with the comparator above. */
  function StableSort(scores: seq<real>): (ids: seq<nat>)
    ensures IsRanking(scores, ids)
  {
    SortFirstOrders(scores, |scores|);
    SortFirst(scores, |scores|)
  }
}
