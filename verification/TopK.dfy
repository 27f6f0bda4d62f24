/**
 Threshold top-k: the in-place partition selection of kernels/sampling/selection_ref.cpp, the
 full-sort baseline of benchmarks/cases/colibri_ops.cpp, and what both of them emit.
 */
module TopK {
  import opened Arith
  import opened Ranking
  import opened Options
  import opened Rows

  // ---------- counting ----------

  predicate Beats(x: real, v: real, strict: bool) {
    x > v || (!strict && x == v)
  }

  function Count(s: seq<real>, v: real, strict: bool): (n: nat)
    ensures n <= |s|
  {
    if s == [] then 0 else (if Beats(s[0], v, strict) then 1 else 0) + Count(s[1..], v, strict)
  }

  lemma {:induction false} CountConcat(s: seq<real>, t: seq<real>, v: real, strict: bool)
    ensures Count(s + t, v, strict) == Count(s, v, strict) + Count(t, v, strict)
  {
    if s == [] {
      assert s + t == t;
    } else {
      assert (s + t)[1..] == s[1..] + t;
      CountConcat(s[1..], t, v, strict);
    }
  }

  lemma {:induction false} CountUniform(s: seq<real>, v: real, strict: bool)
    ensures (forall i | 0 <= i < |s| :: Beats(s[i], v, strict)) ==> Count(s, v, strict) == |s|
    ensures (forall i | 0 <= i < |s| :: !Beats(s[i], v, strict)) ==> Count(s, v, strict) == 0
  {
    if s != [] {
      CountUniform(s[1..], v, strict);
    }
  }

  lemma CountRemove(s: seq<real>, j: nat, v: real, strict: bool)
    requires j < |s|
    ensures Count(s, v, strict)
         == Count(s[..j] + s[j + 1..], v, strict) + (if Beats(s[j], v, strict) then 1 else 0)
  {
    assert s == s[..j] + ([s[j]] + s[j + 1..]);
    CountConcat(s[..j], [s[j]] + s[j + 1..], v, strict);
    CountConcat(s[..j], s[j + 1..], v, strict);
    assert ([s[j]] + s[j + 1..])[1..] == s[j + 1..];
  }

  /** Counting does not look at the order. */
  lemma {:induction false} CountPermuted(s: seq<real>, t: seq<real>, v: real, strict: bool)
    requires multiset(s) == multiset(t)
    ensures Count(s, v, strict) == Count(t, v, strict)
  {
    if s == [] {
      assert |multiset(t)| == 0;
    } else {
      var j := Occurrence(s, t);
      CountPermuted(s[1..], t[..j] + t[j + 1..], v, strict);
      CountRemove(t, j, v, strict);
    }
  }

  /** Taking the first element of s out of both sequences keeps them permutations of each other. */
  lemma Occurrence(s: seq<real>, t: seq<real>) returns (j: nat)
    requires s != [] && multiset(s) == multiset(t)
    ensures j < |t| && t[j] == s[0]
    ensures multiset(s[1..]) == multiset(t[..j] + t[j + 1..])
  {
    assert s[0] in multiset(t);
    j :| 0 <= j < |t| && t[j] == s[0];
    OneRemoved(t, j);
    HeadRemoved(s);
  }

  lemma HeadRemoved(s: seq<real>)
    requires s != []
    ensures multiset(s[1..]) == multiset(s) - multiset{s[0]}
  {
    OneRemoved(s, 0);
    assert s[..0] + s[1..] == s[1..];
  }

  lemma OneRemoved(t: seq<real>, j: nat)
    requires j < |t|
    ensures multiset(t[..j] + t[j + 1..]) == multiset(t) - multiset{t[j]}
  {
    assert t == t[..j] + [t[j]] + t[j + 1..];
  }

  /** v is the value at position `target` when s is sorted in descending order. */
  predicate IsKth(s: seq<real>, target: nat, v: real) {
    Count(s, v, true) <= target < Count(s, v, false)
  }

  lemma {:induction false} CountOrder(s: seq<real>, v: real, w: real)
    requires v < w
    ensures Count(s, w, false) <= Count(s, v, true)
  {
    if s != [] {
      CountOrder(s[1..], v, w);
    }
  }

  lemma KthUnique(s: seq<real>, target: nat, v: real, w: real)
    requires IsKth(s, target, v) && IsKth(s, target, w)
    ensures v == w
  {
    if v < w {
      CountOrder(s, v, w);
    } else if w < v {
      CountOrder(s, w, v);
    }
  }

  /** A sequence that is partitioned around `target` shows its k-th value there. */
  lemma KthOfPartition(s: seq<real>, target: nat)
    requires target < |s|
    requires forall i | 0 <= i < target :: s[i] >= s[target]
    requires forall i | target < i < |s| :: s[i] <= s[target]
    ensures IsKth(s, target, s[target])
  {
    hide Count;
    var v := s[target];
    CountSplit(s, target, v, true);
    CountUniform(s[target..], v, true);
    CountSplit(s, target + 1, v, false);
    CountUniform(s[..target + 1], v, false);
  }

  lemma CountSplit(s: seq<real>, k: nat, v: real, strict: bool)
    requires k <= |s|
    ensures Count(s, v, strict) == Count(s[..k], v, strict) + Count(s[k..], v, strict)
  {
    hide Count;
    assert s == s[..k] + s[k..];
    CountConcat(s[..k], s[k..], v, strict);
  }

  // ---------- the partition selection ----------

  predicate AllAbove(s: seq<real>, lo: int, hi: int, v: real) {
    forall i | 0 <= i < |s| && lo <= i < hi :: s[i] >= v
  }

  predicate AllBelow(s: seq<real>, lo: int, hi: int, v: real) {
    forall i | 0 <= i < |s| && lo <= i < hi :: s[i] <= v
  }

  /** Positions before `at` hold values no smaller than the positions from `at` on. */
  predicate Cut(s: seq<real>, at: int) {
    forall i, j | 0 <= i < at <= j < |s| :: s[i] >= s[j]
  }

  function Min(a: real, b: real): real {
    if b < a then b else a
  }

  function Max(a: real, b: real): real {
    if a < b then b else a
  }

  function MedianOfThree(a: real, b: real, c: real): (m: real)
    ensures m == a || m == b || m == c
  {
    Max(Min(a, b), Min(Max(a, b), c))
  }

  method Swap(values: array<real>, i: nat, j: nat)
    requires i < values.Length && j < values.Length
    modifies values
    ensures values[..] == old(values[..])[i := old(values[j])][j := old(values[i])]
    ensures multiset(values[..]) == old(multiset(values[..]))
  {
    values[i], values[j] := values[j], values[i];
  }

  method ScanUp(values: array<real>, left: nat, start: nat, ghost stop: nat, pivot: real) returns (low: nat)
    requires left <= start <= stop < values.Length && values[stop] <= pivot
    requires AllAbove(values[..], left, start, pivot)
    ensures start <= low <= stop && values[low] <= pivot
    ensures AllAbove(values[..], left, low, pivot)
  {
    low := start;
    while values[low] > pivot
      invariant start <= low <= stop
      invariant AllAbove(values[..], left, low, pivot)
      decreases stop - low
    {
      low := low + 1;
    }
  }

  method ScanDown(values: array<real>, right: nat, start: nat, ghost stop: nat, pivot: real) returns (high: nat)
    requires stop <= start <= right < values.Length && values[stop] >= pivot
    requires AllBelow(values[..], start + 1, right + 1, pivot)
    ensures stop <= high <= start && values[high] >= pivot
    ensures AllBelow(values[..], high + 1, right + 1, pivot)
  {
    high := start;
    while values[high] < pivot
      invariant stop <= high <= start
      invariant AllBelow(values[..], high + 1, right + 1, pivot)
      decreases high
    {
      high := high - 1;
    }
  }

  /** Between the scans: settled values on both sides of the range, and the rest of the array cut off. */
  predicate Scanned(s: seq<real>, left: int, low: int, high: int, right: int, pivot: real) {
    AllAbove(s, left, low, pivot) && AllBelow(s, high + 1, right + 1, pivot) && Cut(s, left) && Cut(s, right + 1)
  }

  lemma SwapKeepsCut(s: seq<real>, i: nat, j: nat, at: int)
    requires i < |s| && j < |s| && Cut(s, at)
    requires (i < at && j < at) || (i >= at && j >= at)
    ensures Cut(s[i := s[j]][j := s[i]], at)
  {
  }

  lemma SwapSettles(s: seq<real>, left: int, low: nat, high: nat, right: int, pivot: real)
    requires 0 <= left <= low <= high <= right < |s| && Scanned(s, left, low, high, right, pivot)
    requires s[low] <= pivot <= s[high]
    ensures Scanned(s[low := s[high]][high := s[low]], left, low + 1, high - 1, right, pivot)
  {
    SwapKeepsCut(s, low, high, left);
    SwapKeepsCut(s, low, high, right + 1);
  }

  predicate Occurs(s: seq<real>, lo: int, hi: int, v: real) {
    exists q :: 0 <= q < |s| && lo <= q <= hi && s[q] == v
  }

  /** Hoare's two-sided scan around a pivot that occurs in the range. */
  method Partition(values: array<real>, left: nat, right: nat, pivot: real) returns (low: nat, high: int)
    requires left < right < values.Length
    requires Occurs(values[..], left, right, pivot)
    requires Cut(values[..], left) && Cut(values[..], right + 1)
    modifies values
    ensures multiset(values[..]) == old(multiset(values[..]))
    ensures left < low <= right + 1 && left - 1 <= high < right && high < low
    ensures Scanned(values[..], left, low, high, right, pivot)
  {
    low, high := left, right;
    while low <= high
      invariant left <= low <= right + 1 && left - 1 <= high <= right
      invariant multiset(values[..]) == old(multiset(values[..]))
      invariant Scanned(values[..], left, low, high, right, pivot)
      invariant low == left || high == right ==>
        low == left && high == right && Occurs(values[..], left, right, pivot)
      decreases high - low
    {
      // Positions at which the two scans stop at the latest.
      ghost var stopLow: int, stopHigh: int := high + 1, low - 1;
      if low == left {
        ghost var q :| 0 <= q < |values[..]| && left <= q <= right && values[..][q] == pivot;
        stopLow, stopHigh := q, q;
      }
      low := ScanUp(values, left, low, stopLow, pivot);
      high := ScanDown(values, right, high, stopHigh, pivot);
      if low <= high {
        SwapSettles(values[..], left, low, high, right, pivot);
        Swap(values, low, high);
        low := low + 1;
        high := high - 1;
      }
    }
  }

  /** Median-of-three partition selection, as in the kernel. */
  method KthDescending(values: array<real>, count: nat, target: nat) returns (v: real)
    requires target < count == values.Length
    modifies values
    ensures multiset(values[..]) == old(multiset(values[..]))
    ensures IsKth(old(values[..]), target, v)
  {
    var left, right := 0, count - 1;
    while left < right
      invariant left <= target <= right < count
      invariant multiset(values[..]) == old(multiset(values[..]))
      invariant Cut(values[..], left) && Cut(values[..], right + 1)
    {
      var middle := left + (right - left) / 2;
      var pivot := MedianOfThree(values[left], values[middle], values[right]);
      assert values[..][left] == pivot || values[..][middle] == pivot || values[..][right] == pivot;
      var low, high := Partition(values, left, right, pivot);
      if target <= high {
        right := high;
      } else if target >= low {
        left := low;
      } else {
        assert Cut(values[..], target) && Cut(values[..], target + 1);
        break;
      }
    }
    assert Cut(values[..], target) && Cut(values[..], target + 1);
    v := values[target];
    KthOfPermuted(old(values[..]), values[..], target);
  }

  lemma KthOfPermuted(before: seq<real>, after: seq<real>, target: nat)
    requires target < |after| && multiset(after) == multiset(before) && Cut(after, target) && Cut(after, target + 1)
    ensures IsKth(before, target, after[target])
  {
    hide Count;
    KthOfPartition(after, target);
    CountPermuted(after, before, after[target], true);
    CountPermuted(after, before, after[target], false);
  }

  // ---------- the emitted columns ----------

  predicate Takes(x: real, t: real, winner: bool) {
    if winner then x > t else x == t
  }

  /** The columns below n that beat the threshold, or that equal it, in column order. */
  function Columns(row: seq<real>, t: real, winner: bool, n: nat): seq<nat>
    requires n <= |row|
  {
    if n == 0 then []
    else Columns(row, t, winner, n - 1) + (if Takes(row[n - 1], t, winner) then [n - 1] else [])
  }

  function Take<T>(s: seq<T>, k: nat): seq<T> {
    if |s| <= k then s else s[..k]
  }

  /** Winners first, then ties, cut off after k. */
  function Selected(row: seq<real>, t: real, k: nat): seq<nat> {
    Take(Columns(row, t, true, |row|) + Columns(row, t, false, |row|), k)
  }

  /** The columns below n that are taken, in increasing order. */
  ghost predicate TakenBelow(row: seq<real>, t: real, winner: bool, n: nat, cs: seq<nat>)
    requires n <= |row|
  {
    && (forall i | 0 <= i < |cs| :: cs[i] < n && Takes(row[cs[i]], t, winner))
    && (forall i, j | 0 <= i < j < |cs| :: cs[i] < cs[j])
    && (forall c: nat | c < n && Takes(row[c], t, winner) :: c in cs)
  }

  lemma {:induction false} ColumnsSpec(row: seq<real>, t: real, winner: bool, n: nat)
    requires n <= |row|
    ensures TakenBelow(row, t, winner, n, Columns(row, t, winner, n))
  {
    if n > 0 {
      hide TakenBelow;
      ColumnsSpec(row, t, winner, n - 1);
      TakenNext(row, t, winner, n - 1, Columns(row, t, winner, n - 1));
    } else {
      assert Columns(row, t, winner, 0) == [];
    }
  }

  lemma TakenNext(row: seq<real>, t: real, winner: bool, n: nat, cs: seq<nat>)
    requires n < |row| && TakenBelow(row, t, winner, n, cs)
    ensures TakenBelow(row, t, winner, n + 1, cs + if Takes(row[n], t, winner) then [n] else [])
  {
    var next := cs + if Takes(row[n], t, winner) then [n] else [];
    assert next[..|cs|] == cs;
    if Takes(row[n], t, winner) {
      assert next[|cs|] == n;
    }
    forall c: nat | c <= n && Takes(row[c], t, winner) ensures c in next {
      if c < n {
        assert c in cs;
      }
    }
  }

  lemma {:induction false} ColumnsCount(row: seq<real>, t: real, n: nat)
    requires n <= |row|
    ensures |Columns(row, t, true, n)| == Count(row[..n], t, true)
    ensures |Columns(row, t, true, n)| + |Columns(row, t, false, n)| == Count(row[..n], t, false)
  {
    if n > 0 {
      ColumnsCount(row, t, n - 1);
      assert row[..n] == row[..n - 1] + [row[n - 1]];
      CountConcat(row[..n - 1], [row[n - 1]], t, true);
      CountConcat(row[..n - 1], [row[n - 1]], t, false);
      assert [row[n - 1]][1..] == [];
    }
  }

  /** A winner comes after winners only. */
  lemma WinnerRank(row: seq<real>, t: real, c: nat)
    requires c < |row| && row[c] > t
    ensures Rank(row, c) < |Columns(row, t, true, |row|)|
  {
    var winners := Columns(row, t, true, |row|);
    ColumnsSpec(row, t, true, |row|);
    ElementsSize(winners);
    assert Before(row, c) <= Elements(winners) - {c};
    SubsetSize(Before(row, c), Elements(winners) - {c});
  }

  /** A tie comes after all winners and the earlier ties. */
  lemma TieRank(row: seq<real>, t: real, j: nat)
    requires j < |Columns(row, t, false, |row|)|
    ensures Columns(row, t, false, |row|)[j] < |row|
    ensures Rank(row, Columns(row, t, false, |row|)[j]) == |Columns(row, t, true, |row|)| + j
  {
    var winners, ties := Columns(row, t, true, |row|), Columns(row, t, false, |row|);
    ColumnsSpec(row, t, true, |row|);
    ColumnsSpec(row, t, false, |row|);
    hide Columns;
    var front := winners + ties[..j];
    var c := ties[j];
    forall d: nat | d in Before(row, c) ensures d in front {
      if row[d] == t {
        var i :| 0 <= i < |ties| && ties[i] == d;
        assert i < j;
        assert ties[..j][i] == d;
      }
    }
    assert Elements(front) == Before(row, c);
    ElementsSize(front);
  }

  /** A column below the threshold comes after everything that reaches it. */
  lemma LoserRank(row: seq<real>, t: real, c: nat)
    requires c < |row| && row[c] < t
    ensures Rank(row, c) >= Count(row, t, false)
  {
    var winners, ties := Columns(row, t, true, |row|), Columns(row, t, false, |row|);
    ColumnsSpec(row, t, true, |row|);
    ColumnsSpec(row, t, false, |row|);
    ColumnsCount(row, t, |row|);
    assert row[..|row|] == row;
    ElementsSize(winners + ties);
    assert Elements(winners + ties) <= Before(row, c);
    SubsetSize(Elements(winners + ties), Before(row, c));
  }

  /** What both routines emit for one row. */
  ghost predicate IsTopK(row: seq<real>, k: nat, columns: seq<nat>) {
    && |columns| == k
    && Distinct(columns)
    && (forall c: nat :: c in columns <==> c < |row| && Rank(row, c) < k)
  }

  lemma SelectedShape(row: seq<real>, k: nat, t: real)
    requires 1 <= k <= |row| && IsKth(row, k - 1, t)
    ensures var winners, ties := Columns(row, t, true, |row|), Columns(row, t, false, |row|);
      && |winners| < k <= |winners| + |ties|
      && Selected(row, t, k) == winners + ties[..k - |winners|]
  {
    ColumnsCount(row, t, |row|);
    assert row[..|row|] == row;
  }

  lemma SelectedMember(row: seq<real>, k: nat, t: real, c: nat)
    requires 1 <= k <= |row| && IsKth(row, k - 1, t)
    ensures c in Selected(row, t, k) <==> c < |row| && Rank(row, c) < k
  {
    var winners, ties := Columns(row, t, true, |row|), Columns(row, t, false, |row|);
    SelectedShape(row, k, t);
    ColumnsSpec(row, t, true, |row|);
    ColumnsSpec(row, t, false, |row|);
    if c < |row| {
      if row[c] > t {
        WinnerRank(row, t, c);
      } else if row[c] < t {
        LoserRank(row, t, c);
      } else {
        var j :| 0 <= j < |ties| && ties[j] == c;
        TieRank(row, t, j);
        if j < k - |winners| {
          assert ties[..k - |winners|][j] == c;
        }
      }
    }
  }

  /** With the k-th value as threshold, the emitted columns are exactly the k best ones. */
  lemma SelectedIsTopK(row: seq<real>, k: nat, t: real)
    requires 1 <= k <= |row| && IsKth(row, k - 1, t)
    ensures IsTopK(row, k, Selected(row, t, k))
  {
    SelectedShape(row, k, t);
    ColumnsSpec(row, t, true, |row|);
    ColumnsSpec(row, t, false, |row|);
    forall c: nat ensures c in Selected(row, t, k) <==> c < |row| && Rank(row, c) < k {
      SelectedMember(row, k, t, c);
    }
  }

  /** The k best columns are the first k of the stable sort. */
  lemma TopKIsSortPrefix(row: seq<real>, k: nat, columns: seq<nat>, ids: seq<nat>)
    requires k <= |row| && IsTopK(row, k, columns) && IsRanking(row, ids)
    ensures Elements(columns) == Elements(ids[..k])
  {
    forall c: nat ensures c in columns <==> c in ids[..k] {
      if c < |row| {
        RankingCovers(row, ids, c);
        var r :| 0 <= r < |ids| && ids[r] == c;
        RankingRanks(row, ids, r);
        if r < k {
          assert ids[..k][r] == c;
        }
      }
      if c in ids[..k] {
        var r :| 0 <= r < k && ids[r] == c;
        RankingRanks(row, ids, r);
      }
    }
  }

  /** Winners in column order, then at least one tie with the least of the selected values, in column order. */
  ghost predicate WinnersFirst(row: seq<real>, columns: seq<nat>) {
    && Indices(row, columns)
    && exists t, n: nat :: n < |columns| && Grouped(row, columns, t, n)
  }

  ghost predicate Grouped(row: seq<real>, columns: seq<nat>, t: real, n: nat)
    requires Indices(row, columns) && n <= |columns|
  {
    && (forall i | 0 <= i < |columns| :: if i < n then row[columns[i]] > t else row[columns[i]] == t)
    && (forall i, j | 0 <= i < j < |columns| && (j < n || i >= n) :: columns[i] < columns[j])
  }

  lemma SelectedOrder(row: seq<real>, k: nat, t: real)
    requires 1 <= k <= |row| && IsKth(row, k - 1, t)
    ensures WinnersFirst(row, Selected(row, t, k))
  {
    SelectedShape(row, k, t);
    ColumnsSpec(row, t, true, |row|);
    ColumnsSpec(row, t, false, |row|);
    assert Grouped(row, Selected(row, t, k), t, |Columns(row, t, true, |row|)|);
  }

  // ---------- the two routines ----------

  /** The two emitting loops, which stop as soon as k columns are out. */
  method Emit(row: seq<real>, t: real, k: nat, indices: array<nat>, base: nat)
    requires base + k <= indices.Length
    requires 1 <= k <= |row| && IsKth(row, k - 1, t)
    modifies indices
    ensures indices[base..base + k] == Selected(row, t, k)
    ensures Framed(old(indices[..]), indices[..], base, k)
  {
    SelectedShape(row, k, t);
    var count := EmitClass(row, t, true, k, indices, base, 0, []);
    count := EmitClass(row, t, false, k, indices, base, count, Columns(row, t, true, |row|));
  }

  method EmitClass(row: seq<real>, t: real, winner: bool, k: nat, indices: array<nat>, base: nat, start: nat,
                   ghost before: seq<nat>)
    returns (count: nat)
    requires base + k <= indices.Length && start <= k && |before| == start
    requires indices[base..base + start] == before
    modifies indices
    ensures start <= count <= k
    ensures indices[base..base + count] == Take(before + Columns(row, t, winner, |row|), k)
    ensures indices[..base] == old(indices[..base]) && indices[base + k..] == old(indices[base + k..])
  {
    ghost var original := indices[..];
    count := start;
    var column := 0;
    assert before + Columns(row, t, winner, 0) == before;
    hide Emitted;
    while column < |row| && count < k
      invariant column <= |row| && start <= count <= k
      invariant Emitted(row, t, winner, k, before, original, indices[..], base, column, count)
    {
      count := TakeColumn(row, t, winner, k, before, original, indices, base, column, count);
      column := column + 1;
    }
    AllEmitted(row, t, winner, k, before, original, indices, base, column, count);
  }

  /** The class up to a column follows what was there before; nothing else has changed. */
  ghost predicate Emitted(row: seq<real>, t: real, winner: bool, k: nat, before: seq<nat>, original: seq<nat>,
                          now: seq<nat>, base: nat, column: nat, count: nat) {
    && column <= |row| && count <= k && Framed(original, now, base, k)
    && now[base..base + count] == before + Columns(row, t, winner, column)
  }

  method TakeColumn(row: seq<real>, t: real, winner: bool, k: nat, ghost before: seq<nat>, ghost original: seq<nat>,
                    indices: array<nat>, base: nat, column: nat, count: nat)
    returns (next: nat)
    requires column < |row| && count < k
    requires Emitted(row, t, winner, k, before, original, indices[..], base, column, count)
    modifies indices
    ensures count <= next <= k
    ensures Emitted(row, t, winner, k, before, original, indices[..], base, column + 1, next)
  {
    ColumnsNext(row, t, winner, column, before);
    hide Columns;
    ghost var middle := indices[..];
    next := count;
    if (if winner then row[column] > t else row[column] == t) {
      indices[base + count] := column;
      next := count + 1;
      assert indices[..][base..base + next] == middle[base..base + count] + [column];
    }
  }

  lemma AllEmitted(row: seq<real>, t: real, winner: bool, k: nat, before: seq<nat>, original: seq<nat>,
                   indices: array<nat>, base: nat, column: nat, count: nat)
    requires Emitted(row, t, winner, k, before, original, indices[..], base, column, count)
    requires column == |row| || count == k
    ensures base + k <= indices.Length
    ensures indices[base..base + count] == Take(before + Columns(row, t, winner, |row|), k)
    ensures indices[..base] == original[..base] && indices[base + k..] == original[base + k..]
  {
    hide Columns;
    assert indices[base..base + count] == indices[..][base..base + count];
    TakenAll(row, t, winner, column, before, k);
  }

  lemma ColumnsNext(row: seq<real>, t: real, winner: bool, n: nat, before: seq<nat>)
    requires n < |row|
    ensures before + Columns(row, t, winner, n + 1)
         == before + Columns(row, t, winner, n) + if Takes(row[n], t, winner) then [n] else []
  {
  }

  /** The scan stops at the end of the row or with k columns. */
  lemma TakenAll(row: seq<real>, t: real, winner: bool, n: nat, before: seq<nat>, k: nat)
    requires n <= |row| && |before + Columns(row, t, winner, n)| <= k
    requires n == |row| || |before + Columns(row, t, winner, n)| == k
    ensures before + Columns(row, t, winner, n) == Take(before + Columns(row, t, winner, |row|), k)
  {
    ColumnsPrefix(row, t, winner, n);
  }

  lemma {:induction false} ColumnsPrefix(row: seq<real>, t: real, winner: bool, n: nat)
    requires n <= |row|
    ensures Columns(row, t, winner, n) <= Columns(row, t, winner, |row|)
    decreases |row| - n
  {
    if n < |row| {
      ColumnsPrefix(row, t, winner, n + 1);
    }
  }

  predicate Descending(s: seq<real>) {
    forall i, j | 0 <= i < j < |s| :: s[i] >= s[j]
  }

  function InsertValue(s: seq<real>, x: real): seq<real> {
    if s == [] || x >= s[0] then [x] + s else [s[0]] + InsertValue(s[1..], x)
  }

  lemma {:induction false} InsertValueMembers(s: seq<real>, x: real)
    ensures multiset(InsertValue(s, x)) == multiset(s) + multiset{x}
    ensures forall v :: v in InsertValue(s, x) <==> v == x || v in s
  {
    if s != [] && x < s[0] {
      InsertValueMembers(s[1..], x);
      assert s == [s[0]] + s[1..];
    }
  }

  lemma {:induction false} InsertValueSorts(s: seq<real>, x: real)
    requires Descending(s)
    ensures Descending(InsertValue(s, x))
  {
    if s != [] && x < s[0] {
      InsertValueSorts(s[1..], x);
      InsertValueMembers(s[1..], x);
      var rest := InsertValue(s[1..], x);
      forall j | 0 <= j < |rest| ensures s[0] >= rest[j] {
        assert rest[j] in rest;
      }
    }
  }

  /** std::sort with std::greater. */
  function SortDescending(s: seq<real>): (t: seq<real>)
    ensures Descending(t) && multiset(t) == multiset(s) && |t| == |s|
  {
    if s == [] then []
    else
      SortStep(s, SortDescending(s[1..]));
      InsertValue(SortDescending(s[1..]), s[0])
  }

  lemma SortStep(s: seq<real>, rest: seq<real>)
    requires s != [] && Descending(rest) && multiset(rest) == multiset(s[1..])
    ensures var t := InsertValue(rest, s[0]); Descending(t) && multiset(t) == multiset(s) && |t| == |s|
  {
    InsertValueSorts(rest, s[0]);
    InsertValueMembers(rest, s[0]);
    hide InsertValue, Descending;
    assert s == [s[0]] + s[1..];
    assert |multiset(InsertValue(rest, s[0]))| == |multiset(s)|;
  }

  lemma SortedKth(s: seq<real>, target: nat)
    requires target < |s|
    ensures IsKth(s, target, SortDescending(s)[target])
  {
    var t := SortDescending(s);
    KthOfPartition(t, target);
    CountPermuted(t, s, t[target], true);
    CountPermuted(t, s, t[target], false);
  }

  /** The columns of one row, as the baseline defines them. */
  function TopKColumns(row: seq<real>, k: nat): seq<nat>
    requires 1 <= k <= |row|
  {
    Selected(row, SortDescending(row)[k - 1], k)
  }

  /** The k best columns of a row: the set of the stable sort's first k, winners first, no repetition. */
  lemma TopKColumnsSpec(row: seq<real>, k: nat)
    requires 1 <= k <= |row|
    ensures IsTopK(row, k, TopKColumns(row, k))
    ensures WinnersFirst(row, TopKColumns(row, k))
    ensures Elements(TopKColumns(row, k)) == Elements(StableSort(row)[..k])
  {
    SortedKth(row, k - 1);
    SelectedIsTopK(row, k, SortDescending(row)[k - 1]);
    SelectedOrder(row, k, SortDescending(row)[k - 1]);
    TopKIsSortPrefix(row, k, TopKColumns(row, k), StableSort(row));
  }

  /** The first `done` rows of the output hold the columns of the corresponding rows of the input. */
  ghost predicate RowsDone(scores: seq<real>, width: nat, k: nat, indices: seq<nat>, rows: nat, done: nat)
    requires 1 <= k <= width
  {
    && |scores| == Flat(rows, width, 0) && |indices| == Flat(rows, k, 0) && done <= rows
    && forall r: nat | r < done :: RowDone(scores, width, k, indices, r)
  }

  ghost predicate RowDone(scores: seq<real>, width: nat, k: nat, indices: seq<nat>, r: nat)
    requires 1 <= k <= width
  {
    && Flat(r, width, 0) + width <= |scores| && Flat(r, k, 0) + k <= |indices|
    && RowOf(indices, r, k) == TopKColumns(RowOf(scores, r, width), k)
  }

  lemma RowEmitted(scores: seq<real>, width: nat, k: nat, before: seq<nat>, after: seq<nat>, rows: nat, row: nat)
    requires 1 <= k <= width && row < rows && RowsDone(scores, width, k, before, rows, row)
    requires Framed(before, after, Flat(row, k, 0), k) && RowDone(scores, width, k, after, row)
    ensures RowsDone(scores, width, k, after, rows, row + 1)
  {
    FramedSize(before, after, Flat(row, k, 0), k);
    hide TopKColumns, Flat, RowOf, Framed;
    forall r: nat | r < row ensures RowDone(scores, width, k, after, r) {
      assert RowDone(scores, width, k, before, r);
      RowsExtended(before, after, row, rows, k, r);
    }
  }

  /** Emits one row, given any way of finding its threshold. */
  method EmitRow(scores: seq<real>, width: nat, k: nat, indices: array<nat>, rows: nat, row: nat, threshold: real)
    requires 1 <= k <= width && row < rows && RowsDone(scores, width, k, indices[..], rows, row)
    requires Flat(row, width, 0) + width <= |scores| && IsKth(RowOf(scores, row, width), k - 1, threshold)
    modifies indices
    ensures RowsDone(scores, width, k, indices[..], rows, row + 1)
  {
    RowInside(row, rows, k);
    var source := RowOf(scores, row, width);
    SortedKth(source, k - 1);
    KthUnique(source, k - 1, threshold, SortDescending(source)[k - 1]);
    ghost var before := indices[..];
    var at := RowMajor(row, k, 0);
    hide IsKth, SortDescending, Selected, RowsDone, Flat, RowMajor;
    Emit(source, threshold, k, indices, at);
    assert RowOf(indices[..], row, k) == indices[at..at + k];
    RowEmitted(scores, width, k, before, indices[..], rows, row);
  }

  /** The kernel's loop over rows: partition selection for the threshold, then the emitting loops. */
  method ThresholdRows(scores: seq<real>, indices: array<nat>, rows: nat, width: nat, k: nat)
    requires 1 <= k <= width && |scores| == Flat(rows, width, 0) && indices.Length == Flat(rows, k, 0)
    modifies indices
    ensures RowsDone(scores, width, k, indices[..], rows, rows)
  {
    hide Flat;
    for row := 0 to rows
      invariant RowsDone(scores, width, k, indices[..], rows, row)
    {
      RowInside(row, rows, width);
      var source := RowOf(scores, row, width);
      var threshold := SelectThreshold(source, k);
      EmitRow(scores, width, k, indices, rows, row, threshold);
    }
  }

  /** The k-th largest value of a row, found in a copy. */
  method SelectThreshold(source: seq<real>, k: nat) returns (threshold: real)
    requires 1 <= k <= |source|
    ensures IsKth(source, k - 1, threshold)
  {
    var scratch := new real[|source|](i requires 0 <= i < |source| => source[i]);
    assert scratch[..] == source;
    threshold := KthDescending(scratch, scratch.Length, k - 1);
  }

  predicate AllFinite(scores: seq<Float>) {
    forall i | 0 <= i < |scores| :: scores[i].Finite?
  }

  function Values(scores: seq<Float>): (values: seq<real>)
    requires AllFinite(scores)
    ensures |values| == |scores| && forall i | 0 <= i < |values| :: scores[i] == Finite(values[i])
  {
    seq(|scores|, i requires 0 <= i < |scores| => scores[i].value)
  }

  /** The kernel: shapes and scores are checked before anything is written. */
  method ThresholdTopkIndices(scores: seq<Float>, indices: array<nat>, rows: int, width: int, k: int)
    returns (status: Status)
    requires rows > 0 && width > 0 ==> |scores| == Flat(rows, width, 0)
    requires rows > 0 && k > 0 ==> indices.Length == Flat(rows, k, 0)
    modifies indices
    ensures status.InvalidShape? <==> rows <= 0 || width <= 0 || k <= 0 || k > width
    ensures status.InvalidArgument? <==> !status.InvalidShape? && !AllFinite(scores)
    ensures status.Ok? ==> RowsDone(Values(scores), width, k, indices[..], rows, rows)
    ensures !status.Ok? ==> indices[..] == old(indices[..])
  {
    if rows <= 0 || width <= 0 || k <= 0 || k > width {
      return InvalidShape;
    }
    for item := 0 to |scores|
      invariant AllFinite(scores[..item])
    {
      if !scores[item].Finite? {
        return InvalidArgument;
      }
    }
    assert scores[..|scores|] == scores;
    ThresholdRows(Values(scores), indices, rows, width, k);
    return Ok;
  }

  /** The baseline: a full descending sort for the threshold, then the same loops. */
  method FullSortBaseline(scores: seq<real>, reference: array<nat>, rows: nat, width: nat, k: nat)
    requires 1 <= k <= width && |scores| == Flat(rows, width, 0) && reference.Length == Flat(rows, k, 0)
    modifies reference
    ensures RowsDone(scores, width, k, reference[..], rows, rows)
  {
    hide Flat;
    for row := 0 to rows
      invariant RowsDone(scores, width, k, reference[..], rows, row)
    {
      RowInside(row, rows, width);
      var source := RowOf(scores, row, width);
      var sorted := SortDescending(source);
      SortedKth(source, k - 1);
      EmitRow(scores, width, k, reference, rows, row, sorted[k - 1]);
    }
  }

  /** Hence kernel and baseline fill their outputs identically. */
  lemma KernelMatchesBaseline(scores: seq<real>, width: nat, k: nat, rows: nat, a: seq<nat>, b: seq<nat>)
    requires 1 <= k <= width
    requires RowsDone(scores, width, k, a, rows, rows) && RowsDone(scores, width, k, b, rows, rows)
    ensures a == b
  {
    hide TopKColumns, Flat, RowOf;
    forall r: nat | r < rows ensures Flat(r, k, 0) + k <= |a| && RowOf(a, r, k) == RowOf(b, r, k) {
      assert RowDone(scores, width, k, a, r) && RowDone(scores, width, k, b, r);
    }
    EqualRows(a, b, rows, k);
  }

  // ---------- the output written out ----------

  /** Whatever is listed comes before whatever is not. */
  lemma ListedFirst(row: seq<real>, k: nat, columns: seq<nat>, i: nat, c: nat)
    requires IsTopK(row, k, columns) && i < k && c < |row| && c !in columns
    ensures columns[i] < |row| && (row[columns[i]] > row[c] || (row[columns[i]] == row[c] && columns[i] < c))
  {
    assert columns[i] in columns;
    RankOrders(row, columns[i], c);
  }

  /**
   Row r of the output: n columns whose values are above t, then columns whose values are t, each part in column order;
   a column that is not listed has a smaller value than all that are, or the same value and a higher index.
   */
  lemma TopKWrittenOut(scores: seq<real>, width: nat, k: nat, indices: seq<nat>, rows: nat, r: nat)
    returns (columns: seq<nat>, t: real, n: nat)
    requires 1 <= k <= width && r < rows && RowsDone(scores, width, k, indices, rows, rows)
    ensures |columns| == k && n < k && Distinct(columns)
    ensures forall i: nat | i < k :: columns[i] < width && At(indices, RowMajor(r, k, i), 0) == columns[i]
    ensures forall i: nat | i < k :: var value := At(scores, RowMajor(r, width, columns[i]), 0.0);
      if i < n then value > t else value == t
    ensures forall i, j | 0 <= i < j < k && (j < n || i >= n) :: columns[i] < columns[j]
    ensures forall i: nat, c: nat | i < k && c < width && c !in columns ::
      var listed, other := At(scores, RowMajor(r, width, columns[i]), 0.0), At(scores, RowMajor(r, width, c), 0.0);
      listed > other || (listed == other && columns[i] < c)
  {
    assert RowDone(scores, width, k, indices, r);
    var row := RowOf(scores, r, width);
    TopKColumnsSpec(row, k);
    columns := RowOf(indices, r, k);
    t, n :| n < |columns| && Grouped(row, columns, t, n);
    hide TopKColumns, RowMajor, Flat, RowOf, IsTopK, Distinct;
    ElementsOf(scores, width, r);
    forall i: nat | i < k ensures At(indices, RowMajor(r, k, i), 0) == columns[i] {
      RowElement(indices, r, k, i, 0);
    }
    forall i: nat, c: nat | i < k && c < width && c !in columns
      ensures row[columns[i]] > row[c] || (row[columns[i]] == row[c] && columns[i] < c)
    {
      ListedFirst(row, k, columns, i, c);
    }
    DistinctListed(row, k, columns);
  }

  lemma DistinctListed(row: seq<real>, k: nat, columns: seq<nat>)
    requires IsTopK(row, k, columns)
    ensures Distinct(columns)
  {
  }

  lemma ElementsOf(scores: seq<real>, width: nat, r: nat)
    requires Flat(r, width, 0) + width <= |scores|
    ensures forall c: nat | c < width :: RowOf(scores, r, width)[c] == At(scores, RowMajor(r, width, c), 0.0)
  {
    hide RowMajor, Flat, RowOf;
    forall c: nat | c < width ensures RowOf(scores, r, width)[c] == At(scores, RowMajor(r, width, c), 0.0) {
      RowElement(scores, r, width, c, 0.0);
    }
  }
}
