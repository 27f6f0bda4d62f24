/**
 Nucleus (top-p) sampling in exact arithmetic: the heap selection of kernels/sampling/sampling_ref.cpp
 and the full-sort reference of benchmarks/cases/colibri_ops.cpp.
 */
module Nucleus {
  import opened Ranking
  import opened Heap

  // ---------- mass ----------

  function Mass(weights: seq<real>, ids: seq<nat>): real
    requires Indices(weights, ids)
  {
    if ids == [] then 0.0 else Mass(weights, ids[..|ids| - 1]) + weights[ids[|ids| - 1]]
  }

  predicate NonNegative(s: seq<real>) {
    forall i | 0 <= i < |s| :: s[i] >= 0.0
  }

  /** A token that comes earlier in the ranking weighs at least as much. */
  ghost predicate Follows(weights: seq<real>, scores: seq<real>) {
    && |weights| == |scores|
    && forall a: nat, b: nat | a < |scores| && b < |scores| && Precedes(scores, a, b) :: weights[a] >= weights[b]
  }

  lemma MassSnoc(weights: seq<real>, ids: seq<nat>, c: nat)
    requires Indices(weights, ids) && c < |weights|
    ensures Indices(weights, ids + [c]) && Mass(weights, ids + [c]) == Mass(weights, ids) + weights[c]
  {
    assert (ids + [c])[..|ids|] == ids;
  }

  lemma {:induction false} MassConcat(weights: seq<real>, a: seq<nat>, b: seq<nat>)
    requires Indices(weights, a) && Indices(weights, b)
    ensures Indices(weights, a + b) && Mass(weights, a + b) == Mass(weights, a) + Mass(weights, b)
  {
    if b == [] {
      assert a + b == a;
    } else {
      var n := |b| - 1;
      assert (a + b)[..|a + b| - 1] == a + b[..n];
      MassConcat(weights, a, b[..n]);
    }
  }

  lemma MassRemove(weights: seq<real>, ids: seq<nat>, j: nat)
    requires Indices(weights, ids) && j < |ids|
    ensures Indices(weights, ids[..j] + ids[j + 1..])
    ensures Mass(weights, ids) == Mass(weights, ids[..j] + ids[j + 1..]) + weights[ids[j]]
  {
    assert ids == ids[..j] + [ids[j]] + ids[j + 1..];
    MassSnoc(weights, ids[..j], ids[j]);
    MassConcat(weights, ids[..j] + [ids[j]], ids[j + 1..]);
    MassConcat(weights, ids[..j], ids[j + 1..]);
  }

  lemma {:induction false} MassGrows(weights: seq<real>, ids: seq<nat>, m: nat, n: nat)
    requires NonNegative(weights) && Indices(weights, ids) && m <= n <= |ids|
    ensures Mass(weights, ids[..m]) <= Mass(weights, ids[..n])
    decreases n
  {
    if m < n {
      assert ids[..n][..n - 1] == ids[..n - 1];
      MassGrows(weights, ids, m, n - 1);
    }
  }

  lemma MassStep(weights: seq<real>, ids: seq<nat>, n: nat)
    requires Indices(weights, ids) && n < |ids|
    ensures Mass(weights, ids[..n + 1]) == Mass(weights, ids[..n]) + weights[ids[n]]
  {
    assert ids[..n + 1][..n] == ids[..n];
  }

  /** Among m distinct tokens one has rank m - 1 or more. */
  lemma SomeLateToken(scores: seq<real>, ids: seq<nat>, tokens: seq<nat>) returns (j: nat)
    requires IsRanking(scores, ids) && Indices(scores, tokens) && Distinct(tokens) && tokens != []
    ensures j < |tokens| <= |ids| && Rank(scores, tokens[j]) >= |tokens| - 1
  {
    var m := |tokens|;
    ElementsSize(tokens);
    SubsetSize(Elements(tokens), Below(|scores|));
    if forall i | 0 <= i < m :: Rank(scores, tokens[i]) < m - 1 {
      forall c | c in Elements(tokens) ensures c in Elements(ids[..m - 1]) {
        RankingCovers(scores, ids, c);
        var r :| 0 <= r < |ids| && ids[r] == c;
        RankingRanks(scores, ids, r);
        assert ids[..m - 1][r] == c;
      }
      ElementsSize(ids[..m - 1]);
      SubsetSize(Elements(tokens), Elements(ids[..m - 1]));
      assert false;
    }
    j :| 0 <= j < m && Rank(scores, tokens[j]) >= m - 1;
  }

  /** No m tokens weigh more than the m best ones. */
  lemma {:induction false} BestTokensWeighMost(scores: seq<real>, weights: seq<real>, ids: seq<nat>, tokens: seq<nat>)
    requires IsRanking(scores, ids) && Follows(weights, scores)
    requires Indices(scores, tokens) && Distinct(tokens)
    ensures |tokens| <= |ids| && Mass(weights, tokens) <= Mass(weights, ids[..|tokens|])
    decreases |tokens|
  {
    if tokens != [] {
      var m := |tokens|;
      var j := SomeLateToken(scores, ids, tokens);
      var rest := tokens[..j] + tokens[j + 1..];
      MassRemove(weights, tokens, j);
      BestTokensWeighMost(scores, weights, ids, rest);
      assert ids[..m][..m - 1] == ids[..m - 1];
      RankingRanks(scores, ids, m - 1);
      RankOrders(scores, tokens[j], ids[m - 1]);
      RankOrders(scores, ids[m - 1], tokens[j]);
    }
  }

  // ---------- the nucleus ----------

  /** keep is the shortest nonempty prefix of ids whose mass reaches the target, or all of ids. */
  ghost predicate IsNucleus(weights: seq<real>, ids: seq<nat>, target: real, keep: nat)
    requires Indices(weights, ids)
  {
    && 1 <= keep <= |ids|
    && (forall n | 1 <= n < keep :: Mass(weights, ids[..n]) < target)
    && (keep == |ids| || Mass(weights, ids[..keep]) >= target)
  }

  lemma NucleusUnique(weights: seq<real>, ids: seq<nat>, target: real, a: nat, b: nat)
    requires Indices(weights, ids) && IsNucleus(weights, ids, target, a) && IsNucleus(weights, ids, target, b)
    ensures a == b
  {
  }

  /** No other nonempty set of tokens that reaches the target has fewer elements. */
  lemma NucleusIsMinimal(scores: seq<real>, weights: seq<real>, ids: seq<nat>, target: real, keep: nat,
                         tokens: seq<nat>)
    requires IsRanking(scores, ids) && Follows(weights, scores) && IsNucleus(weights, ids, target, keep)
    requires Indices(scores, tokens) && Distinct(tokens) && tokens != []
    requires Mass(weights, tokens) >= target
    ensures |tokens| >= keep
  {
    BestTokensWeighMost(scores, weights, ids, tokens);
  }

  function Iota(n: nat): (s: seq<nat>)
    ensures |s| == n && forall i | 0 <= i < n :: s[i] == i
  {
    seq(n, i => i)
  }

  /** The nucleus reaches every target that all the tokens together reach. */
  lemma NucleusReaches(scores: seq<real>, weights: seq<real>, ids: seq<nat>, target: real, keep: nat)
    requires IsRanking(scores, ids) && Follows(weights, scores)
    requires IsNucleus(weights, ids, target, keep)
    requires target <= Mass(weights, Iota(|scores|))
    ensures Mass(weights, ids[..keep]) >= target
  {
    var all := Iota(|scores|);
    BestTokensWeighMost(scores, weights, ids, all);
    assert keep == |ids| ==> ids[..keep] == ids[..|all|];
  }

  /** A share p <= 1 of the total, summed in token order, is such a target. */
  lemma ShareReached(scores: seq<real>, weights: seq<real>, ids: seq<nat>, p: real, total: real, target: real, keep: nat)
    requires IsRanking(scores, ids) && Follows(weights, scores) && NonNegative(weights)
    requires total == Mass(weights, Iota(|scores|)) && p <= 1.0 && target == p * total
    requires IsNucleus(weights, ids, target, keep)
    ensures Mass(weights, ids[..keep]) >= target
  {
    MassNonNegative(weights, Iota(|scores|));
    ShareBound(p, total, target);
    NucleusReaches(scores, weights, ids, target, keep);
  }

  lemma MassNonNegative(weights: seq<real>, ids: seq<nat>)
    requires NonNegative(weights) && Indices(weights, ids)
    ensures Mass(weights, ids) >= 0.0
  {
    assert ids[..|ids|] == ids && ids[..0] == [];
    MassGrows(weights, ids, 0, |ids|);
  }

  lemma ShareBound(p: real, total: real, target: real)
    requires p <= 1.0 && total >= 0.0 && target == p * total
    ensures target <= total
  {
    assert (1.0 - p) * total >= 0.0;
  }

  // ---------- the heap selection ----------

  /** Each of the n indices occurs exactly once. */
  ghost predicate AllOnce(m: multiset<nat>, n: nat) {
    forall c: nat :: m[c] == if c < n then 1 else 0
  }

  lemma {:induction false} IotaOnce(n: nat)
    ensures AllOnce(multiset(Iota(n)), n)
  {
    if n > 0 {
      IotaOnce(n - 1);
      assert Iota(n) == Iota(n - 1) + [n - 1];
    }
  }

  /** Selected tokens are in ranking order and precede every token still in the heap. */
  ghost predicate Selecting(scores: seq<real>, selected: seq<nat>, rest: seq<nat>) {
    && Indices(scores, selected) && Indices(scores, rest)
    && AllOnce(multiset(selected) + multiset(rest), |scores|)
    && Ordered(scores, selected)
    && forall i, j | 0 <= i < |selected| && 0 <= j < |rest| :: Precedes(scores, selected[i], rest[j])
  }

  /** The heap's root is the next token of the ranking. */
  lemma PopRoot(scores: seq<real>, selected: seq<nat>, h: seq<nat>)
    requires h != [] && Selecting(scores, selected, h) && HeapFrom(scores, h, |h|, 0, -1)
    ensures Selecting(scores, selected + [h[0]], h[1..])
  {
    assert h == [h[0]] + h[1..];
    assert multiset(selected + [h[0]]) + multiset(h[1..]) == multiset(selected) + multiset(h);
    assert (multiset(selected) + multiset(h))[h[0]] == 1;
    forall j | 0 <= j < |h[1..]| ensures Precedes(scores, h[0], h[1..][j]) {
      RootIsBest(scores, h, |h|, j + 1);
      RootOnce(h, j + 1);
    }
  }

  lemma RootOnce(h: seq<nat>, j: nat)
    requires 0 < j < |h| && multiset(h)[h[0]] <= 1
    ensures h[j] != h[0]
  {
    assert h == [h[0]] + h[1..];
    assert multiset(h)[h[0]] == 1 + multiset(h[1..])[h[0]];
    assert h[j] in h[1..] by {
      assert h[j] == h[1..][j - 1];
    }
  }

  lemma SelectingPermuted(scores: seq<real>, selected: seq<nat>, a: seq<nat>, b: seq<nat>)
    requires Selecting(scores, selected, a) && multiset(a) == multiset(b)
    ensures Selecting(scores, selected, b)
  {
    forall j | 0 <= j < |b| ensures b[j] in a {
      assert b[j] in multiset(b);
    }
  }

  lemma SelectedIsPrefix(scores: seq<real>, selected: seq<nat>, rest: seq<nat>)
    requires Selecting(scores, selected, rest)
    ensures |selected| <= |StableSort(scores)| && selected == StableSort(scores)[..|selected|]
  {
    forall i, c: nat | 0 <= i < |selected| && c < |scores| && c !in selected
      ensures Precedes(scores, selected[i], c)
    {
      assert (multiset(selected) + multiset(rest))[c] == 1;
      assert c in rest;
    }
    PrefixOfRanking(scores, selected, StableSort(scores));
  }

  /** No nonempty prefix of up to n tokens reaches the target. */
  ghost predicate AllShort(weights: seq<real>, ids: seq<nat>, target: real, n: nat) {
    && Indices(weights, ids) && n <= |ids|
    && forall k | 1 <= k <= n :: Mass(weights, ids[..k]) < target
  }

  lemma ShortStep(scores: seq<real>, weights: seq<real>, target: real, selected: seq<nat>, rest: seq<nat>)
    requires |weights| == |scores| && selected != [] && Selecting(scores, selected, rest)
    requires AllShort(weights, StableSort(scores), target, |selected| - 1)
    ensures var ids := StableSort(scores);
      && |selected| <= |ids| && selected == ids[..|selected|]
      && (Mass(weights, selected) < target ==> AllShort(weights, ids, target, |selected|))
      && (Mass(weights, selected) >= target || rest == [] ==> IsNucleus(weights, ids, target, |selected|))
  {
    SelectedIsPrefix(scores, selected, rest);
    AllSelected(scores, selected, rest);
  }

  /** nucleus_tokens: heapify, then pop until the target is reached. */
  method NucleusTokens(scores: seq<real>, weights: seq<real>, target: real) returns (selected: seq<nat>)
    requires scores != [] && |weights| == |scores|
    ensures |selected| <= |scores| && selected == StableSort(scores)[..|selected|]
    ensures IsNucleus(weights, StableSort(scores), target, |selected|)
  {
    var heap := BuildHeap(scores);
    var cumulative := 0.0;
    var count := heap.Length;
    selected := [];
    assert heap[..count] == heap[..];
    var looping := true;
    while looping
      invariant |selected| + count == |scores|
      invariant looping ==> 0 < count <= heap.Length && Indices(scores, heap[..])
      invariant looping ==> Popping(scores, weights, heap[..], count, selected, cumulative)
      invariant looping ==> AllShort(weights, StableSort(scores), target, |selected|)
      invariant !looping ==> selected == StableSort(scores)[..|selected|]
      invariant !looping ==> IsNucleus(weights, StableSort(scores), target, |selected|)
      decreases looping, count
    {
      selected, count, cumulative := Pop(scores, weights, heap, count, selected, cumulative);
      ShortStep(scores, weights, target, selected, heap[..count]);
      looping := count != 0 && cumulative < target;
    }
  }

  /** The state of the selection: a heap of the tokens that are not selected yet. */
  ghost predicate Popping(scores: seq<real>, weights: seq<real>, h: seq<nat>, count: nat, selected: seq<nat>,
                          cumulative: real)
    requires |weights| == |scores|
  {
    && count <= |h| && Indices(scores, h)
    && Selecting(scores, selected, h[..count])
    && HeapFrom(scores, h[..count], count, 0, -1)
    && cumulative == Mass(weights, selected)
  }

  lemma AllSelected(scores: seq<real>, selected: seq<nat>, rest: seq<nat>)
    requires Selecting(scores, selected, rest)
    ensures rest == [] ==> |selected| == |scores|
  {
    if rest == [] {
      forall c: nat | c in Below(|scores|) ensures c in Elements(selected) {
        assert (multiset(selected) + multiset(rest))[c] == 1;
      }
      SelectedIsPrefix(scores, selected, rest);
      ElementsSize(selected);
      SubsetSize(Below(|scores|), Elements(selected));
    }
  }

  method BuildHeap(scores: seq<real>) returns (heap: array<nat>)
    ensures fresh(heap) && heap.Length == |scores|
    ensures Popping(scores, scores, heap[..], heap.Length, [], 0.0)
    ensures Indices(scores, heap[..])
  {
    heap := new nat[|scores|](i => i);
    assert heap[..] == Iota(|scores|);
    IotaOnce(|scores|);
    var parent := heap.Length / 2;
    while parent > 0
      invariant 0 <= parent <= heap.Length / 2
      invariant Indices(scores, heap[..]) && multiset(heap[..]) == multiset(Iota(|scores|))
      invariant HeapFrom(scores, heap[..], heap.Length, parent, -1)
    {
      assert heap[..heap.Length] == heap[..];
      SiftDown(scores, heap, heap.Length, parent - 1);
      assert heap[..heap.Length] == heap[..];
      parent := parent - 1;
    }
    assert heap[..heap.Length] == heap[..];
  }

  /** One round of the selection loop. */
  method Pop(scores: seq<real>, weights: seq<real>, heap: array<nat>, count: nat, selected: seq<nat>, cumulative: real)
    returns (newSelected: seq<nat>, newCount: nat, newCumulative: real)
    requires |weights| == |scores| && 0 < count <= heap.Length
    requires Popping(scores, weights, heap[..], count, selected, cumulative)
    modifies heap
    ensures newCount == count - 1 && |newSelected| == |selected| + 1
    ensures Popping(scores, weights, heap[..], newCount, newSelected, newCumulative)
  {
    ghost var before := heap[..count];
    var root := heap[0];
    newSelected := selected + [root];
    newCumulative := cumulative + weights[root];
    newCount := count - 1;
    RemoveRoot(scores, heap, count);
    PopKeeps(scores, weights, before, heap[..newCount], selected);
    assert heap[..newCount] == heap[..][..newCount];
  }

  lemma PopKeeps(scores: seq<real>, weights: seq<real>, before: seq<nat>, after: seq<nat>, selected: seq<nat>)
    requires before != [] && |weights| == |scores|
    requires Selecting(scores, selected, before) && HeapFrom(scores, before, |before|, 0, -1)
    requires multiset(after) == multiset(before[1..])
    ensures Selecting(scores, selected + [before[0]], after)
    ensures Mass(weights, selected + [before[0]]) == Mass(weights, selected) + weights[before[0]]
  {
    PopRoot(scores, selected, before);
    SelectingPermuted(scores, selected + [before[0]], before[1..], after);
    MassSnoc(weights, selected, before[0]);
  }

  /** Moves the last leaf to the root and sifts it down, when anything is left. */
  method RemoveRoot(scores: seq<real>, heap: array<nat>, count: nat)
    requires 0 < count <= heap.Length && Indices(scores, heap[..])
    requires HeapFrom(scores, heap[..count], count, 0, -1)
    modifies heap
    ensures Indices(scores, heap[..])
    ensures HeapFrom(scores, heap[..count - 1], count - 1, 0, -1)
    ensures multiset(heap[..count - 1]) == multiset(old(heap[..count])[1..])
  {
    ghost var before := heap[..count];
    var left := count - 1;
    if left != 0 {
      heap[0] := heap[left];
      RootReplaced(scores, before, heap[..left]);
      HeapTrimmed(scores, heap[..], left, 0, 0);
      SiftDown(scores, heap, left, 0);
      HeapTrimmed(scores, heap[..], left, 0, -1);
    } else {
      assert heap[..left] == before[1..];
    }
  }

  lemma HeapTrimmed(scores: seq<real>, h: seq<nat>, count: nat, lo: nat, hole: int)
    requires count <= |h| && Indices(scores, h)
    ensures Indices(scores, h[..count])
    ensures HeapFrom(scores, h, count, lo, hole) <==> HeapFrom(scores, h[..count], count, lo, hole)
  {
  }

  /** The last leaf moves to the root. */
  lemma RootReplaced(scores: seq<real>, before: seq<nat>, after: seq<nat>)
    requires |before| >= 2 && |after| == |before| - 1 && Indices(scores, before)
    requires HeapFrom(scores, before, |before|, 0, -1)
    requires after == before[..|after|][0 := before[|after|]]
    ensures Indices(scores, after) && HeapFrom(scores, after, |after|, 0, 0)
    ensures multiset(after) == multiset(before[1..])
  {
    var n := |after|;
    assert before[1..] == before[1..n] + [before[n]];
    assert after == [before[n]] + before[1..n];
    forall c | 0 < c < n && Parent(c) != 0 ensures !Precedes(scores, after[c], after[Parent(c)]) {
      assert !Precedes(scores, before[c], before[Parent(c)]);
    }
  }
}
