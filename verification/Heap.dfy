/** The partial max-heap of kernels/sampling/sampling_ref.cpp, ordered by the selection comparator. */
module Heap {
  import opened Ranking

  function Parent(c: nat): nat
    requires c > 0
  {
    (c - 1) / 2
  }

  /** No child precedes its parent, for the parents in lo <= p; the node `hole` is exempt. */
  ghost predicate HeapFrom(scores: seq<real>, h: seq<nat>, count: nat, lo: nat, hole: int)
    requires count <= |h| && Indices(scores, h)
  {
    forall c | 0 < c < count && lo <= Parent(c) && Parent(c) != hole ::
      !Precedes(scores, h[c], h[Parent(c)])
  }

  /** The children of `hole` may also hang below its parent. */
  ghost predicate Bridged(scores: seq<real>, h: seq<nat>, count: nat, lo: nat, hole: nat)
    requires count <= |h| && Indices(scores, h) && hole < count
  {
    hole > lo ==>
      && lo <= Parent(hole)
      && forall c | 0 < c < count && Parent(c) == hole :: !Precedes(scores, h[c], h[Parent(hole)])
  }

  /** Moving the better child up and the value down keeps everything but the value's own children in order. */
  lemma StepDown(scores: seq<real>, h: seq<nat>, count: nat, lo: nat, root: nat, best: nat)
    requires count <= |h| && Indices(scores, h) && lo <= root < best < count && Parent(best) == root
    requires HeapFrom(scores, h, count, lo, root) && Bridged(scores, h, count, lo, root)
    requires forall c | 0 < c < count && Parent(c) == root :: !Precedes(scores, h[c], h[best])
    requires Precedes(scores, h[best], h[root])
    ensures var g := h[root := h[best]][best := h[root]];
      Indices(scores, g) && HeapFrom(scores, g, count, lo, best) && Bridged(scores, g, count, lo, best)
  {
    var g := h[root := h[best]][best := h[root]];
    forall c | 0 < c < count && lo <= Parent(c) && Parent(c) != best
      ensures !Precedes(scores, g[c], g[Parent(c)])
    {
      if c == root {
        assert !Precedes(scores, h[best], h[Parent(root)]);
      } else if Parent(c) == root {
        assert !Precedes(scores, h[c], h[best]);
      } else {
        assert !Precedes(scores, h[c], h[Parent(c)]);
      }
    }
    forall c | 0 < c < count && Parent(c) == best ensures !Precedes(scores, g[c], g[Parent(best)]) {
      assert !Precedes(scores, h[c], h[best]);
    }
  }

  /** The value has found its place when the better child does not precede it. */
  lemma Settled(scores: seq<real>, h: seq<nat>, count: nat, lo: nat, root: nat)
    requires count <= |h| && Indices(scores, h) && root < count
    requires HeapFrom(scores, h, count, lo, root)
    requires forall c | 0 < c < count && Parent(c) == root :: !Precedes(scores, h[c], h[root])
    ensures HeapFrom(scores, h, count, lo, -1)
  {
  }

  /** What the sift-down loop keeps about the heap with the held value put back. */
  ghost predicate Sifting(scores: seq<real>, h: seq<nat>, original: seq<nat>, count: nat, lo: nat, root: nat)
    requires count <= |original|
  {
    && |h| == |original| && lo <= root < count
    && Indices(scores, h)
    && HeapFrom(scores, h, count, lo, root) && Bridged(scores, h, count, lo, root)
    && multiset(h[..count]) == multiset(original[..count])
    && h[count..] == original[count..]
  }

  lemma SiftStep(scores: seq<real>, h: seq<nat>, original: seq<nat>, count: nat, lo: nat, root: nat, best: nat)
    requires count <= |original| && Sifting(scores, h, original, count, lo, root)
    requires root < best < count && Parent(best) == root
    requires forall c | 0 < c < count && Parent(c) == root :: !Precedes(scores, h[c], h[best])
    requires Precedes(scores, h[best], h[root])
    ensures Sifting(scores, h[root := h[best]][best := h[root]], original, count, lo, best)
  {
    StepDown(scores, h, count, lo, root, best);
    SwapKeepsFront(h, count, root, best);
  }

  /** heap_sift_down: the value is held back while better children move up. */
  method SiftDown(scores: seq<real>, heap: array<nat>, count: nat, start: nat)
    requires start < count <= heap.Length && Indices(scores, heap[..])
    requires HeapFrom(scores, heap[..], count, start, start)
    modifies heap
    ensures Indices(scores, heap[..]) && HeapFrom(scores, heap[..], count, start, -1)
    ensures multiset(heap[..count]) == old(multiset(heap[..count]))
    ensures heap[count..] == old(heap[count..])
  {
    var root := start;
    var value := heap[root];
    ghost var original := heap[..];
    // The heap as it would be with the value put back.
    ghost var virtual := heap[..];
    assert Sifting(scores, virtual, original, count, start, root);
    hide HeapFrom, Bridged;
    while true
      invariant Sifting(scores, virtual, original, count, start, root)
      invariant virtual == heap[..][root := value]
      decreases count - root
    {
      var left := 2 * root + 1;
      if left >= count {
        break;
      }
      var best := PickChild(scores, heap, virtual, count, root);
      assert heap[best] == virtual[best] && value == virtual[root];
      if !Precedes(scores, heap[best], value) {
        NoBetterChild(scores, virtual, count, root, best);
        break;
      }
      SiftStep(scores, virtual, original, count, start, root, best);
      virtual := virtual[root := virtual[best]][best := virtual[root]];
      heap[root] := heap[best];
      root := best;
    }
    Settled(scores, virtual, count, start, root);
    heap[root] := value;
    assert heap[..] == virtual;
    SameParts(heap, virtual, count);
    assert original[..count] == old(heap[..count]) && original[count..] == old(heap[count..]);
  }

  lemma SameParts(heap: array<nat>, s: seq<nat>, count: nat)
    requires heap[..] == s && count <= |s|
    ensures heap[..count] == s[..count] && heap[count..] == s[count..]
  {
  }

  method PickChild(scores: seq<real>, heap: array<nat>, ghost virtual: seq<nat>, count: nat, root: nat)
    returns (best: nat)
    requires 2 * root + 1 < count <= heap.Length == |virtual| && Indices(scores, virtual)
    requires forall i | 0 <= i < |virtual| && i != root :: virtual[i] == heap[i]
    ensures root < best < count && Parent(best) == root
    ensures forall c | 0 < c < count && Parent(c) == root :: !Precedes(scores, virtual[c], virtual[best])
  {
    var left := 2 * root + 1;
    best := left;
    assert virtual[left] == heap[left];
    assert left + 1 < count ==> virtual[left + 1] == heap[left + 1];
    if left + 1 < count && Precedes(scores, heap[left + 1], heap[left]) {
      best := left + 1;
    }
    BestChild(scores, virtual, count, root, best);
  }

  lemma BestChild(scores: seq<real>, h: seq<nat>, count: nat, root: nat, best: nat)
    requires count <= |h| && Indices(scores, h)
    requires best == 2 * root + 1 || best == 2 * root + 2
    requires best < count
    requires best == 2 * root + 1 && best + 1 < count ==> !Precedes(scores, h[best + 1], h[best])
    requires best == 2 * root + 2 ==> Precedes(scores, h[best], h[best - 1])
    ensures Parent(best) == root
    ensures forall c | 0 < c < count && Parent(c) == root :: !Precedes(scores, h[c], h[best])
  {
    forall c | 0 < c < count && Parent(c) == root ensures !Precedes(scores, h[c], h[best]) {
      assert c == 2 * root + 1 || c == 2 * root + 2;
    }
  }

  lemma NoBetterChild(scores: seq<real>, h: seq<nat>, count: nat, root: nat, best: nat)
    requires count <= |h| && Indices(scores, h) && root < count && best < count
    requires forall c | 0 < c < count && Parent(c) == root :: !Precedes(scores, h[c], h[best])
    requires !Precedes(scores, h[best], h[root])
    ensures forall c | 0 < c < count && Parent(c) == root :: !Precedes(scores, h[c], h[root])
  {
  }

  lemma SwapKeepsFront(h: seq<nat>, count: nat, i: nat, j: nat)
    requires i < count && j < count && count <= |h|
    ensures var g := h[i := h[j]][j := h[i]];
      multiset(g[..count]) == multiset(h[..count]) && g[count..] == h[count..]
  {
    var g := h[i := h[j]][j := h[i]];
    assert g[..count] == h[..count][i := h[j]][j := h[i]];
  }

  /** Nothing in a heap precedes its root. */
  lemma {:induction false} RootIsBest(scores: seq<real>, h: seq<nat>, count: nat, i: nat)
    requires i < count <= |h| && Indices(scores, h) && HeapFrom(scores, h, count, 0, -1)
    ensures !Precedes(scores, h[i], h[0])
  {
    if i > 0 {
      RootIsBest(scores, h, count, Parent(i));
      assert !Precedes(scores, h[i], h[Parent(i)]);
    }
  }
}
