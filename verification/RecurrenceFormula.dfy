/**
 The delta rule and the short convolution written out over their buffers: which elements one token of one request reads,
 what it makes of the state row of a slot, and where rows come from and go to.
 */
module RecurrenceFormula {
  import opened Arith
  import opened Reals
  import opened Rows
  import opened Sums
  import opened Recurrence

  /** The state row of a lane when request r comes to token t. The lemmas below determine it. */
  function RowBefore(m: Kernel, pool: seq<real>, slots: nat, requests: seq<Request>, r: nat, lane: nat, t: nat)
    : (row: seq<real>)
    requires Requests(m, requests, slots) && Pool(m, pool, slots) && r < |requests| && lane < Lanes(m)
    requires requests[r].from <= t <= requests[r].end
    ensures |row| == Width(m)
  {
    Run(m, lane, requests[r].from, t, RowAfter(m, pool, slots, requests, r, requests[r].slot, lane))
  }

  // ---------- where rows come from and go to ----------

  /** The first request of a slot starts with the slot's row of the initial pool. */
  lemma FirstRow(m: Kernel, pool: seq<real>, slots: nat, requests: seq<Request>, r: nat, lane: nat, i: nat)
    requires Requests(m, requests, slots) && Pool(m, pool, slots) && r < |requests| && lane < Lanes(m) && i < Width(m)
    requires forall p | 0 <= p < r :: requests[p].slot != requests[r].slot
    ensures RowBefore(m, pool, slots, requests, r, lane, requests[r].from)[i]
         == At(pool, RowMajor(RowMajor(requests[r].slot, Lanes(m), lane), Width(m), i), 0.0)
  {
    hide Run, RowAfter, At;
    UnmappedSlot(m, pool, slots, requests, r, requests[r].slot, lane);
    RunStart(m, lane, requests[r].from, RowAfter(m, pool, slots, requests, r, requests[r].slot, lane));
    FlatOrder(requests[r].slot, slots, Lanes(m), lane, 0);
    RowInside(Flat(requests[r].slot, Lanes(m), lane), Flat(slots, Lanes(m), 0), Width(m));
    RowElement(pool, Flat(requests[r].slot, Lanes(m), lane), Width(m), i, 0.0);
  }

  /** A later one starts with what the latest request of its slot has left. */
  lemma NextRow(m: Kernel, pool: seq<real>, slots: nat, requests: seq<Request>, p: nat, r: nat, lane: nat)
    requires Requests(m, requests, slots) && Pool(m, pool, slots) && p < r < |requests| && lane < Lanes(m)
    requires requests[p].slot == requests[r].slot && forall n | p < n < r :: requests[n].slot != requests[r].slot
    ensures RowBefore(m, pool, slots, requests, r, lane, requests[r].from)
         == RowBefore(m, pool, slots, requests, p, lane, requests[p].end)
  {
    hide Run, PoolRow;
    Untouched(m, pool, slots, requests, p + 1, r, requests[r].slot, lane);
    hide RowAfter;
    RowAfterNext(m, pool, slots, requests, p, requests[r].slot, lane);
    RunStart(m, lane, requests[r].from, RowAfter(m, pool, slots, requests, r, requests[r].slot, lane));
  }

  lemma {:induction false} Untouched(m: Kernel, pool: seq<real>, slots: nat, requests: seq<Request>, n: nat, r: nat,
                                     slot: nat, lane: nat)
    requires Requests(m, requests, slots) && Pool(m, pool, slots) && n <= r <= |requests| && lane < Lanes(m)
    requires slot < slots && forall k | n <= k < r :: requests[k].slot != slot
    ensures RowAfter(m, pool, slots, requests, r, slot, lane) == RowAfter(m, pool, slots, requests, n, slot, lane)
    decreases r
  {
    hide Run, PoolRow;
    if n < r {
      Untouched(m, pool, slots, requests, n, r - 1, slot, lane);
    }
  }

  /** The final pool holds what the last request of each slot has left, and the initial rows of unnamed slots. */
  lemma LastRow(m: Kernel, initial: seq<real>, pool: seq<real>, slots: nat, requests: seq<Request>, r: nat, lane: nat,
                i: nat)
    requires Requests(m, requests, slots) && Pool(m, initial, slots) && r < |requests| && lane < Lanes(m) && i < Width(m)
    requires PoolDone(m, initial, pool, slots, requests, |requests|, 0)
    requires forall p | r < p < |requests| :: requests[p].slot != requests[r].slot
    ensures At(pool, RowMajor(RowMajor(requests[r].slot, Lanes(m), lane), Width(m), i), 0.0)
         == RowBefore(m, initial, slots, requests, r, lane, requests[r].end)[i]
  {
    hide Run, At;
    var slot := requests[r].slot;
    assert RowDone(m, initial, pool, slots, requests, |requests|, 0, slot, lane);
    hide PoolDone;
    Untouched(m, initial, slots, requests, r + 1, |requests|, slot, lane);
    hide RowAfter;
    RowAfterNext(m, initial, slots, requests, r, slot, lane);
    FlatOrder(slot, slots, Lanes(m), lane, 0);
    RowInside(Flat(slot, Lanes(m), lane), Flat(slots, Lanes(m), 0), Width(m));
    RowElement(pool, Flat(slot, Lanes(m), lane), Width(m), i, 0.0);
  }

  // ---------- packed requests ----------

  /** The same row for the requests of a packed batch: request r has tokens cumulative[r] to cumulative[r + 1]. */
  function PackedRow(m: Kernel, cumulative: seq<nat>, mapping: seq<nat>, slots: nat, initial: seq<real>, r: nat,
                     lane: nat, t: nat): (row: seq<real>)
    requires PackedBatch(m, cumulative, mapping, slots) && Pool(m, initial, slots) && r < |mapping| && lane < Lanes(m)
    requires cumulative[r] <= t <= cumulative[r + 1]
    ensures |row| == Width(m)
  {
    PackedRequests(m, cumulative, mapping, slots);
    RowBefore(m, initial, slots, Packed(cumulative, mapping), r, lane, t)
  }

  lemma PackedNext(m: Kernel, cumulative: seq<nat>, mapping: seq<nat>, slots: nat, initial: seq<real>, p: nat, r: nat,
                   lane: nat)
    requires PackedBatch(m, cumulative, mapping, slots) && Pool(m, initial, slots) && p < r < |mapping| && lane < Lanes(m)
    requires mapping[p] == mapping[r] && forall n | p < n < r :: mapping[n] != mapping[r]
    ensures PackedRow(m, cumulative, mapping, slots, initial, r, lane, cumulative[r])
         == PackedRow(m, cumulative, mapping, slots, initial, p, lane, cumulative[p + 1])
  {
    hide RowBefore;
    PackedRequests(m, cumulative, mapping, slots);
    NextRow(m, initial, slots, Packed(cumulative, mapping), p, r, lane);
  }

  // ---------- the delta rule ----------

  /** The lane of a value head and a value dimension, and its index among the rows of the pool and among the outputs. */
  lemma DeltaLane(m: Kernel, row: nat, vh: nat, dv: nat)
    requires m.DeltaRule? && vh < m.valueHeads && dv < m.valueDim
    ensures Flat(vh, m.valueDim, dv) < Lanes(m)
    ensures RowMajor(row, Lanes(m), Flat(vh, m.valueDim, dv)) == RowMajor(RowMajor(row, m.valueHeads, vh), m.valueDim, dv)
    ensures Quot(Flat(vh, m.valueDim, dv), m.valueDim) == vh && Rem(Flat(vh, m.valueDim, dv), m.valueDim) == dv
  {
    FlatOrder(vh, m.valueHeads, m.valueDim, dv, 0);
    FlatFlat(row, m.valueHeads, vh, m.valueDim, dv);
    FlatQuotRem(vh, m.valueDim, dv);
    hide RowMajor;
  }

  /** The row that request r starts with when it is the first of its slot. */
  lemma DeltaFirst(m: Kernel, cumulative: seq<nat>, mapping: seq<nat>, slots: nat, initial: seq<real>, r: nat, vh: nat,
                   dv: nat, e: nat)
    requires m.DeltaRule? && PackedBatch(m, cumulative, mapping, slots) && Pool(m, initial, slots) && r < |mapping|
    requires vh < m.valueHeads && dv < m.valueDim && e < m.keyDim && Flat(vh, m.valueDim, dv) < Lanes(m)
    requires forall p | 0 <= p < r :: mapping[p] != mapping[r]
    ensures PackedRow(m, cumulative, mapping, slots, initial, r, Flat(vh, m.valueDim, dv), cumulative[r])[e]
         == At(initial, RowMajor(RowMajor(RowMajor(mapping[r], m.valueHeads, vh), m.valueDim, dv), m.keyDim, e), 0.0)
  {
    hide RowBefore, Flat, RowMajor;
    PackedRequests(m, cumulative, mapping, slots);
    DeltaLane(m, mapping[r], vh, dv);
    FirstRow(m, initial, slots, Packed(cumulative, mapping), r, Flat(vh, m.valueDim, dv), e);
  }

  /** One token: decay, correction along the key, in every direction e. `read(i)` are the products of decayed row and key. */
  lemma DeltaToken(m: Kernel, cumulative: seq<nat>, mapping: seq<nat>, slots: nat, initial: seq<real>, r: nat, vh: nat,
                   dv: nat, t: nat, e: nat, kh: nat, read: nat -> real)
    requires m.DeltaRule? && PackedBatch(m, cumulative, mapping, slots) && Pool(m, initial, slots) && r < |mapping|
    requires vh < m.valueHeads && dv < m.valueDim && e < m.keyDim && Flat(vh, m.valueDim, dv) < Lanes(m)
    requires cumulative[r] <= t < cumulative[r + 1] && kh == vh / (m.valueHeads / m.keyHeads)
    requires var row := PackedRow(m, cumulative, mapping, slots, initial, r, Flat(vh, m.valueDim, dv), t);
      forall i: nat | i < m.keyDim ::
        read(i) == Times(Times(row[i], At(m.decay, RowMajor(t, m.valueHeads, vh), 0.0)),
                         At(m.k, RowMajor(RowMajor(t, m.keyHeads, kh), m.keyDim, i), 0.0))
    ensures var row := PackedRow(m, cumulative, mapping, slots, initial, r, Flat(vh, m.valueDim, dv), t);
      var next := PackedRow(m, cumulative, mapping, slots, initial, r, Flat(vh, m.valueDim, dv), t + 1);
      next[e] == Times(row[e], At(m.decay, RowMajor(t, m.valueHeads, vh), 0.0))
               + Times(At(m.k, RowMajor(RowMajor(t, m.keyHeads, kh), m.keyDim, e), 0.0),
                       Times(At(m.v, RowMajor(RowMajor(t, m.valueHeads, vh), m.valueDim, dv), 0.0) - SumTo(read, m.keyDim),
                             At(m.beta, RowMajor(t, m.valueHeads, vh), 0.0)))
  {
    hide *;
    hide Lanes;
    var lane := Flat(vh, m.valueDim, dv);
    DeltaStepped(m, cumulative, mapping, slots, initial, r, lane, t);
    OperandsAre(m, t, vh, dv, kh);
    Updated(OperandsOf(m, t, lane), PackedRow(m, cumulative, mapping, slots, initial, r, lane, t), e, read);
  }

  lemma DeltaStepped(m: Kernel, cumulative: seq<nat>, mapping: seq<nat>, slots: nat, initial: seq<real>, r: nat,
                     lane: nat, t: nat)
    requires m.DeltaRule? && PackedBatch(m, cumulative, mapping, slots) && Pool(m, initial, slots) && r < |mapping|
    requires cumulative[r] <= t < cumulative[r + 1] && lane < Lanes(m)
    ensures t < m.tokens && Valid(m)
    ensures var row := PackedRow(m, cumulative, mapping, slots, initial, r, lane, t);
      |row| == m.keyDim
      && PackedRow(m, cumulative, mapping, slots, initial, r, lane, t + 1) == DeltaUpdate(OperandsOf(m, t, lane), row).state
  {
    hide OperandsOf, DeltaUpdate, Flat, RowAfter, Lanes;
  }

  lemma Updated(o: Operands, row: seq<real>, e: nat, read: nat -> real)
    requires |o.key| == |o.query| == |row| && e < |row|
    requires forall i: nat | i < |row| :: read(i) == Times(Times(row[i], o.decay), o.key[i])
    ensures DeltaUpdate(o, row).state[e]
         == Times(row[e], o.decay) + Times(o.key[e], Times(o.value - SumTo(read, |row|), o.beta))
  {
    hide *;
    ElementUpdated(o, row, e);
    DecayedRead(row, o.decay, o.key, read);
  }

  lemma ElementUpdated(o: Operands, row: seq<real>, e: nat)
    requires |o.key| == |o.query| == |row| && e < |row|
    ensures DeltaUpdate(o, row).state[e]
         == Times(row[e], o.decay) + Times(o.key[e], Times(o.value - Dot(Scaled(row, o.decay), o.key), o.beta))
  {
    hide Times, Dot;
  }

  lemma DecayedRead(row: seq<real>, decay: real, key: seq<real>, read: nat -> real)
    requires |key| == |row| && forall i: nat | i < |row| :: read(i) == Times(Times(row[i], decay), key[i])
    ensures Dot(Scaled(row, decay), key) == SumTo(read, |row|)
  {
    hide Times, Dot, SumTo;
    DotSum(Scaled(row, decay), key, read);
  }

  lemma OperandsAre(m: Kernel, t: nat, vh: nat, dv: nat, kh: nat)
    requires m.DeltaRule? && Valid(m) && t < m.tokens && vh < m.valueHeads && dv < m.valueDim
    requires kh == vh / (m.valueHeads / m.keyHeads) && Flat(vh, m.valueDim, dv) < Lanes(m)
    ensures var o := OperandsOf(m, t, Flat(vh, m.valueDim, dv));
      && (forall e: nat | e < m.keyDim ::
            && o.key[e] == At(m.k, RowMajor(RowMajor(t, m.keyHeads, kh), m.keyDim, e), 0.0)
            && o.query[e] == At(m.q, RowMajor(RowMajor(t, m.keyHeads, kh), m.keyDim, e), 0.0))
      && o.value == At(m.v, RowMajor(RowMajor(t, m.valueHeads, vh), m.valueDim, dv), 0.0)
      && o.decay == At(m.decay, RowMajor(t, m.valueHeads, vh), 0.0)
      && o.beta == At(m.beta, RowMajor(t, m.valueHeads, vh), 0.0)
  {
    var lane := Flat(vh, m.valueDim, dv);
    KeyHeadInRange(m, lane);
    DeltaLane(m, t, vh, dv);
    FlatOrder(t, m.tokens, m.keyHeads, kh, 0);
    RowInside(Flat(t, m.keyHeads, kh), Flat(m.tokens, m.keyHeads, 0), m.keyDim);
    FlatOrder(t, m.tokens, m.valueHeads, vh, 0);
    FlatOrder(Flat(t, m.valueHeads, vh), Flat(m.tokens, m.valueHeads, 0), m.valueDim, dv, 0);
    hide Flat, RowMajor, RowOf, Quot, Rem;
    forall e: nat | e < m.keyDim
      ensures RowOf(m.k, Flat(t, m.keyHeads, kh), m.keyDim)[e] == At(m.k, RowMajor(Flat(t, m.keyHeads, kh), m.keyDim, e), 0.0)
      ensures RowOf(m.q, Flat(t, m.keyHeads, kh), m.keyDim)[e] == At(m.q, RowMajor(Flat(t, m.keyHeads, kh), m.keyDim, e), 0.0)
    {
      RowElement(m.k, Flat(t, m.keyHeads, kh), m.keyDim, e, 0.0);
      RowElement(m.q, Flat(t, m.keyHeads, kh), m.keyDim, e, 0.0);
    }
  }

  /** The output is the new row's product with the query. */
  lemma DeltaOutput(m: Kernel, cumulative: seq<nat>, mapping: seq<nat>, slots: nat, initial: seq<real>, out: seq<real>,
                    r: nat, vh: nat, dv: nat, t: nat, kh: nat, read: nat -> real)
    requires m.DeltaRule? && PackedBatch(m, cumulative, mapping, slots) && Pool(m, initial, slots) && r < |mapping|
    requires Requests(m, Packed(cumulative, mapping), slots)
    requires OutDone(m, initial, out, slots, Packed(cumulative, mapping), |mapping|, 0)
    requires vh < m.valueHeads && dv < m.valueDim && Flat(vh, m.valueDim, dv) < Lanes(m)
    requires cumulative[r] <= t < cumulative[r + 1] && kh == vh / (m.valueHeads / m.keyHeads)
    requires var next := PackedRow(m, cumulative, mapping, slots, initial, r, Flat(vh, m.valueDim, dv), t + 1);
      forall i: nat | i < m.keyDim ::
        read(i) == Times(next[i], At(m.q, RowMajor(RowMajor(t, m.keyHeads, kh), m.keyDim, i), 0.0))
    ensures At(out, RowMajor(RowMajor(t, m.valueHeads, vh), m.valueDim, dv), 0.0) == SumTo(read, m.keyDim)
  {
    var lane, requests := Flat(vh, m.valueDim, dv), Packed(cumulative, mapping);
    var o := OperandsOf(m, t, lane);
    OperandsAre(m, t, vh, dv, kh);
    DeltaLane(m, t, vh, dv);
    hide OperandsOf, Flat, RowMajor, Quot, Rem, Times, Dot, SumTo, RowAfter;
    assert ValueDone(m, initial, out, slots, requests, r, t, lane);
    hide OutDone;
    var row := PackedRow(m, cumulative, mapping, slots, initial, r, lane, t);
    var next := PackedRow(m, cumulative, mapping, slots, initial, r, lane, t + 1);
    assert next == Step(m, t, lane, row).state && out[Flat(t, Lanes(m), lane)] == Step(m, t, lane, row).output;
    hide PackedRow, At;
    assert next == DeltaUpdate(o, row).state;
    DotSum(next, o.query, read);
  }

  /** The row that the last request of a slot leaves in the pool. */
  lemma DeltaLast(m: Kernel, cumulative: seq<nat>, mapping: seq<nat>, slots: nat, initial: seq<real>, pool: seq<real>,
                  r: nat, vh: nat, dv: nat, e: nat)
    requires m.DeltaRule? && PackedBatch(m, cumulative, mapping, slots) && Pool(m, initial, slots) && r < |mapping|
    requires Requests(m, Packed(cumulative, mapping), slots)
    requires PoolDone(m, initial, pool, slots, Packed(cumulative, mapping), |mapping|, 0)
    requires vh < m.valueHeads && dv < m.valueDim && e < m.keyDim && Flat(vh, m.valueDim, dv) < Lanes(m)
    requires forall p | r < p < |mapping| :: mapping[p] != mapping[r]
    ensures At(pool, RowMajor(RowMajor(RowMajor(mapping[r], m.valueHeads, vh), m.valueDim, dv), m.keyDim, e), 0.0)
         == PackedRow(m, cumulative, mapping, slots, initial, r, Flat(vh, m.valueDim, dv), cumulative[r + 1])[e]
  {
    hide RowBefore, Flat, RowMajor, PoolDone;
    DeltaLane(m, mapping[r], vh, dv);
    LastRow(m, initial, pool, slots, Packed(cumulative, mapping), r, Flat(vh, m.valueDim, dv), e);
  }

  // ---------- the short convolution ----------

  lemma ConvFirst(m: Kernel, cumulative: seq<nat>, mapping: seq<nat>, slots: nat, initial: seq<real>, r: nat,
                  channel: nat, i: nat)
    requires m.ShortConv? && PackedBatch(m, cumulative, mapping, slots) && Pool(m, initial, slots) && r < |mapping|
    requires channel < m.channels && i < m.taps - 1 && forall p | 0 <= p < r :: mapping[p] != mapping[r]
    ensures PackedRow(m, cumulative, mapping, slots, initial, r, channel, cumulative[r])[i]
         == At(initial, RowMajor(RowMajor(mapping[r], m.channels, channel), m.taps - 1, i), 0.0)
  {
    hide RowBefore, RowMajor;
    PackedRequests(m, cumulative, mapping, slots);
    FirstRow(m, initial, slots, Packed(cumulative, mapping), r, channel, i);
  }

  /** One token: the history moves up by one and takes the new element. */
  lemma ConvToken(m: Kernel, cumulative: seq<nat>, mapping: seq<nat>, slots: nat, initial: seq<real>, r: nat,
                  channel: nat, t: nat, i: nat)
    requires m.ShortConv? && PackedBatch(m, cumulative, mapping, slots) && Pool(m, initial, slots) && r < |mapping|
    requires channel < m.channels && i < m.taps - 1 && cumulative[r] <= t < cumulative[r + 1]
    ensures var row := PackedRow(m, cumulative, mapping, slots, initial, r, channel, t);
      PackedRow(m, cumulative, mapping, slots, initial, r, channel, t + 1)[i]
        == if i + 1 < m.taps - 1 then row[i + 1] else At(m.x, RowMajor(t, m.channels, channel), 0.0)
  {
    hide ConvValue, RowAfter, RowMajor;
    FlatOrder(t, m.tokens, m.channels, channel, 0);
  }

  /** The output is value * sigmoid(value), where value is the last tap's product and those of the history. */
  lemma ConvOutput(m: Kernel, cumulative: seq<nat>, mapping: seq<nat>, slots: nat, initial: seq<real>, out: seq<real>,
                   r: nat, channel: nat, t: nat, product: nat -> real)
    requires m.ShortConv? && PackedBatch(m, cumulative, mapping, slots) && Pool(m, initial, slots) && r < |mapping|
    requires Requests(m, Packed(cumulative, mapping), slots)
    requires OutDone(m, initial, out, slots, Packed(cumulative, mapping), |mapping|, 0)
    requires channel < m.channels && cumulative[r] <= t < cumulative[r + 1]
    requires var row := PackedRow(m, cumulative, mapping, slots, initial, r, channel, t);
      forall i: nat | i < m.taps - 1 :: product(i) == Times(row[i], At(m.weight, RowMajor(channel, m.taps, i), 0.0))
    ensures var value := SumTo(product, m.taps - 1) + Times(At(m.x, RowMajor(t, m.channels, channel), 0.0),
                                                            At(m.weight, RowMajor(channel, m.taps, m.taps - 1), 0.0));
      At(out, RowMajor(t, m.channels, channel), 0.0) == Times(value, m.sigmoid(value))
  {
    var row := PackedRow(m, cumulative, mapping, slots, initial, r, channel, t);
    assert ValueDone(m, initial, out, slots, Packed(cumulative, mapping), r, t, channel);
    FlatOrder(t, m.tokens, m.channels, channel, 0);
    RowInside(channel, m.channels, m.taps);
    hide OutDone, RowMajor, RowAfter, Flat, Times, Dot, SumTo, RowOf;
    assert out[Flat(t, m.channels, channel)] == ConvStep(m, t, channel, row).output;
    hide PackedRow;
    var weights := RowOf(m.weight, channel, m.taps);
    forall i: nat | i < m.taps ensures weights[i] == At(m.weight, RowMajor(channel, m.taps, i), 0.0) {
      RowElement(m.weight, channel, m.taps, i, 0.0);
    }
    DotSum(row, weights[..m.taps - 1], product);
  }

  lemma ConvLast(m: Kernel, cumulative: seq<nat>, mapping: seq<nat>, slots: nat, initial: seq<real>, pool: seq<real>,
                 r: nat, channel: nat, i: nat)
    requires m.ShortConv? && PackedBatch(m, cumulative, mapping, slots) && Pool(m, initial, slots) && r < |mapping|
    requires Requests(m, Packed(cumulative, mapping), slots)
    requires PoolDone(m, initial, pool, slots, Packed(cumulative, mapping), |mapping|, 0)
    requires channel < m.channels && i < m.taps - 1 && forall p | r < p < |mapping| :: mapping[p] != mapping[r]
    ensures At(pool, RowMajor(RowMajor(mapping[r], m.channels, channel), m.taps - 1, i), 0.0)
         == PackedRow(m, cumulative, mapping, slots, initial, r, channel, cumulative[r + 1])[i]
  {
    hide RowBefore, RowMajor, PoolDone;
    LastRow(m, initial, pool, slots, Packed(cumulative, mapping), r, channel, i);
  }
}
