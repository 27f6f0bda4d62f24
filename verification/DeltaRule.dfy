/** The gated delta rule: recur_reference of benchmarks/cases/gdn.cpp, which updates its state rows in place. */
module DeltaRule {
  import opened Arith
  import opened Reals
  import opened Rows
  import opened Recurrence

  // ---------- what one step does to the memory ----------

  /**
   Reading the new state at the key mixes the decayed old reading with the new value:
   S' k = (1 - beta |k|^2) (decay S k) + beta |k|^2 v.
   */
  lemma DeltaIdentity(o: Operands, state: seq<real>)
    requires |o.key| == |o.query| == |state|
    ensures var share := Times(o.beta, Dot(o.key, o.key));
      Dot(DeltaUpdate(o, state).state, o.key)
        == Times(1.0 - share, Times(Dot(state, o.key), o.decay)) + Times(share, o.value)
  {
    hide Times, Dot, Scaled, AddScaled;
    var decayed := Scaled(state, o.decay);
    var memory, norm := Dot(decayed, o.key), Dot(o.key, o.key);
    var correction := Times(o.value - memory, o.beta);
    DotScaled(state, o.key, o.decay);
    DotAddScaled(decayed, o.key, correction, o.key);
    Mix(memory, norm, o.value, o.beta);
  }

  lemma Mix(memory: real, norm: real, value: real, beta: real)
    ensures memory + Times(norm, Times(value - memory, beta))
         == Times(1.0 - Times(beta, norm), memory) + Times(Times(beta, norm), value)
  {
    var share := Times(beta, norm);
    TimesAdd(value, memory, beta);
    TimesComm(norm, Times(value - memory, beta));
    TimesAssoc(value - memory, beta, norm);
    TimesComm(value - memory, share);
    TimesComm(share, value - memory);
    TimesAdd(value, memory, share);
    TimesComm(share, value);
    TimesComm(share, memory);
    TimesAdd(1.0, share, memory);
    TimesZero(memory);
  }

  /** A unit key written with full strength is read back exactly. */
  lemma UnitKeyRecalls(o: Operands, state: seq<real>)
    requires |o.key| == |o.query| == |state| && Dot(o.key, o.key) == 1.0 && o.beta == 1.0
    ensures Dot(DeltaUpdate(o, state).state, o.key) == o.value
  {
    DeltaIdentity(o, state);
    hide Dot, DeltaUpdate;
    TimesZero(Times(Dot(state, o.key), o.decay));
    TimesZero(o.value);
  }

  // ---------- the loops ----------

  /** One token of one lane, in place: decay and read, correct, write and read again. */
  method DeltaToken(o: Operands, state: array<real>, at: nat) returns (output: real)
    requires |o.key| == |o.query| && at + |o.key| <= state.Length
    modifies state
    ensures output == DeltaUpdate(o, old(state[at..at + |o.key|])).output
    ensures state[at..at + |o.key|] == DeltaUpdate(o, old(state[at..at + |o.key|])).state
    ensures Framed(old(state[..]), state[..], at, |o.key|)
  {
    var memory := DecayAndRead(o, state, at);
    hide Times, Dot, Scaled, AddScaled;
    var correction := Times(o.value - memory, o.beta);
    ghost var middle := state[..];
    output := WriteAndRead(o, correction, state, at);
    FramedTwice(old(state[..]), middle, state[..], at, |o.key|);
  }

  method WriteAndRead(o: Operands, correction: real, state: array<real>, at: nat) returns (output: real)
    requires |o.key| == |o.query| && at + |o.key| <= state.Length
    modifies state
    ensures state[at..at + |o.key|] == AddScaled(old(state[at..at + |o.key|]), o.key, correction)
    ensures output == Dot(AddScaled(old(state[at..at + |o.key|]), o.key, correction), o.query)
    ensures Framed(old(state[..]), state[..], at, |o.key|)
  {
    var n := |o.key|;
    ghost var row, before := state[at..at + n], state[..];
    ghost var next := AddScaled(row, o.key, correction);
    output := 0.0;
    assert Rewriting(before, state[..], at, row, next, 0);
    hide Times, Rewriting;
    for dim := 0 to n
      invariant Rewriting(before, state[..], at, row, next, dim)
      invariant output == Dot(next[..dim], o.query[..dim])
    {
      RewrittenAt(before, state[..], at, row, next, dim);
      var x := state[at + dim] + Times(o.key[dim], correction);
      PutNext(before, state, at, row, next, dim, x);
      DotStep(next, o.query, dim);
      output := output + Times(x, o.query[dim]);
    }
    assert next[..n] == next && o.query[..n] == o.query;
    Rewritten(before, state, at, row, next);
  }

  method DecayAndRead(o: Operands, state: array<real>, at: nat) returns (memory: real)
    requires at + |o.key| <= state.Length
    modifies state
    ensures state[at..at + |o.key|] == Scaled(old(state[at..at + |o.key|]), o.decay)
    ensures memory == Dot(Scaled(old(state[at..at + |o.key|]), o.decay), o.key)
    ensures Framed(old(state[..]), state[..], at, |o.key|)
  {
    var n := |o.key|;
    ghost var row, before := state[at..at + n], state[..];
    ghost var decayed := Scaled(row, o.decay);
    memory := 0.0;
    assert Rewriting(before, state[..], at, row, decayed, 0);
    hide Times, Rewriting;
    for dim := 0 to n
      invariant Rewriting(before, state[..], at, row, decayed, dim)
      invariant memory == Dot(decayed[..dim], o.key[..dim])
    {
      RewrittenAt(before, state[..], at, row, decayed, dim);
      var x := Times(state[at + dim], o.decay);
      PutNext(before, state, at, row, decayed, dim, x);
      DotStep(decayed, o.key, dim);
      memory := memory + Times(x, o.key[dim]);
    }
    assert decayed[..n] == decayed && o.key[..n] == o.key;
    Rewritten(before, state, at, row, decayed);
  }

  /** The state row of a value head and value dimension, as the source finds it. */
  function StateIndex(m: Kernel, slot: nat, vh: nat, dv: nat): nat
    requires m.DeltaRule?
  {
    ((slot * m.valueHeads + vh) * m.valueDim + dv) * m.keyDim
  }

  function OutIndex(m: Kernel, token: nat, vh: nat, dv: nat): nat
    requires m.DeltaRule?
  {
    (token * m.valueHeads + vh) * m.valueDim + dv
  }

  lemma IndicesAre(m: Kernel, slot: nat, vh: nat, dv: nat)
    requires m.DeltaRule? && vh < m.valueHeads && dv < m.valueDim
    ensures Flat(vh, m.valueDim, dv) < Lanes(m)
    ensures StateIndex(m, slot, vh, dv) == Flat(Flat(slot, Lanes(m), Flat(vh, m.valueDim, dv)), m.keyDim, 0)
    ensures OutIndex(m, slot, vh, dv) == Flat(slot, Lanes(m), Flat(vh, m.valueDim, dv))
  {
    FlatOrder(vh, m.valueHeads, m.valueDim, dv, 0);
    FlatFlat(slot, m.valueHeads, vh, m.valueDim, dv);
    FlatProduct(slot, m.valueHeads, vh);
    FlatProduct(slot * m.valueHeads + vh, m.valueDim, dv);
    FlatProduct((slot * m.valueHeads + vh) * m.valueDim + dv, m.keyDim, 0);
  }

  /** The token loop of one request and lane. */
  method DeltaLane(m: Kernel, state: array<real>, out: array<real>, slots: nat, slot: nat, vh: nat, dv: nat, from: nat,
                   end: nat)
    requires m.DeltaRule? && Pool(m, state[..], slots) && slot < slots && vh < m.valueHeads && dv < m.valueDim
    requires from <= end <= m.tokens && out.Length == Flat(m.tokens, Lanes(m), 0) && state != out
    requires Flat(vh, m.valueDim, dv) < Lanes(m)
    modifies state, out
    ensures LaneState(m, old(state[..]), state[..], slots, slot, Flat(vh, m.valueDim, dv), from, end)
    ensures LaneOutput(m, old(out[..]), out[..], Flat(vh, m.valueDim, dv), from, end,
                       PoolRow(m, old(state[..]), slots, slot, Flat(vh, m.valueDim, dv)))
  {
    hide Run, Step, LaneOutput, LaneState, Output, PoolRow, Flat;
    ghost var lane := Flat(vh, m.valueDim, dv);
    ghost var state0, out0, row := state[..], out[..], PoolRow(m, state[..], slots, slot, lane);
    RunStart(m, lane, from, row);
    NoOutputYet(m, out0, lane, from, row);
    NoStateYet(m, state0, slots, slot, lane, from);
    hide Pool, Lanes, Width;
    for token := from to end
      invariant Pool(m, state[..], slots)
      invariant LaneState(m, state0, state[..], slots, slot, lane, from, token)
      invariant LaneOutput(m, out0, out[..], lane, from, token, row)
    {
      var output := UpdateRow(m, state0, state, slots, slot, vh, dv, from, token);
      StoreOutput(m, out0, out, vh, dv, from, token, row, output);
    }
  }

  lemma NoStateYet(m: Kernel, state: seq<real>, slots: nat, slot: nat, lane: nat, from: nat)
    requires Pool(m, state, slots) && slot < slots && lane < Lanes(m) && from <= m.tokens
    ensures LaneState(m, state, state, slots, slot, lane, from, from)
  {
  }

  method StoreOutput(m: Kernel, ghost out0: seq<real>, out: array<real>, vh: nat, dv: nat, ghost from: nat, token: nat,
                     ghost row: seq<real>, output: real)
    requires m.DeltaRule? && vh < m.valueHeads && dv < m.valueDim && Flat(vh, m.valueDim, dv) < Lanes(m)
    requires Runs(m, Flat(vh, m.valueDim, dv), from, token, row) && token < m.tokens
    requires out.Length == Flat(m.tokens, Lanes(m), 0)
    requires output == Output(m, Flat(vh, m.valueDim, dv), from, token, row)
    requires LaneOutput(m, out0, out[..], Flat(vh, m.valueDim, dv), from, token, row)
    modifies out
    ensures LaneOutput(m, out0, out[..], Flat(vh, m.valueDim, dv), from, token + 1, row)
  {
    hide Output, LaneOutput, OutIndex, Lanes;
    IndicesAre(m, token, vh, dv);
    FlatOrder(token, m.tokens, Lanes(m), Flat(vh, m.valueDim, dv), 0);
    ghost var middle := out[..];
    out[OutIndex(m, token, vh, dv)] := output;
    OutputWritten(m, out0, middle, out[..], Flat(vh, m.valueDim, dv), from, token, row);
  }

  /** One token of the lane's row in the pool. */
  method UpdateRow(m: Kernel, ghost state0: seq<real>, state: array<real>, slots: nat, slot: nat, vh: nat, dv: nat,
                   ghost from: nat, token: nat)
    returns (output: real)
    requires m.DeltaRule? && vh < m.valueHeads && dv < m.valueDim && Flat(vh, m.valueDim, dv) < Lanes(m)
    requires token < m.tokens && Pool(m, state[..], slots)
    requires LaneState(m, state0, state[..], slots, slot, Flat(vh, m.valueDim, dv), from, token)
    modifies state
    ensures Pool(m, state[..], slots)
    ensures LaneState(m, state0, state[..], slots, slot, Flat(vh, m.valueDim, dv), from, token + 1)
    ensures output == Output(m, Flat(vh, m.valueDim, dv), from, token,
                             PoolRow(m, state0, slots, slot, Flat(vh, m.valueDim, dv)))
  {
    hide Run, Output, DeltaUpdate, StateIndex, Lanes, Flat;
    ghost var lane := Flat(vh, m.valueDim, dv);
    FlatOrder(slot, slots, Lanes(m), lane, 0);
    RowInside(Flat(slot, Lanes(m), lane), Flat(slots, Lanes(m), 0), m.keyDim);
    IndicesAre(m, slot, vh, dv);
    var at := StateIndex(m, slot, vh, dv);
    var o := OperandsOf(m, token, Flat(vh, m.valueDim, dv));
    ghost var before := state[..];
    hide OperandsOf, Valid;
    ValidWidth(m);
    output := DeltaToken(o, state, at);
    assert state[..][at..at + m.keyDim] == state[at..at + m.keyDim];
    RowUpdated(m, state0, before, state[..], slots, slot, lane, from, token);
  }

  lemma ValidWidth(m: Kernel)
    requires m.DeltaRule? && Valid(m)
    ensures Width(m) == m.keyDim
  {
  }

  lemma RowUpdated(m: Kernel, state0: seq<real>, before: seq<real>, after: seq<real>, slots: nat, slot: nat, lane: nat,
                   from: nat, token: nat)
    requires m.DeltaRule? && token < m.tokens && slot < slots && lane < Lanes(m) && |after| == |before|
    requires LaneState(m, state0, before, slots, slot, lane, from, token)
    requires Framed(before, after, Flat(Flat(slot, Lanes(m), lane), Width(m), 0), Width(m))
    requires RowOf(after, Flat(slot, Lanes(m), lane), Width(m))
          == DeltaUpdate(OperandsOf(m, token, lane), RowOf(before, Flat(slot, Lanes(m), lane), Width(m))).state
    ensures LaneState(m, state0, after, slots, slot, lane, from, token + 1)
    ensures Output(m, lane, from, token, PoolRow(m, state0, slots, slot, lane))
         == DeltaUpdate(OperandsOf(m, token, lane), RowOf(before, Flat(slot, Lanes(m), lane), Width(m))).output
  {
    RowReplaced(m, before, after, slots, slot, lane);
    hide OperandsOf, DeltaUpdate, RowOf;
    var row := PoolRow(m, state0, slots, slot, lane);
    assert Run(m, lane, from, token + 1, row) == Step(m, token, lane, Run(m, lane, from, token, row)).state;
  }

  /** One lane of one request. */
  method RecurLane(m: Kernel, ghost start: seq<real>, state: array<real>, out: array<real>, slots: nat,
                   ghost requests: seq<Request>, ghost r: nat, slot: nat, vh: nat, dv: nat, from: nat, end: nat)
    requires m.DeltaRule? && vh < m.valueHeads && dv < m.valueDim && state != out
    requires Requests(m, requests, slots) && Pool(m, start, slots) && r < |requests|
    requires requests[r] == Request(from, end, slot) && from <= end <= m.tokens && slot < slots
    requires Pool(m, state[..], slots) && out.Length == Flat(m.tokens, Lanes(m), 0)
    requires PoolDone(m, start, state[..], slots, requests, r, Flat(vh, m.valueDim, dv))
    requires OutDone(m, start, out[..], slots, requests, r, Flat(vh, m.valueDim, dv))
    modifies state, out
    ensures Pool(m, state[..], slots)
    ensures PoolDone(m, start, state[..], slots, requests, r, Flat(vh, m.valueDim, dv) + 1)
    ensures OutDone(m, start, out[..], slots, requests, r, Flat(vh, m.valueDim, dv) + 1)
  {
    hide PoolDone, OutDone, LaneState, LaneOutput, Requests, Pool, Flat, PoolRow;
    FlatOrder(vh, m.valueHeads, m.valueDim, dv, 0);
    ghost var state0, out0 := state[..], out[..];
    DeltaLane(m, state, out, slots, slot, vh, dv, from, end);
    LaneDone(m, start, state0, state[..], out0, out[..], slots, requests, r, Flat(vh, m.valueDim, dv));
  }

  /** The rows of one value head. */
  method RecurHead(m: Kernel, ghost start: seq<real>, state: array<real>, out: array<real>, slots: nat,
                   ghost requests: seq<Request>, ghost request: nat, slot: nat, vh: nat, from: nat, end: nat)
    requires m.DeltaRule? && Pool(m, start, slots) && Pool(m, state[..], slots) && Requests(m, requests, slots)
    requires request < |requests| && requests[request] == Request(from, end, slot) && vh < m.valueHeads && state != out
    requires from <= end <= m.tokens && slot < slots && out.Length == Flat(m.tokens, Lanes(m), 0)
    requires PoolDone(m, start, state[..], slots, requests, request, Flat(vh, m.valueDim, 0))
    requires OutDone(m, start, out[..], slots, requests, request, Flat(vh, m.valueDim, 0))
    modifies state, out
    ensures Pool(m, state[..], slots)
    ensures PoolDone(m, start, state[..], slots, requests, request, Flat(vh, m.valueDim, m.valueDim))
    ensures OutDone(m, start, out[..], slots, requests, request, Flat(vh, m.valueDim, m.valueDim))
  {
    hide PoolDone, OutDone, Requests, Pool;
    for dv := 0 to m.valueDim
      invariant Pool(m, state[..], slots)
      invariant PoolDone(m, start, state[..], slots, requests, request, Flat(vh, m.valueDim, dv))
      invariant OutDone(m, start, out[..], slots, requests, request, Flat(vh, m.valueDim, dv))
    {
      FlatShift(vh, m.valueDim, dv, 1);
      RecurLane(m, start, state, out, slots, requests, request, slot, vh, dv, from, end);
    }
  }

  /** recur_reference: the pool and the outputs are what the requests leave when they are taken one after the other. */
  method Recur(m: Kernel, initial: array<real>, cumulative: seq<nat>, mapping: seq<nat>, slots: nat)
    returns (state: array<real>, out: array<real>)
    requires m.DeltaRule? && Pool(m, initial[..], slots) && PackedBatch(m, cumulative, mapping, slots)
    ensures Requests(m, Packed(cumulative, mapping), slots)
    ensures PoolDone(m, initial[..], state[..], slots, Packed(cumulative, mapping), |mapping|, 0)
    ensures OutDone(m, initial[..], out[..], slots, Packed(cumulative, mapping), |mapping|, 0)
  {
    hide PoolDone, OutDone, LaneState, LaneOutput, Flat;
    PackedRequests(m, cumulative, mapping, slots);
    state := new real[initial.Length](i requires 0 <= i < initial.Length reads initial => initial[i]);
    out := new real[Flat(m.tokens, Lanes(m), 0)](i => 0.0);
    ghost var start, requests := initial[..], Packed(cumulative, mapping);
    assert state[..] == start;
    NothingDone(m, start, out[..], slots, requests);
    hide Requests, Pool, PackedBatch;
    for request := 0 to |mapping|
      invariant initial[..] == start && Pool(m, state[..], slots) && out.Length == Flat(m.tokens, Lanes(m), 0)
      invariant PoolDone(m, start, state[..], slots, requests, request, 0)
      invariant OutDone(m, start, out[..], slots, requests, request, 0)
    {
      RequestFits(m, cumulative, mapping, slots, request);
      FlatNext(0, m.valueDim);
      for vh := 0 to m.valueHeads
        invariant initial[..] == start && Pool(m, state[..], slots) && out.Length == Flat(m.tokens, Lanes(m), 0)
        invariant PoolDone(m, start, state[..], slots, requests, request, Flat(vh, m.valueDim, 0))
        invariant OutDone(m, start, out[..], slots, requests, request, Flat(vh, m.valueDim, 0))
      {
        RecurHead(m, start, state, out, slots, requests, request, mapping[request], vh, cumulative[request],
                  cumulative[request + 1]);
        FlatNext(vh, m.valueDim);
      }
      RequestFinished(m, start, state[..], out[..], slots, requests, request);
    }
  }
}
