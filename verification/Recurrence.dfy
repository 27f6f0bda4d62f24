/**
 The streaming recurrences of benchmarks/cases/gdn.cpp: packed requests walk their tokens and carry one state row
 per lane through a slot of a state pool. The two step functions differ; slots, requests and chunks do not.
 */
module Recurrence {
  import opened Arith
  import opened Reals
  import opened Rows

  // ---------- the two step functions ----------

  datatype Kernel =
    | ShortConv(x: seq<real>, weight: seq<real>, tokens: nat, channels: nat, taps: nat, sigmoid: real -> real)
    | DeltaRule(q: seq<real>, k: seq<real>, v: seq<real>, decay: seq<real>, beta: seq<real>, tokens: nat,
                keyHeads: nat, valueHeads: nat, keyDim: nat, valueDim: nat)

  /** The shapes the callers provide. */
  predicate Valid(m: Kernel) {
    match m
    case ShortConv(x, weight, tokens, channels, taps, _) =>
      && taps >= 2
      && |x| == Flat(tokens, channels, 0) && |weight| == Flat(channels, taps, 0)
    case DeltaRule(q, k, v, decay, beta, tokens, keyHeads, valueHeads, keyDim, valueDim) =>
      && keyHeads > 0 && valueHeads % keyHeads == 0
      && |q| == |k| == Flat(Flat(tokens, keyHeads, 0), keyDim, 0)
      && |v| == Flat(Flat(tokens, valueHeads, 0), valueDim, 0)
      && |decay| == |beta| == Flat(tokens, valueHeads, 0)
  }

  /** State rows per slot, and the length of each. */
  function Lanes(m: Kernel): nat {
    if m.ShortConv? then m.channels else Flat(m.valueHeads, m.valueDim, 0)
  }

  function Width(m: Kernel): nat
    requires Valid(m)
  {
    if m.ShortConv? then m.taps - 1 else m.keyDim
  }

  datatype Result = Result(output: real, state: seq<real>)

  predicate Fits(m: Kernel, token: nat, lane: nat, state: seq<real>) {
    Valid(m) && token < m.tokens && lane < Lanes(m) && |state| == Width(m)
  }

  /** One token of one lane. */
  function Step(m: Kernel, token: nat, lane: nat, state: seq<real>): (r: Result)
    requires Fits(m, token, lane, state)
    ensures |r.state| == Width(m)
  {
    if m.ShortConv? then ConvStep(m, token, lane, state) else DeltaStep(m, token, lane, state)
  }

  function ConvValue(m: Kernel, token: nat, channel: nat, history: seq<real>): real
    requires m.ShortConv? && Fits(m, token, channel, history)
  {
    FlatOrder(token, m.tokens, m.channels, channel, 0);
    RowInside(channel, m.channels, m.taps);
    var weights := RowOf(m.weight, channel, m.taps);
    Times(m.x[Flat(token, m.channels, channel)], weights[m.taps - 1]) + Dot(history, weights[..m.taps - 1])
  }

  function ConvStep(m: Kernel, token: nat, channel: nat, history: seq<real>): (r: Result)
    requires m.ShortConv? && Fits(m, token, channel, history)
    ensures |r.state| == |history|
  {
    var value := ConvValue(m, token, channel, history);
    FlatOrder(token, m.tokens, m.channels, channel, 0);
    Result(Times(value, m.sigmoid(value)), history[1..] + [m.x[Flat(token, m.channels, channel)]])
  }

  /** The operands of one delta-rule step. */
  datatype Operands = Operands(key: seq<real>, query: seq<real>, value: real, decay: real, beta: real)

  lemma KeyHeadInRange(m: Kernel, lane: nat)
    requires m.DeltaRule? && Valid(m) && lane < Lanes(m)
    ensures m.valueDim > 0 && Quot(lane, m.valueDim) < m.valueHeads
    ensures m.valueHeads / m.keyHeads > 0 && Quot(lane, m.valueDim) / (m.valueHeads / m.keyHeads) < m.keyHeads
  {
    FlatSplit(lane, m.valueHeads, m.valueDim);
    var heads, group := m.valueHeads, m.valueHeads / m.keyHeads;
    DivMod(heads, m.keyHeads);
    QuotRem(heads, m.keyHeads);
    MulComm(group, m.keyHeads);
    assert group > 0;
    DivMod(Quot(lane, m.valueDim), group);
    FlatProduct(m.keyHeads, group, 0);
    FlatSplit(Quot(lane, m.valueDim), m.keyHeads, group);
  }

  function OperandsOf(m: Kernel, token: nat, lane: nat): (o: Operands)
    requires m.DeltaRule? && Valid(m) && token < m.tokens && lane < Lanes(m)
    ensures |o.key| == |o.query| == m.keyDim
  {
    KeyHeadInRange(m, lane);
    var vh := Quot(lane, m.valueDim);
    var kh := vh / (m.valueHeads / m.keyHeads);
    FlatOrder(token, m.tokens, m.keyHeads, kh, 0);
    FlatOrder(token, m.tokens, m.valueHeads, vh, 0);
    RowInside(Flat(token, m.keyHeads, kh), Flat(m.tokens, m.keyHeads, 0), m.keyDim);
    FlatOrder(Flat(token, m.valueHeads, vh), Flat(m.tokens, m.valueHeads, 0), m.valueDim, Rem(lane, m.valueDim), 0);
    Operands(RowOf(m.k, Flat(token, m.keyHeads, kh), m.keyDim), RowOf(m.q, Flat(token, m.keyHeads, kh), m.keyDim),
             m.v[Flat(Flat(token, m.valueHeads, vh), m.valueDim, Rem(lane, m.valueDim))],
             m.decay[Flat(token, m.valueHeads, vh)], m.beta[Flat(token, m.valueHeads, vh)])
  }

  function DeltaUpdate(o: Operands, state: seq<real>): (r: Result)
    requires |o.key| == |o.query| == |state|
    ensures |r.state| == |state|
  {
    var decayed := Scaled(state, o.decay);
    var correction := Times(o.value - Dot(decayed, o.key), o.beta);
    var next := AddScaled(decayed, o.key, correction);
    Result(Dot(next, o.query), next)
  }

  function DeltaStep(m: Kernel, token: nat, lane: nat, state: seq<real>): (r: Result)
    requires m.DeltaRule? && Fits(m, token, lane, state)
    ensures |r.state| == |state|
  {
    DeltaUpdate(OperandsOf(m, token, lane), state)
  }

  // ---------- runs and chunks ----------

  predicate Runs(m: Kernel, lane: nat, from: nat, end: nat, state: seq<real>) {
    Valid(m) && from <= end <= m.tokens && lane < Lanes(m) && |state| == Width(m)
  }

  /** The state after tokens from, ..., to - 1. */
  function Run(m: Kernel, lane: nat, from: nat, end: nat, state: seq<real>): (r: seq<real>)
    requires Runs(m, lane, from, end, state)
    ensures |r| == Width(m)
    decreases end
  {
    if from == end then state else Step(m, end - 1, lane, Run(m, lane, from, end - 1, state)).state
  }

  /** The output at a token of a run that began at `from`. */
  function Output(m: Kernel, lane: nat, from: nat, token: nat, state: seq<real>): real
    requires Runs(m, lane, from, token, state) && token < m.tokens
  {
    Step(m, token, lane, Run(m, lane, from, token, state)).output
  }

  lemma RunStart(m: Kernel, lane: nat, from: nat, row: seq<real>)
    requires Runs(m, lane, from, from, row)
    ensures Run(m, lane, from, from, row) == row
  {
  }

  lemma OutputIs(m: Kernel, lane: nat, from: nat, token: nat, row: seq<real>)
    requires Runs(m, lane, from, token, row) && token < m.tokens
    ensures Output(m, lane, from, token, row) == Step(m, token, lane, Run(m, lane, from, token, row)).output
  {
  }

  /** Running in two chunks with the state carried over is running once. */
  lemma {:induction false} RunSplit(m: Kernel, lane: nat, from: nat, mid: nat, end: nat, state: seq<real>)
    requires Runs(m, lane, from, end, state) && from <= mid <= end
    ensures Run(m, lane, mid, end, Run(m, lane, from, mid, state)) == Run(m, lane, from, end, state)
    decreases end
  {
    hide Step, Valid, Lanes, Width;
    if end > mid {
      RunSplit(m, lane, from, mid, end - 1, state);
    }
  }

  lemma OutputSplit(m: Kernel, lane: nat, from: nat, mid: nat, token: nat, state: seq<real>)
    requires Runs(m, lane, from, token, state) && token < m.tokens && from <= mid <= token
    ensures Output(m, lane, mid, token, Run(m, lane, from, mid, state)) == Output(m, lane, from, token, state)
  {
    RunSplit(m, lane, from, mid, token, state);
  }

  // ---------- requests and slots ----------

  datatype Request = Request(from: nat, end: nat, slot: nat)

  /** What the reference loops require of the request list. */
  ghost predicate Requests(m: Kernel, requests: seq<Request>, slots: nat) {
    && Valid(m)
    && (forall r | 0 <= r < |requests| ::
          requests[r].from <= requests[r].end <= m.tokens && requests[r].slot < slots)
    && forall r, t | 0 <= r < t < |requests| ::
          requests[r].end <= requests[t].from || requests[t].end <= requests[r].from
  }

  ghost predicate Pool(m: Kernel, pool: seq<real>, slots: nat) {
    Valid(m) && |pool| == Flat(Flat(slots, Lanes(m), 0), Width(m), 0)
  }

  function PoolRow(m: Kernel, pool: seq<real>, slots: nat, slot: nat, lane: nat): (row: seq<real>)
    requires Pool(m, pool, slots) && slot < slots && lane < Lanes(m)
    ensures |row| == Width(m)
  {
    FlatOrder(slot, slots, Lanes(m), lane, 0);
    RowInside(Flat(slot, Lanes(m), lane), Flat(slots, Lanes(m), 0), Width(m));
    RowOf(pool, Flat(slot, Lanes(m), lane), Width(m))
  }

  /** A slot's row after the first n requests, which read and write the pool one after the other. */
  function RowAfter(m: Kernel, pool: seq<real>, slots: nat, requests: seq<Request>, n: nat, slot: nat, lane: nat)
    : (row: seq<real>)
    requires Requests(m, requests, slots) && Pool(m, pool, slots) && n <= |requests| && slot < slots && lane < Lanes(m)
    ensures |row| == Width(m)
  {
    if n == 0 then PoolRow(m, pool, slots, slot, lane)
    else
      var before := RowAfter(m, pool, slots, requests, n - 1, slot, lane);
      if requests[n - 1].slot == slot then Run(m, lane, requests[n - 1].from, requests[n - 1].end, before) else before
  }

  /** The output of request r at one of its tokens. */
  function OutputOf(m: Kernel, pool: seq<real>, slots: nat, requests: seq<Request>, r: nat, token: nat, lane: nat): real
    requires Requests(m, requests, slots) && Pool(m, pool, slots) && r < |requests| && lane < Lanes(m)
    requires requests[r].from <= token < requests[r].end
  {
    Output(m, lane, requests[r].from, token, RowAfter(m, pool, slots, requests, r, requests[r].slot, lane))
  }

  /** A slot no request names keeps its row. */
  lemma {:induction false} UnmappedSlot(m: Kernel, pool: seq<real>, slots: nat, requests: seq<Request>, n: nat,
                                        slot: nat, lane: nat)
    requires Requests(m, requests, slots) && Pool(m, pool, slots) && n <= |requests| && slot < slots && lane < Lanes(m)
    requires forall r | 0 <= r < n :: requests[r].slot != slot
    ensures RowAfter(m, pool, slots, requests, n, slot, lane) == PoolRow(m, pool, slots, slot, lane)
  {
    if n > 0 {
      UnmappedSlot(m, pool, slots, requests, n - 1, slot, lane);
    }
  }

  ghost predicate OneRequestPerSlot(requests: seq<Request>) {
    forall r, t | 0 <= r < t < |requests| :: requests[r].slot != requests[t].slot
  }

  /** With distinct slots a request's result depends on nothing but itself and its slot's initial row. */
  lemma {:induction false} OwnSlot(m: Kernel, pool: seq<real>, slots: nat, requests: seq<Request>, r: nat, n: nat, lane: nat)
    requires Requests(m, requests, slots) && Pool(m, pool, slots) && OneRequestPerSlot(requests)
    requires r < n <= |requests| && lane < Lanes(m)
    ensures var q := requests[r];
      RowAfter(m, pool, slots, requests, n, q.slot, lane)
        == Run(m, lane, q.from, q.end, PoolRow(m, pool, slots, q.slot, lane))
    decreases n
  {
    hide Run, PoolRow;
    if r == n - 1 {
      UnmappedSlot(m, pool, slots, requests, r, requests[r].slot, lane);
    } else {
      OwnSlot(m, pool, slots, requests, r, n - 1, lane);
    }
  }

  ghost predicate SameRequests(a: seq<Request>, b: seq<Request>) {
    (forall q :: q in a <==> q in b)
  }

  /** Hence any other order of the same requests leaves the same rows in the pool ... */
  lemma OrderIndependentState(m: Kernel, pool: seq<real>, slots: nat, a: seq<Request>, b: seq<Request>, slot: nat, lane: nat)
    requires Requests(m, a, slots) && Requests(m, b, slots) && Pool(m, pool, slots)
    requires OneRequestPerSlot(a) && OneRequestPerSlot(b) && SameRequests(a, b) && slot < slots && lane < Lanes(m)
    ensures RowAfter(m, pool, slots, a, |a|, slot, lane) == RowAfter(m, pool, slots, b, |b|, slot, lane)
  {
    hide Run, PoolRow, RowAfter;
    if r :| 0 <= r < |a| && a[r].slot == slot {
      assert a[r] in b;
      var t :| 0 <= t < |b| && b[t] == a[r];
      OwnSlot(m, pool, slots, a, r, |a|, lane);
      OwnSlot(m, pool, slots, b, t, |b|, lane);
    } else {
      forall t | 0 <= t < |b| ensures b[t].slot != slot {
        assert b[t] in a;
      }
      UnmappedSlot(m, pool, slots, a, |a|, slot, lane);
      UnmappedSlot(m, pool, slots, b, |b|, slot, lane);
    }
  }

  /** ... and the same outputs. */
  lemma OrderIndependentOutput(m: Kernel, pool: seq<real>, slots: nat, a: seq<Request>, b: seq<Request>, r: nat, t: nat,
                               token: nat, lane: nat)
    requires Requests(m, a, slots) && Requests(m, b, slots) && Pool(m, pool, slots)
    requires OneRequestPerSlot(a) && OneRequestPerSlot(b) && lane < Lanes(m)
    requires r < |a| && t < |b| && a[r] == b[t] && a[r].from <= token < a[r].end
    ensures OutputOf(m, pool, slots, a, r, token, lane) == OutputOf(m, pool, slots, b, t, token, lane)
  {
    hide Output, PoolRow, RowAfter;
    UnmappedSlot(m, pool, slots, a, r, a[r].slot, lane);
    UnmappedSlot(m, pool, slots, b, t, b[t].slot, lane);
  }

  /** Request r cut in two at token mid, both halves in the same slot. */
  function Cut(requests: seq<Request>, r: nat, mid: nat): seq<Request>
    requires r < |requests|
  {
    var q := requests[r];
    requests[..r] + [q.(end := mid), q.(from := mid)] + requests[r + 1..]
  }

  lemma CutRequests(m: Kernel, slots: nat, requests: seq<Request>, r: nat, mid: nat)
    requires Requests(m, requests, slots) && r < |requests| && requests[r].from <= mid <= requests[r].end
    ensures Requests(m, Cut(requests, r, mid), slots) && |Cut(requests, r, mid)| == |requests| + 1
  {
    var cut, q := Cut(requests, r, mid), requests[r];
    forall i, j | 0 <= i < j < |cut| ensures cut[i].end <= cut[j].from || cut[j].end <= cut[i].from {
      var a, b := if i <= r then i else i - 1, if j <= r then j else j - 1;
      if a == b {
        assert i == r && j == r + 1;
      } else {
        assert requests[a].end <= requests[b].from || requests[b].end <= requests[a].from;
      }
    }
  }

  /** One more request. */
  lemma RowAfterNext(m: Kernel, pool: seq<real>, slots: nat, requests: seq<Request>, n: nat, slot: nat, lane: nat)
    requires Requests(m, requests, slots) && Pool(m, pool, slots) && n < |requests| && slot < slots && lane < Lanes(m)
    ensures var before := RowAfter(m, pool, slots, requests, n, slot, lane);
      RowAfter(m, pool, slots, requests, n + 1, slot, lane)
        == if requests[n].slot == slot then Run(m, lane, requests[n].from, requests[n].end, before) else before
  {
    hide Run, PoolRow;
  }

  /** Every prefix of the cut list leaves the pool as the matching prefix of the original does. */
  lemma {:induction false} CutState(m: Kernel, pool: seq<real>, slots: nat, requests: seq<Request>, r: nat, mid: nat,
                                    n: nat, slot: nat, lane: nat)
    requires r < |requests| && requests[r].from <= mid <= requests[r].end
    requires Requests(m, requests, slots) && Requests(m, Cut(requests, r, mid), slots) && Pool(m, pool, slots)
    requires n <= |requests| && slot < slots && lane < Lanes(m)
    ensures RowAfter(m, pool, slots, Cut(requests, r, mid), if n <= r then n else n + 1, slot, lane)
         == RowAfter(m, pool, slots, requests, n, slot, lane)
    decreases n
  {
    hide Run, Requests, Pool, PoolRow, Lanes;
    if n > 0 {
      hide RowAfter;
      CutState(m, pool, slots, requests, r, mid, n - 1, slot, lane);
      CutStep(m, pool, slots, requests, r, mid, n - 1, slot, lane);
    }
  }

  lemma CutStep(m: Kernel, pool: seq<real>, slots: nat, requests: seq<Request>, r: nat, mid: nat, n: nat, slot: nat,
                lane: nat)
    requires r < |requests| && requests[r].from <= mid <= requests[r].end
    requires Requests(m, requests, slots) && Requests(m, Cut(requests, r, mid), slots) && Pool(m, pool, slots)
    requires n < |requests| && slot < slots && lane < Lanes(m)
    requires RowAfter(m, pool, slots, Cut(requests, r, mid), if n <= r then n else n + 1, slot, lane)
          == RowAfter(m, pool, slots, requests, n, slot, lane)
    ensures RowAfter(m, pool, slots, Cut(requests, r, mid), if n < r then n + 1 else n + 2, slot, lane)
         == RowAfter(m, pool, slots, requests, n + 1, slot, lane)
  {
    hide Run, RowAfter, Requests, Pool;
    var cut, at := Cut(requests, r, mid), if n <= r then n else n + 1;
    RowAfterNext(m, pool, slots, requests, n, slot, lane);
    RowAfterNext(m, pool, slots, cut, at, slot, lane);
    if n == r {
      assert cut[r] == requests[r].(end := mid) && cut[r + 1] == requests[r].(from := mid);
      RowAfterNext(m, pool, slots, cut, r + 1, slot, lane);
      RunFits(m, slots, requests, r, lane, RowAfter(m, pool, slots, requests, r, slot, lane));
      RunSplit(m, lane, requests[r].from, mid, requests[r].end, RowAfter(m, pool, slots, requests, r, slot, lane));
    } else {
      assert cut[at] == requests[n];
    }
  }

  lemma RunFits(m: Kernel, slots: nat, requests: seq<Request>, r: nat, lane: nat, row: seq<real>)
    requires Requests(m, requests, slots) && r < |requests| && lane < Lanes(m) && |row| == Width(m)
    ensures Runs(m, lane, requests[r].from, requests[r].end, row)
  {
  }

  /** Where a token of request t lands in the cut list. */
  function CutIndex(requests: seq<Request>, r: nat, mid: nat, t: nat, token: nat): nat {
    if t < r || (t == r && token < mid) then t else t + 1
  }

  /** Splitting any request of a batch changes neither the final pool nor any output. */
  lemma ChunkInvariant(m: Kernel, pool: seq<real>, slots: nat, requests: seq<Request>, r: nat, mid: nat, t: nat,
                       token: nat, lane: nat)
    requires Requests(m, requests, slots) && Pool(m, pool, slots)
    requires r < |requests| && requests[r].from <= mid <= requests[r].end
    requires t < |requests| && requests[t].from <= token < requests[t].end && lane < Lanes(m)
    ensures var cut, c := Cut(requests, r, mid), CutIndex(requests, r, mid, t, token);
      && Requests(m, cut, slots) && c < |cut| && cut[c].from <= token < cut[c].end
      && OutputOf(m, pool, slots, cut, c, token, lane) == OutputOf(m, pool, slots, requests, t, token, lane)
      && forall slot: nat | slot < slots ::
           RowAfter(m, pool, slots, cut, |cut|, slot, lane) == RowAfter(m, pool, slots, requests, |requests|, slot, lane)
  {
    hide Run, PoolRow, RowAfter, Output;
    CutRequests(m, slots, requests, r, mid);
    forall slot: nat | slot < slots
      ensures RowAfter(m, pool, slots, Cut(requests, r, mid), |Cut(requests, r, mid)|, slot, lane)
           == RowAfter(m, pool, slots, requests, |requests|, slot, lane)
    {
      CutState(m, pool, slots, requests, r, mid, |requests|, slot, lane);
    }
    CutOutput(m, pool, slots, requests, r, mid, t, token, lane);
  }

  lemma CutOutput(m: Kernel, pool: seq<real>, slots: nat, requests: seq<Request>, r: nat, mid: nat, t: nat,
                  token: nat, lane: nat)
    requires r < |requests| && requests[r].from <= mid <= requests[r].end
    requires Requests(m, requests, slots) && Requests(m, Cut(requests, r, mid), slots) && Pool(m, pool, slots)
    requires t < |requests| && requests[t].from <= token < requests[t].end && lane < Lanes(m)
    ensures var cut, c := Cut(requests, r, mid), CutIndex(requests, r, mid, t, token);
      && c < |cut| && cut[c].from <= token < cut[c].end
      && OutputOf(m, pool, slots, cut, c, token, lane) == OutputOf(m, pool, slots, requests, t, token, lane)
  {
    hide Run, PoolRow, Output;
    var cut := Cut(requests, r, mid);
    CutState(m, pool, slots, requests, r, mid, t, requests[t].slot, lane);
    if t == r && token >= mid {
      var before := RowAfter(m, pool, slots, requests, r, requests[r].slot, lane);
      assert cut[r] == requests[r].(end := mid) && cut[r + 1] == requests[r].(from := mid);
      assert RowAfter(m, pool, slots, cut, r + 1, requests[r].slot, lane) == Run(m, lane, requests[r].from, mid, before);
      OutputSplit(m, lane, requests[r].from, mid, token, before);
    }
  }

  // ---------- the loops over requests and lanes ----------

  /** Requests before r are finished, and of request r the lanes before `lane`. */
  ghost predicate PoolDone(m: Kernel, initial: seq<real>, pool: seq<real>, slots: nat, requests: seq<Request>, r: nat,
                           lane: nat)
    requires Requests(m, requests, slots) && Pool(m, initial, slots)
    requires r <= |requests| && (lane > 0 ==> r < |requests|)
  {
    && Pool(m, pool, slots)
    && forall slot: nat, l: nat | slot < slots && l < Lanes(m) ::
         RowDone(m, initial, pool, slots, requests, r, lane, slot, l)
  }

  ghost predicate RowDone(m: Kernel, initial: seq<real>, pool: seq<real>, slots: nat, requests: seq<Request>, r: nat,
                          lane: nat, slot: nat, l: nat)
    requires Requests(m, requests, slots) && Pool(m, initial, slots) && Pool(m, pool, slots)
    requires r <= |requests| && (lane > 0 ==> r < |requests|) && slot < slots && l < Lanes(m)
  {
    PoolRow(m, pool, slots, slot, l) == RowAfter(m, initial, slots, requests, if l < lane then r + 1 else r, slot, l)
  }

  ghost predicate OutDone(m: Kernel, initial: seq<real>, out: seq<real>, slots: nat, requests: seq<Request>, r: nat,
                          lane: nat)
    requires Requests(m, requests, slots) && Pool(m, initial, slots)
  {
    && |out| == Flat(m.tokens, Lanes(m), 0)
    && forall t: nat, token: nat, l: nat | t < |requests| && l < Lanes(m) && (t < r || (t == r && l < lane)) ::
         ValueDone(m, initial, out, slots, requests, t, token, l)
  }

  ghost predicate ValueDone(m: Kernel, initial: seq<real>, out: seq<real>, slots: nat, requests: seq<Request>, t: nat,
                            token: nat, l: nat)
    requires Requests(m, requests, slots) && Pool(m, initial, slots) && t < |requests| && l < Lanes(m)
  {
    requests[t].from <= token < requests[t].end ==>
      && Flat(token, Lanes(m), l) < |out|
      && out[Flat(token, Lanes(m), l)] == OutputOf(m, initial, slots, requests, t, token, l)
  }

  /** What running one lane of a request over its tokens does to the pool. */
  ghost predicate LaneState(m: Kernel, before: seq<real>, after: seq<real>, slots: nat, slot: nat, lane: nat,
                            from: nat, end: nat)
  {
    && Pool(m, before, slots) && Pool(m, after, slots) && slot < slots && lane < Lanes(m) && from <= end <= m.tokens
    && PoolRow(m, after, slots, slot, lane) == Run(m, lane, from, end, PoolRow(m, before, slots, slot, lane))
    && OtherRows(m, before, after, slots, slot, lane)
  }

  ghost predicate OtherRows(m: Kernel, before: seq<real>, after: seq<real>, slots: nat, slot: nat, lane: nat)
    requires Pool(m, before, slots) && Pool(m, after, slots)
  {
    forall s: nat, l: nat | s < slots && l < Lanes(m) && (s != slot || l != lane) ::
      PoolRow(m, after, slots, s, l) == PoolRow(m, before, slots, s, l)
  }

  /** ... and to the output, for the tokens up to `end`. */
  ghost predicate LaneOutput(m: Kernel, before: seq<real>, after: seq<real>, lane: nat, from: nat, end: nat, row: seq<real>) {
    && Runs(m, lane, from, end, row) && |before| == |after| == Flat(m.tokens, Lanes(m), 0)
    && (forall token: nat | from <= token < end ::
          Flat(token, Lanes(m), lane) < |after|
          && after[Flat(token, Lanes(m), lane)] == Output(m, lane, from, token, row))
    && forall token: nat, l: nat | token < m.tokens && l < Lanes(m) && (l != lane || token < from || end <= token) ::
         Flat(token, Lanes(m), l) < |after| && after[Flat(token, Lanes(m), l)] == before[Flat(token, Lanes(m), l)]
  }

  lemma LaneFinished(m: Kernel, initial: seq<real>, before: seq<real>, after: seq<real>, slots: nat,
                     requests: seq<Request>, r: nat, lane: nat)
    requires Requests(m, requests, slots) && Pool(m, initial, slots) && r < |requests| && lane < Lanes(m)
    requires PoolDone(m, initial, before, slots, requests, r, lane)
    requires LaneState(m, before, after, slots, requests[r].slot, lane, requests[r].from, requests[r].end)
    ensures PoolDone(m, initial, after, slots, requests, r, lane + 1)
  {
    hide Run, PoolRow;
    var next := lane + 1;
    forall slot: nat, l: nat | slot < slots && l < Lanes(m)
      ensures RowDone(m, initial, after, slots, requests, r, next, slot, l)
    {
      assert RowDone(m, initial, before, slots, requests, r, lane, slot, l);
    }
  }

  lemma LaneWritten(m: Kernel, initial: seq<real>, before: seq<real>, after: seq<real>, slots: nat,
                    requests: seq<Request>, r: nat, lane: nat)
    requires Requests(m, requests, slots) && Pool(m, initial, slots) && r < |requests| && lane < Lanes(m)
    requires OutDone(m, initial, before, slots, requests, r, lane)
    requires LaneOutput(m, before, after, lane, requests[r].from, requests[r].end,
                        RowAfter(m, initial, slots, requests, r, requests[r].slot, lane))
    ensures OutDone(m, initial, after, slots, requests, r, lane + 1)
  {
    hide Run, Output, RowAfter;
    var next := lane + 1;
    forall t: nat, token: nat, l: nat | t < |requests| && l < Lanes(m) && (t < r || (t == r && l < next))
      ensures ValueDone(m, initial, after, slots, requests, t, token, l)
    {
      if t != r || l != lane {
        assert ValueDone(m, initial, before, slots, requests, t, token, l);
        if t < r {
          assert requests[t].end <= requests[r].from || requests[r].end <= requests[t].from;
        }
      }
    }
  }

  /** One lane of one request, run on the pool as it stands, is one more lane done. */
  lemma LaneDone(m: Kernel, initial: seq<real>, state: seq<real>, state': seq<real>, out: seq<real>, out': seq<real>,
                 slots: nat, requests: seq<Request>, r: nat, lane: nat)
    requires Requests(m, requests, slots) && Pool(m, initial, slots) && r < |requests| && lane < Lanes(m)
    requires PoolDone(m, initial, state, slots, requests, r, lane) && OutDone(m, initial, out, slots, requests, r, lane)
    requires LaneState(m, state, state', slots, requests[r].slot, lane, requests[r].from, requests[r].end)
    requires LaneOutput(m, out, out', lane, requests[r].from, requests[r].end,
                        PoolRow(m, state, slots, requests[r].slot, lane))
    ensures Pool(m, state', slots)
    ensures PoolDone(m, initial, state', slots, requests, r, lane + 1)
    ensures OutDone(m, initial, out', slots, requests, r, lane + 1)
  {
    hide Run, PoolRow, RowAfter, LaneOutput, OutDone;
    assert RowDone(m, initial, state, slots, requests, r, lane, requests[r].slot, lane);
    LaneFinished(m, initial, state, state', slots, requests, r, lane);
    LaneWritten(m, initial, out, out', slots, requests, r, lane);
  }

  lemma NothingDone(m: Kernel, initial: seq<real>, out: seq<real>, slots: nat, requests: seq<Request>)
    requires Requests(m, requests, slots) && Pool(m, initial, slots) && |out| == Flat(m.tokens, Lanes(m), 0)
    ensures PoolDone(m, initial, initial, slots, requests, 0, 0) && OutDone(m, initial, out, slots, requests, 0, 0)
  {
    hide PoolRow;
    forall slot: nat, l: nat | slot < slots && l < Lanes(m)
      ensures RowDone(m, initial, initial, slots, requests, 0, 0, slot, l)
    {
    }
  }

  lemma RequestFits(m: Kernel, cumulative: seq<nat>, mapping: seq<nat>, slots: nat, r: nat)
    requires PackedBatch(m, cumulative, mapping, slots) && r < |mapping|
    ensures cumulative[r] <= cumulative[r + 1] <= m.tokens && mapping[r] < slots
    ensures Packed(cumulative, mapping)[r] == Request(cumulative[r], cumulative[r + 1], mapping[r])
  {
  }

  /** A request whose lanes are all finished is finished. */
  lemma RequestFinished(m: Kernel, initial: seq<real>, pool: seq<real>, out: seq<real>, slots: nat,
                        requests: seq<Request>, r: nat)
    requires Requests(m, requests, slots) && Pool(m, initial, slots) && r < |requests|
    requires PoolDone(m, initial, pool, slots, requests, r, Lanes(m))
    requires OutDone(m, initial, out, slots, requests, r, Lanes(m))
    ensures PoolDone(m, initial, pool, slots, requests, r + 1, 0)
    ensures OutDone(m, initial, out, slots, requests, r + 1, 0)
  {
    hide Run, PoolRow, RowAfter, OutputOf;
    var next := r + 1;
    forall slot: nat, l: nat | slot < slots && l < Lanes(m)
      ensures RowDone(m, initial, pool, slots, requests, next, 0, slot, l)
    {
      assert RowDone(m, initial, pool, slots, requests, r, Lanes(m), slot, l);
    }
    forall t: nat, token: nat, l: nat | t < |requests| && l < Lanes(m) && t < next
      ensures ValueDone(m, initial, out, slots, requests, t, token, l)
    {
    }
  }

  /** The request list of packed offsets and a slot mapping. */
  function Packed(cumulative: seq<nat>, slots: seq<nat>): (requests: seq<Request>)
    requires |cumulative| == |slots| + 1
    ensures |requests| == |slots|
  {
    seq(|slots|, r requires 0 <= r < |slots| => Request(cumulative[r], cumulative[r + 1], slots[r]))
  }

  ghost predicate PackedBatch(m: Kernel, cumulative: seq<nat>, mapping: seq<nat>, slots: nat) {
    && Valid(m) && |cumulative| == |mapping| + 1
    && (forall r, t | 0 <= r <= t < |cumulative| :: cumulative[r] <= cumulative[t] <= m.tokens)
    && forall r | 0 <= r < |mapping| :: mapping[r] < slots
  }

  lemma PackedRequests(m: Kernel, cumulative: seq<nat>, mapping: seq<nat>, slots: nat)
    requires PackedBatch(m, cumulative, mapping, slots)
    ensures Requests(m, Packed(cumulative, mapping), slots)
  {
    var requests := Packed(cumulative, mapping);
    forall r, t | 0 <= r < t < |requests| ensures requests[r].end <= requests[t].from {
      assert cumulative[r + 1] <= cumulative[t];
    }
    forall r | 0 <= r < |requests| ensures requests[r].from <= requests[r].end <= m.tokens {
      assert cumulative[r] <= cumulative[r + 1] <= m.tokens;
    }
  }

  // ---------- writing one row, one output ----------

  lemma RowReplaced(m: Kernel, before: seq<real>, after: seq<real>, slots: nat, slot: nat, lane: nat)
    requires Pool(m, before, slots) && slot < slots && lane < Lanes(m) && |after| == |before|
    requires Framed(before, after, Flat(Flat(slot, Lanes(m), lane), Width(m), 0), Width(m))
    ensures OtherRows(m, before, after, slots, slot, lane)
  {
    var w, row := Width(m), Flat(slot, Lanes(m), lane);
    hide RowOf;
    forall s: nat, l: nat | s < slots && l < Lanes(m) && (s != slot || l != lane)
      ensures PoolRow(m, after, slots, s, l) == PoolRow(m, before, slots, s, l)
    {
      var other := Flat(s, Lanes(m), l);
      if other == row {
        FlatInjective(s, slot, Lanes(m), l, lane);
      }
      FlatOrder(s, slots, Lanes(m), l, 0);
      RowInside(other, Flat(slots, Lanes(m), 0), w);
      OtherRowKept(before, after, row, w, other);
    }
  }

  lemma NoOutputYet(m: Kernel, out: seq<real>, lane: nat, from: nat, row: seq<real>)
    requires Runs(m, lane, from, from, row) && |out| == Flat(m.tokens, Lanes(m), 0)
    ensures LaneOutput(m, out, out, lane, from, from, row)
  {
    forall token: nat, l: nat | token < m.tokens && l < Lanes(m) ensures Flat(token, Lanes(m), l) < |out| {
      FlatOrder(token, m.tokens, Lanes(m), l, 0);
    }
  }

  /** One token and lane is one place of the output. */
  lemma SamePlace(m: Kernel, end: nat, lane: nat, token: nat, l: nat)
    requires Flat(token, Lanes(m), l) == Flat(end, Lanes(m), lane) && l < Lanes(m) && lane < Lanes(m)
    ensures token == end && l == lane
  {
    FlatInjective(token, end, Lanes(m), l, lane);
  }

  /** Writing the output of token `end` extends the run by one. */
  lemma OutputWritten(m: Kernel, before: seq<real>, middle: seq<real>, after: seq<real>, lane: nat, from: nat, end: nat,
                      row: seq<real>)
    requires LaneOutput(m, before, middle, lane, from, end, row) && end < m.tokens
    requires Flat(end, Lanes(m), lane) < |middle|
    requires after == middle[Flat(end, Lanes(m), lane) := Output(m, lane, from, end, row)]
    ensures LaneOutput(m, before, after, lane, from, end + 1, row)
  {
    hide Output, Run, Width, Lanes, Flat;
    forall token: nat | from <= token < end + 1
      ensures Flat(token, Lanes(m), lane) < |after|
      ensures after[Flat(token, Lanes(m), lane)] == Output(m, lane, from, token, row)
    {
      if Flat(token, Lanes(m), lane) == Flat(end, Lanes(m), lane) {
        SamePlace(m, end, lane, token, lane);
      }
    }
    forall token: nat, l: nat | token < m.tokens && l < Lanes(m) && (l != lane || token < from || end + 1 <= token)
      ensures Flat(token, Lanes(m), l) < |after|
      ensures after[Flat(token, Lanes(m), l)] == before[Flat(token, Lanes(m), l)]
    {
      if Flat(token, Lanes(m), l) == Flat(end, Lanes(m), lane) {
        SamePlace(m, end, lane, token, l);
      }
    }
  }
}
