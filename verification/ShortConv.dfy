/**
 The gated-delta-net short convolution: conv_reference of benchmarks/cases/gdn.cpp, the unrolled four-tap path of
 kernels/linear_attention/gdn_ref.cpp, and the zero-padded causal convolution of benchmarks/cases/basert.cpp.
 */
module ShortConv {
  import opened Arith
  import opened Reals
  import opened Rows
  import opened Sums
  import opened Recurrence

  // ---------- the convolution over whole sequences ----------

  /** A signal and one filter per channel, with any number of taps. */
  predicate Filter(m: Kernel) {
    && m.ShortConv? && |m.x| == Flat(m.tokens, m.channels, 0) && |m.weight| == Flat(m.channels, m.taps, 0)
  }

  /** One product of the zero-padded sum: tap k of the output at token t of a sequence that begins at `from`. */
  function Tap(m: Kernel, from: nat, t: nat, channel: nat, k: nat): real
    requires Filter(m) && t < m.tokens && channel < m.channels && k < m.taps
  {
    RowInside(channel, m.channels, m.taps);
    var source := t + k - (m.taps - 1);
    if source >= from then
      FlatOrder(source, m.tokens, m.channels, channel, 0);
      Times(m.x[Flat(source, m.channels, channel)], RowOf(m.weight, channel, m.taps)[k])
    else 0.0
  }

  function CausalSum(m: Kernel, from: nat, t: nat, channel: nat, n: nat): real
    requires Filter(m) && t < m.tokens && channel < m.channels && n <= m.taps
  {
    if n == 0 then 0.0 else CausalSum(m, from, t, channel, n - 1) + Tap(m, from, t, channel, n - 1)
  }

  /** audio_causal_depthwise_conv1d's reference loops over one sequence. */
  method CausalConv(m: Kernel, bias: seq<real>) returns (out: array<real>)
    requires Filter(m) && |bias| == m.channels
    ensures out.Length == Flat(m.tokens, m.channels, 0)
    ensures forall t: nat, c: nat | t < m.tokens && c < m.channels :: ConvolvedAt(m, bias, out[..], t, c)
  {
    hide Convolved, CausalSum;
    FlatProduct(m.tokens, m.channels, 0);
    out := new real[m.tokens * m.channels](i => 0.0);
    NothingConvolved(m, bias, out[..]);
    for t := 0 to m.tokens
      invariant Convolved(m, bias, out[..], Flat(t, m.channels, 0))
    {
      for c := 0 to m.channels
        invariant Convolved(m, bias, out[..], Flat(t, m.channels, c))
      {
        StoreSum(m, bias, out, t, c);
        FlatShift(t, m.channels, c, 1);
      }
      FlatShift(t, m.channels, 0, m.channels);
    }
    AllConvolved(m, bias, out[..]);
  }

  method StoreSum(m: Kernel, bias: seq<real>, out: array<real>, t: nat, c: nat)
    requires Filter(m) && |bias| == m.channels && t < m.tokens && c < m.channels
    requires out.Length == Flat(m.tokens, m.channels, 0)
    requires Convolved(m, bias, out[..], Flat(t, m.channels, c))
    modifies out
    ensures Convolved(m, bias, out[..], Flat(t, m.channels, c) + 1)
  {
    hide Convolved, CausalSum;
    var sum := CausalSumOf(m, bias[c], t, c);
    FlatProduct(t, m.channels, c);
    FlatOrder(t, m.tokens, m.channels, c, 0);
    ghost var before := out[..];
    out[t * m.channels + c] := sum;
    ConvolvedStep(m, bias, before, out[..], t, c);
  }

  lemma NothingConvolved(m: Kernel, bias: seq<real>, out: seq<real>)
    requires Filter(m) && |bias| == m.channels
    ensures Convolved(m, bias, out, 0)
  {
  }

  lemma AllConvolved(m: Kernel, bias: seq<real>, out: seq<real>)
    requires Filter(m) && |bias| == m.channels
    requires Convolved(m, bias, out, Flat(m.tokens, m.channels, 0))
    ensures forall t: nat, c: nat | t < m.tokens && c < m.channels :: ConvolvedAt(m, bias, out, t, c)
  {
    hide CausalSum;
    forall t: nat, c: nat | t < m.tokens && c < m.channels ensures ConvolvedAt(m, bias, out, t, c) {
      FlatOrder(t, m.tokens, m.channels, c, 0);
    }
  }

  ghost predicate Convolved(m: Kernel, bias: seq<real>, out: seq<real>, done: nat)
    requires Filter(m) && |bias| == m.channels
  {
    forall t: nat, c: nat | t < m.tokens && c < m.channels && Flat(t, m.channels, c) < done ::
      ConvolvedAt(m, bias, out, t, c)
  }

  ghost predicate ConvolvedAt(m: Kernel, bias: seq<real>, out: seq<real>, t: nat, c: nat)
    requires Filter(m) && |bias| == m.channels && t < m.tokens && c < m.channels
  {
    && Flat(t, m.channels, c) < |out|
    && out[Flat(t, m.channels, c)] == bias[c] + CausalSum(m, 0, t, c, m.taps)
  }

  lemma ConvolvedStep(m: Kernel, bias: seq<real>, before: seq<real>, after: seq<real>, t: nat, c: nat)
    requires Filter(m) && |bias| == m.channels && t < m.tokens && c < m.channels
    requires |after| == |before| && ConvolvedAt(m, bias, after, t, c)
    requires forall i | 0 <= i < |after| && i != Flat(t, m.channels, c) :: after[i] == before[i]
    requires Convolved(m, bias, before, Flat(t, m.channels, c))
    ensures Convolved(m, bias, after, Flat(t, m.channels, c) + 1)
  {
    hide CausalSum;
    var done := Flat(t, m.channels, c) + 1;
    forall s: nat, d: nat | s < m.tokens && d < m.channels && Flat(s, m.channels, d) < done
      ensures ConvolvedAt(m, bias, after, s, d)
    {
      if Flat(s, m.channels, d) == Flat(t, m.channels, c) {
        FlatInjective(s, t, m.channels, d, c);
      } else {
        assert ConvolvedAt(m, bias, before, s, d);
      }
    }
  }

  /** The innermost loop: out-of-range sources are skipped. */
  method CausalSumOf(m: Kernel, bias: real, t: nat, c: nat) returns (sum: real)
    requires Filter(m) && t < m.tokens && c < m.channels
    ensures sum == bias + CausalSum(m, 0, t, c, m.taps)
  {
    hide RowMajor, Times, Flat;
    RowInside(c, m.channels, m.taps);
    sum := bias;
    for k := 0 to m.taps
      invariant sum == bias + CausalSum(m, 0, t, c, k)
    {
      var source := t + k - (m.taps - 1);
      if source >= 0 {
        FlatOrder(source, m.tokens, m.channels, c, 0);
        FlatShift(c, m.taps, 0, k);
        sum := sum + Times(m.x[RowMajor(source, m.channels, c)], m.weight[RowMajor(c, m.taps, k)]);
      }
    }
  }

  lemma {:induction false} CausalIsSum(m: Kernel, t: nat, c: nat, n: nat, term: nat -> real)
    requires Filter(m) && t < m.tokens && c < m.channels && n <= m.taps
    requires forall k: nat | k < m.taps ::
      term(k) == if t + k + 1 < m.taps then 0.0
                 else Times(At(m.x, RowMajor(t + k + 1 - m.taps, m.channels, c), 0.0), At(m.weight, RowMajor(c, m.taps, k), 0.0))
    ensures CausalSum(m, 0, t, c, n) == SumTo(term, n)
  {
    hide Times, RowMajor, Flat, RowOf;
    if n > 0 {
      CausalIsSum(m, t, c, n - 1, term);
      RowInside(c, m.channels, m.taps);
      RowElement(m.weight, c, m.taps, n - 1, 0.0);
      if t + n >= m.taps {
        FlatOrder(t + n - m.taps, m.tokens, m.channels, c, 0);
      }
    }
  }

  /** Every output: the bias, and tap k times the sample taps - 1 - k before the token, where there is one. */
  lemma CausalWrittenOut(m: Kernel, bias: seq<real>, out: seq<real>, t: nat, c: nat, term: nat -> real)
    requires Filter(m) && |bias| == m.channels && t < m.tokens && c < m.channels && ConvolvedAt(m, bias, out, t, c)
    requires forall k: nat | k < m.taps ::
      term(k) == if t + k + 1 < m.taps then 0.0
                 else Times(At(m.x, RowMajor(t + k + 1 - m.taps, m.channels, c), 0.0), At(m.weight, RowMajor(c, m.taps, k), 0.0))
    ensures At(out, RowMajor(t, m.channels, c), 0.0) == bias[c] + SumTo(term, m.taps)
  {
    CausalIsSum(m, t, c, m.taps, term);
    hide Times, Flat, CausalSum;
  }

  // ---------- the streaming form ----------

  /** The history a run has after the tokens before t, from a zero row. */
  function HistoryItem(m: Kernel, from: nat, t: nat, channel: nat, i: nat): real
    requires m.ShortConv? && Valid(m) && t <= m.tokens && channel < m.channels && i < m.taps - 1
  {
    var source := t + i - (m.taps - 1);
    if source >= from then
      FlatOrder(source, m.tokens, m.channels, channel, 0);
      m.x[Flat(source, m.channels, channel)]
    else 0.0
  }

  function ZeroRow(m: Kernel): (row: seq<real>)
    requires Valid(m)
    ensures |row| == Width(m)
  {
    seq(Width(m), i => 0.0)
  }

  lemma {:induction false} History(m: Kernel, from: nat, t: nat, channel: nat, i: nat)
    requires m.ShortConv? && Valid(m) && from <= t <= m.tokens && channel < m.channels && i < m.taps - 1
    ensures Run(m, channel, from, t, ZeroRow(m))[i] == HistoryItem(m, from, t, channel, i)
    decreases t
  {
    hide Run, Step, Times;
    if t == from {
      RunStart(m, channel, from, ZeroRow(m));
    } else {
      RunStep(m, channel, from, t - 1);
      if i < m.taps - 2 {
        History(m, from, t - 1, channel, i + 1);
      }
    }
  }

  lemma RunStep(m: Kernel, channel: nat, from: nat, t: nat)
    requires m.ShortConv? && Valid(m) && from <= t < m.tokens && channel < m.channels
    ensures Flat(t, m.channels, channel) < |m.x|
    ensures Run(m, channel, from, t + 1, ZeroRow(m))
         == Run(m, channel, from, t, ZeroRow(m))[1..] + [m.x[Flat(t, m.channels, channel)]]
  {
    hide ConvValue;
    FlatOrder(t, m.tokens, m.channels, channel, 0);
  }

  lemma {:induction false} HistoryDot(m: Kernel, from: nat, t: nat, channel: nat, n: nat)
    requires m.ShortConv? && Valid(m) && from <= t < m.tokens && channel < m.channels && n <= m.taps - 1
    ensures Flat(channel, m.taps, 0) + m.taps <= |m.weight|
    ensures Dot(Run(m, channel, from, t, ZeroRow(m))[..n], RowOf(m.weight, channel, m.taps)[..n])
         == CausalSum(m, from, t, channel, n)
    decreases n
  {
    RowInside(channel, m.channels, m.taps);
    hide Run, RowOf, Flat;
    if n > 0 {
      HistoryDot(m, from, t, channel, n - 1);
      NextTap(m, from, t, channel, n - 1);
    }
  }

  lemma NextTap(m: Kernel, from: nat, t: nat, channel: nat, k: nat)
    requires m.ShortConv? && Valid(m) && from <= t < m.tokens && channel < m.channels && k < m.taps - 1
    requires Flat(channel, m.taps, 0) + m.taps <= |m.weight|
    requires Dot(Run(m, channel, from, t, ZeroRow(m))[..k], RowOf(m.weight, channel, m.taps)[..k])
          == CausalSum(m, from, t, channel, k)
    ensures Dot(Run(m, channel, from, t, ZeroRow(m))[..k + 1], RowOf(m.weight, channel, m.taps)[..k + 1])
         == CausalSum(m, from, t, channel, k + 1)
  {
    hide Run, RowOf, Flat, Times, CausalSum, Dot;
    History(m, from, t, channel, k);
    DotStep(Run(m, channel, from, t, ZeroRow(m)), RowOf(m.weight, channel, m.taps), k);
    TapOfHistory(m, from, t, channel, k);
    CausalStep(m, from, t, channel, k);
  }

  lemma TapOfHistory(m: Kernel, from: nat, t: nat, channel: nat, k: nat)
    requires m.ShortConv? && Valid(m) && t < m.tokens && channel < m.channels && k < m.taps - 1
    ensures Flat(channel, m.taps, 0) + m.taps <= |m.weight|
    ensures Tap(m, from, t, channel, k)
         == Times(HistoryItem(m, from, t, channel, k), RowOf(m.weight, channel, m.taps)[k])
  {
    RowInside(channel, m.channels, m.taps);
    TimesZero(RowOf(m.weight, channel, m.taps)[k]);
  }

  lemma CausalStep(m: Kernel, from: nat, t: nat, channel: nat, n: nat)
    requires m.ShortConv? && Valid(m) && t < m.tokens && channel < m.channels && n < m.taps
    ensures CausalSum(m, from, t, channel, n + 1) == CausalSum(m, from, t, channel, n) + Tap(m, from, t, channel, n)
  {
  }

  /**
   From a zero state, and before the activation, the streaming convolution is the zero-padded causal convolution of
   the request's own tokens.
   */
  lemma StreamingIsCausal(m: Kernel, from: nat, t: nat, channel: nat)
    requires m.ShortConv? && Valid(m) && from <= t < m.tokens && channel < m.channels
    ensures ConvValue(m, t, channel, Run(m, channel, from, t, ZeroRow(m))) == CausalSum(m, from, t, channel, m.taps)
  {
    var history, n := Run(m, channel, from, t, ZeroRow(m)), m.taps - 1;
    HistoryDot(m, from, t, channel, n);
    assert history[..n] == history;
    LastTap(m, from, t, channel);
    CausalStep(m, from, t, channel, n);
  }

  lemma LastTap(m: Kernel, from: nat, t: nat, channel: nat)
    requires m.ShortConv? && Valid(m) && from <= t < m.tokens && channel < m.channels
    ensures Flat(t, m.channels, channel) < |m.x| && Flat(channel, m.taps, 0) + m.taps <= |m.weight|
    ensures Tap(m, from, t, channel, m.taps - 1)
         == Times(m.x[Flat(t, m.channels, channel)], RowOf(m.weight, channel, m.taps)[m.taps - 1])
  {
    FlatOrder(t, m.tokens, m.channels, channel, 0);
    RowInside(channel, m.channels, m.taps);
  }

  // ---------- the reference and the four-tap kernel ----------

  /** The weighted sum of one token, newest sample first. */
  method Weigh(m: Kernel, token: nat, channel: nat, history: array<real>) returns (value: real)
    requires m.ShortConv? && Valid(m) && m.taps <= 8 && token < m.tokens && channel < m.channels && history.Length == 7
    ensures value == ConvValue(m, token, channel, history[..m.taps - 1])
  {
    RowInside(channel, m.channels, m.taps);
    FlatProduct(channel, m.taps, 0);
    FlatOrder(token, m.tokens, m.channels, channel, 0);
    FlatProduct(token, m.channels, channel);
    ghost var weights := RowOf(m.weight, channel, m.taps);
    ghost var newest := Times(m.x[Flat(token, m.channels, channel)], weights[m.taps - 1]);
    value := Times(m.x[token * m.channels + channel], m.weight[channel * m.taps + m.taps - 1]);
    hide Times;
    for item := 0 to m.taps - 1
      invariant value == newest + Dot(history[..item], weights[..item])
    {
      DotStep(history[..], weights, item);
      assert history[..][..item + 1] == history[..item + 1] && history[..][..item] == history[..item];
      value := value + Times(history[item], m.weight[channel * m.taps + item]);
    }
  }

  /** One token: the output, and the history moved up by one. */
  method ConvToken(m: Kernel, token: nat, channel: nat, history: array<real>) returns (output: real)
    requires m.ShortConv? && Valid(m) && m.taps <= 8 && history.Length == 7
    requires Fits(m, token, channel, history[..m.taps - 1])
    modifies history
    ensures output == Step(m, token, channel, old(history[..m.taps - 1])).output
    ensures history[..m.taps - 1] == Step(m, token, channel, old(history[..m.taps - 1])).state
  {
    hide ConvValue, Times;
    var value := Weigh(m, token, channel, history);
    output := Times(value, m.sigmoid(value));
    FlatOrder(token, m.tokens, m.channels, channel, 0);
    FlatProduct(token, m.channels, channel);
    var n := m.taps - 1;
    ghost var before := history[..n];
    forall item | 0 <= item < n - 1 {
      history[item] := history[item + 1];
    }
    history[n - 1] := m.x[token * m.channels + channel];
    assert history[..n] == before[1..] + [m.x[Flat(token, m.channels, channel)]];
  }

  /** The token loop of one request and channel. */
  method ConvTokens(m: Kernel, history: array<real>, out: array<real>, channel: nat, from: nat, end: nat, ghost row: seq<real>)
    requires m.ShortConv? && Valid(m) && m.taps <= 8 && history.Length == 7 && history != out
    requires Runs(m, channel, from, end, row) && history[..m.taps - 1] == row
    requires out.Length == Flat(m.tokens, m.channels, 0)
    modifies history, out
    ensures history[..m.taps - 1] == Run(m, channel, from, end, row)
    ensures LaneOutput(m, old(out[..]), out[..], channel, from, end, row)
  {
    hide Step, Output, LaneOutput;
    RunStart(m, channel, from, row);
    NoOutputYet(m, out[..], channel, from, row);
    ghost var out0 := out[..];
    for token := from to end
      invariant history[..m.taps - 1] == Run(m, channel, from, token, row)
      invariant LaneOutput(m, out0, out[..], channel, from, token, row)
    {
      var output := ConvToken(m, token, channel, history);
      StoreOutput(m, out0, out, channel, from, token, row, output);
    }
  }

  /** Stores the output of one token at its place. */
  method StoreOutput(m: Kernel, ghost out0: seq<real>, out: array<real>, channel: nat, ghost from: nat, token: nat,
                     ghost row: seq<real>, output: real)
    requires m.ShortConv? && Runs(m, channel, from, token, row) && token < m.tokens
    requires out.Length == Flat(m.tokens, m.channels, 0)
    requires output == Step(m, token, channel, Run(m, channel, from, token, row)).output
    requires LaneOutput(m, out0, out[..], channel, from, token, row)
    modifies out
    ensures LaneOutput(m, out0, out[..], channel, from, token + 1, row)
  {
    OutputIs(m, channel, from, token, row);
    hide Step, Output, LaneOutput, Run;
    FlatProduct(token, m.channels, channel);
    FlatOrder(token, m.tokens, m.channels, channel, 0);
    ghost var middle := out[..];
    out[token * m.channels + channel] := output;
    OutputWritten(m, out0, middle, out[..], channel, from, token, row);
  }

  /** One request and channel: the state row is read before the tokens and written after them. */
  method ConvLane(m: Kernel, state: array<real>, out: array<real>, slots: nat, slot: nat, channel: nat, from: nat, end: nat)
    requires m.ShortConv? && m.taps <= 8 && Pool(m, state[..], slots) && slot < slots && channel < m.channels
    requires from <= end <= m.tokens && out.Length == Flat(m.tokens, m.channels, 0) && state != out
    modifies state, out
    ensures LaneState(m, old(state[..]), state[..], slots, slot, channel, from, end)
    ensures LaneOutput(m, old(out[..]), out[..], channel, from, end, PoolRow(m, old(state[..]), slots, slot, channel))
  {
    hide Run, LaneState, LaneOutput;
    var n := m.taps - 1;
    var history := new real[7](i => 0.0);
    ghost var row, state0 := PoolRow(m, state[..], slots, slot, channel), state[..];
    StateIndex(m, slots, slot, channel);
    var at := (slot * m.channels + channel) * n;
    forall i | 0 <= i < n {
      history[i] := state[at + i];
    }
    assert history[..n] == row;
    ghost var out0 := out[..];
    ConvTokens(m, history, out, channel, from, end, row);
    assert LaneOutput(m, out0, out[..], channel, from, end, row);
    assert state[..] == state0;
    WriteBack(m, state, history[..n], slots, slot, channel, from, end);
    assert out0 == old(out[..]);
  }

  method CopyInto(history: seq<real>, state: array<real>, at: nat)
    requires at + |history| <= state.Length
    modifies state
    ensures state[..][at..at + |history|] == history && Framed(old(state[..]), state[..], at, |history|)
  {
    forall i | 0 <= i < |history| {
      state[at + i] := history[i];
    }
  }

  lemma StateIndex(m: Kernel, slots: nat, slot: nat, channel: nat)
    requires m.ShortConv? && Valid(m) && slot < slots && channel < m.channels
    ensures (slot * m.channels + channel) * (m.taps - 1) == Flat(Flat(slot, m.channels, channel), m.taps - 1, 0)
    ensures Flat(Flat(slot, m.channels, channel), m.taps - 1, 0) + (m.taps - 1)
         <= Flat(Flat(slots, m.channels, 0), m.taps - 1, 0)
  {
    FlatProduct(slot, m.channels, channel);
    FlatProduct(Flat(slot, m.channels, channel), m.taps - 1, 0);
    FlatOrder(slot, slots, m.channels, channel, 0);
    RowInside(Flat(slot, m.channels, channel), Flat(slots, m.channels, 0), m.taps - 1);
  }

  /** std::copy_n of the history into the state row. */
  method WriteBack(m: Kernel, state: array<real>, history: seq<real>, slots: nat, slot: nat, channel: nat,
                   ghost from: nat, ghost end: nat)
    requires m.ShortConv? && Pool(m, state[..], slots) && slot < slots && channel < m.channels && from <= end <= m.tokens
    requires history == Run(m, channel, from, end, PoolRow(m, state[..], slots, slot, channel))
    modifies state
    ensures LaneState(m, old(state[..]), state[..], slots, slot, channel, from, end)
  {
    hide Run, Flat;
    StateIndex(m, slots, slot, channel);
    var n := m.taps - 1;
    var at := (slot * m.channels + channel) * n;
    ghost var before := state[..];
    CopyInto(history, state, at);
    RowReplaced(m, before, state[..], slots, slot, channel);
    assert PoolRow(m, state[..], slots, slot, channel) == state[..][at..at + n];
  }

  /** The kernel's path for four taps: the history lives in three variables. */
  method ConvLaneFour(m: Kernel, state: array<real>, out: array<real>, slots: nat, slot: nat, channel: nat, from: nat,
                      end: nat)
    requires m.ShortConv? && m.taps == 4 && Pool(m, state[..], slots) && slot < slots && channel < m.channels
    requires from <= end <= m.tokens && out.Length == Flat(m.tokens, m.channels, 0) && state != out
    modifies state, out
    ensures LaneState(m, old(state[..]), state[..], slots, slot, channel, from, end)
    ensures LaneOutput(m, old(out[..]), out[..], channel, from, end, PoolRow(m, old(state[..]), slots, slot, channel))
  {
    hide Run, LaneState, LaneOutput;
    ghost var row, state0 := PoolRow(m, state[..], slots, slot, channel), state[..];
    StateIndex(m, slots, slot, channel);
    var at := (slot * m.channels + channel) * 3;
    var h0, h1, h2 := state[at], state[at + 1], state[at + 2];
    assert [h0, h1, h2] == row;
    h0, h1, h2 := FourTapTokens(m, out, channel, from, end, h0, h1, h2);
    assert state[..] == state0;
    WriteBack(m, state, [h0, h1, h2], slots, slot, channel, from, end);
  }

  method FourTapTokens(m: Kernel, out: array<real>, channel: nat, from: nat, end: nat, s0: real, s1: real, s2: real)
    returns (h0: real, h1: real, h2: real)
    requires m.ShortConv? && m.taps == 4 && Runs(m, channel, from, end, [s0, s1, s2])
    requires out.Length == Flat(m.tokens, m.channels, 0)
    modifies out
    ensures [h0, h1, h2] == Run(m, channel, from, end, [s0, s1, s2])
    ensures LaneOutput(m, old(out[..]), out[..], channel, from, end, [s0, s1, s2])
  {
    hide Step, Output, LaneOutput;
    h0, h1, h2 := s0, s1, s2;
    ghost var row, out0 := [s0, s1, s2], out[..];
    RunStart(m, channel, from, row);
    NoOutputYet(m, out[..], channel, from, row);
    for token := from to end
      invariant [h0, h1, h2] == Run(m, channel, from, token, row)
      invariant LaneOutput(m, out0, out[..], channel, from, token, row)
    {
      var output, current := FourTaps(m, token, channel, h0, h1, h2);
      StoreOutput(m, out0, out, channel, from, token, row, output);
      h0, h1, h2 := h1, h2, current;
    }
  }

  method FourTaps(m: Kernel, token: nat, channel: nat, h0: real, h1: real, h2: real) returns (output: real, current: real)
    requires m.ShortConv? && m.taps == 4 && Fits(m, token, channel, [h0, h1, h2])
    ensures output == Step(m, token, channel, [h0, h1, h2]).output
    ensures [h1, h2, current] == Step(m, token, channel, [h0, h1, h2]).state
  {
    hide Times, Flat;
    RowInside(channel, m.channels, m.taps);
    FlatProduct(channel, m.taps, 0);
    FlatOrder(token, m.tokens, m.channels, channel, 0);
    FlatProduct(token, m.channels, channel);
    var w := channel * m.taps;
    current := m.x[token * m.channels + channel];
    var value := Times(current, m.weight[w + 3]);
    value := value + Times(h0, m.weight[w]);
    value := value + Times(h1, m.weight[w + 1]);
    value := value + Times(h2, m.weight[w + 2]);
    ghost var weights := RowOf(m.weight, channel, 4);
    ThreeTerms(h0, h1, h2, weights[0], weights[1], weights[2]);
    assert weights[..3] == [weights[0], weights[1], weights[2]];
    output := Times(value, m.sigmoid(value));
    assert [h0, h1, h2][1..] == [h1, h2];
  }

  lemma ThreeTerms(a0: real, a1: real, a2: real, b0: real, b1: real, b2: real)
    ensures Dot([a0, a1, a2], [b0, b1, b2]) == Times(a0, b0) + Times(a1, b1) + Times(a2, b2)
  {
    hide Times;
    var a, b := [a0, a1, a2], [b0, b1, b2];
    DotStep(a, b, 0);
    DotStep(a, b, 1);
    DotStep(a, b, 2);
    assert a[..0] == b[..0] == [] && a[..3] == a && b[..3] == b;
  }

  /**
   conv_reference: after all requests, the pool and the outputs are what the requests leave when they are taken one
   after the other. `fast` selects the kernel's four-tap path, which changes nothing.
   */
  method ShortConvolution(m: Kernel, initial: array<real>, cumulative: seq<nat>, mapping: seq<nat>, slots: nat, fast: bool)
    returns (state: array<real>, out: array<real>)
    requires m.ShortConv? && m.taps <= 8 && Pool(m, initial[..], slots) && PackedBatch(m, cumulative, mapping, slots)
    ensures Requests(m, Packed(cumulative, mapping), slots)
    ensures PoolDone(m, initial[..], state[..], slots, Packed(cumulative, mapping), |mapping|, 0)
    ensures OutDone(m, initial[..], out[..], slots, Packed(cumulative, mapping), |mapping|, 0)
  {
    PackedRequests(m, cumulative, mapping, slots);
    FlatProduct(m.tokens, m.channels, 0);
    state := new real[initial.Length](i requires 0 <= i < initial.Length reads initial => initial[i]);
    out := new real[m.tokens * m.channels](i => 0.0);
    ghost var start, requests := initial[..], Packed(cumulative, mapping);
    assert state[..] == start;
    NothingDone(m, start, out[..], slots, requests);
    hide PoolDone, OutDone, LaneState, LaneOutput, Requests, Pool, PackedBatch;
    for request := 0 to |mapping|
      invariant initial[..] == start && Pool(m, state[..], slots) && out.Length == Flat(m.tokens, m.channels, 0)
      invariant PoolDone(m, start, state[..], slots, requests, request, 0)
      invariant OutDone(m, start, out[..], slots, requests, request, 0)
    {
      RequestFits(m, cumulative, mapping, slots, request);
      for channel := 0 to m.channels
        invariant initial[..] == start && Pool(m, state[..], slots) && out.Length == Flat(m.tokens, m.channels, 0)
        invariant PoolDone(m, start, state[..], slots, requests, request, channel)
        invariant OutDone(m, start, out[..], slots, requests, request, channel)
      {
        ghost var state0, out0 := state[..], out[..];
        if fast && m.taps == 4 {
          ConvLaneFour(m, state, out, slots, mapping[request], channel, cumulative[request], cumulative[request + 1]);
        } else {
          ConvLane(m, state, out, slots, mapping[request], channel, cumulative[request], cumulative[request + 1]);
        }
        LaneDone(m, start, state0, state[..], out0, out[..], slots, requests, request, channel);
      }
      RequestFinished(m, start, state[..], out[..], slots, requests, request);
    }
  }
}
