/**
 The selective scan of benchmarks/cases/contract_ops.cpp: a diagonal recurrence per channel and state, and its
 unrolled form, a sum over sources of products of decays.
 */
module SelectiveScan {
  import opened Arith
  import opened Reals
  import opened Rows
  import opened Sums

  datatype Scan = Scan(u: seq<real>, delta: seq<real>, a: seq<real>, b: seq<real>, c: seq<real>, d: seq<real>,
                       channels: nat, sequence: nat, states: nat)

  predicate Valid(p: Scan) {
    && |p.u| == |p.delta| == Flat(p.channels, p.sequence, 0) && |p.a| == Flat(p.channels, p.states, 0)
    && |p.b| == |p.c| == Flat(p.sequence, p.states, 0) && |p.d| == p.channels
  }

  /** The four operands of one step, read at the source's indices. */
  datatype Operands = Operands(input: real, step: real, a: real, b: real)

  function OperandsAt(p: Scan, channel: nat, token: nat, state: nat): Operands
    requires Valid(p) && channel < p.channels && token < p.sequence && state < p.states
  {
    FlatOrder(channel, p.channels, p.sequence, token, 0);
    FlatOrder(channel, p.channels, p.states, state, 0);
    FlatOrder(token, p.sequence, p.states, state, 0);
    Operands(p.u[Flat(channel, p.sequence, token)], p.delta[Flat(channel, p.sequence, token)],
             p.a[Flat(channel, p.states, state)], p.b[Flat(token, p.states, state)])
  }

  function DecayOf(exp: real -> real, o: Operands): real {
    exp(Times(o.step, o.a))
  }

  function InputOf(o: Operands): real {
    Times(Times(o.step, o.b), o.input)
  }

  /** hidden[state] after the tokens before n. */
  function Hidden(exp: real -> real, p: Scan, channel: nat, n: nat, state: nat): real
    requires Valid(p) && channel < p.channels && n <= p.sequence && state < p.states
  {
    if n == 0 then 0.0
    else
      var o := OperandsAt(p, channel, n - 1, state);
      Times(DecayOf(exp, o), Hidden(exp, p, channel, n - 1, state)) + InputOf(o)
  }

  // ---------- the unrolled form ----------

  /** The product of the decays of tokens s, ..., n - 1. */
  function Decays(exp: real -> real, p: Scan, channel: nat, s: nat, n: nat, state: nat): real
    requires Valid(p) && channel < p.channels && s <= n <= p.sequence && state < p.states
    decreases n
  {
    if s == n then 1.0
    else Times(DecayOf(exp, OperandsAt(p, channel, n - 1, state)), Decays(exp, p, channel, s, n - 1, state))
  }

  /** The first m sources, each decayed by every later token. */
  function Unrolled(exp: real -> real, p: Scan, channel: nat, m: nat, n: nat, state: nat): real
    requires Valid(p) && channel < p.channels && m <= n <= p.sequence && state < p.states
    decreases m
  {
    if m == 0 then 0.0
    else
      Unrolled(exp, p, channel, m - 1, n, state)
        + Times(Decays(exp, p, channel, m, n, state), InputOf(OperandsAt(p, channel, m - 1, state)))
  }

  lemma {:induction false} UnrolledDecays(exp: real -> real, p: Scan, channel: nat, m: nat, n: nat, state: nat)
    requires Valid(p) && channel < p.channels && m < n <= p.sequence && state < p.states
    ensures Unrolled(exp, p, channel, m, n, state)
         == Times(DecayOf(exp, OperandsAt(p, channel, n - 1, state)), Unrolled(exp, p, channel, m, n - 1, state))
    decreases m
  {
    hide Times, OperandsAt, DecayOf, InputOf;
    var decay := DecayOf(exp, OperandsAt(p, channel, n - 1, state));
    if m == 0 {
      TimesZero(decay);
    } else {
      UnrolledDecays(exp, p, channel, m - 1, n, state);
      var input := InputOf(OperandsAt(p, channel, m - 1, state));
      var rest, head := Decays(exp, p, channel, m, n - 1, state), Unrolled(exp, p, channel, m - 1, n - 1, state);
      TimesAssoc(decay, rest, input);
      TimesComm(decay, head + Times(rest, input));
      TimesAdd(head, Times(rest, input), decay);
      TimesComm(head, decay);
      TimesComm(Times(rest, input), decay);
    }
  }

  /** The recurrence is its unrolled sum. */
  lemma {:induction false} HiddenIsUnrolled(exp: real -> real, p: Scan, channel: nat, n: nat, state: nat)
    requires Valid(p) && channel < p.channels && n <= p.sequence && state < p.states
    ensures Hidden(exp, p, channel, n, state) == Unrolled(exp, p, channel, n, n, state)
    decreases n
  {
    hide Times, OperandsAt, DecayOf, InputOf;
    if n > 0 {
      HiddenIsUnrolled(exp, p, channel, n - 1, state);
      UnrolledDecays(exp, p, channel, n - 1, n, state);
      TimesZero(InputOf(OperandsAt(p, channel, n - 1, state)));
    }
  }

  // ---------- the scan ----------

  /** The first n states' share of an output. */
  function Readout(exp: real -> real, p: Scan, channel: nat, token: nat, n: nat): real
    requires Valid(p) && channel < p.channels && token < p.sequence && n <= p.states
  {
    if n == 0 then
      FlatOrder(channel, p.channels, p.sequence, token, 0);
      Times(p.d[channel], p.u[Flat(channel, p.sequence, token)])
    else
      FlatOrder(token, p.sequence, p.states, n - 1, 0);
      Readout(exp, p, channel, token, n - 1)
        + Times(p.c[Flat(token, p.states, n - 1)], Hidden(exp, p, channel, token + 1, n - 1))
  }

  ghost predicate Written(exp: real -> real, p: Scan, out: seq<real>, done: nat)
    requires Valid(p)
  {
    && |out| == Flat(p.channels, p.sequence, 0)
    && forall channel: nat, token: nat |
         channel < p.channels && token < p.sequence && Flat(channel, p.sequence, token) < done ::
         WrittenAt(exp, p, out, channel, token)
  }

  ghost predicate WrittenAt(exp: real -> real, p: Scan, out: seq<real>, channel: nat, token: nat)
    requires Valid(p) && channel < p.channels && token < p.sequence
  {
    && Flat(channel, p.sequence, token) < |out|
    && out[Flat(channel, p.sequence, token)] == Readout(exp, p, channel, token, p.states)
  }

  lemma WriteStep(exp: real -> real, p: Scan, before: seq<real>, channel: nat, token: nat)
    requires Valid(p) && channel < p.channels && token < p.sequence
    requires Written(exp, p, before, Flat(channel, p.sequence, token)) && Flat(channel, p.sequence, token) < |before|
    ensures Written(exp, p, before[Flat(channel, p.sequence, token) := Readout(exp, p, channel, token, p.states)],
                    Flat(channel, p.sequence, token) + 1)
  {
    hide Readout, Valid;
    var at, next := Flat(channel, p.sequence, token), Flat(channel, p.sequence, token) + 1;
    var after := before[at := Readout(exp, p, channel, token, p.states)];
    forall e: nat, t: nat | e < p.channels && t < p.sequence && Flat(e, p.sequence, t) < next
      ensures WrittenAt(exp, p, after, e, t)
    {
      if Flat(e, p.sequence, t) == at {
        FlatInjective(e, channel, p.sequence, t, token);
      } else {
        assert WrittenAt(exp, p, before, e, t);
      }
    }
  }

  /** The cursor after one output, and after the last output of a channel. */
  lemma NextCursor(exp: real -> real, p: Scan, out: seq<real>, channel: nat, token: nat)
    requires Valid(p)
    ensures Written(exp, p, out, Flat(channel, p.sequence, token) + 1)
        ==> Written(exp, p, out, Flat(channel, p.sequence, token + 1))
    ensures Written(exp, p, out, Flat(channel, p.sequence, p.sequence))
        ==> Written(exp, p, out, Flat(channel + 1, p.sequence, 0))
  {
    hide Written, Flat;
    FlatShift(channel, p.sequence, token, 1);
    FlatNext(channel, p.sequence);
  }

  lemma NothingWritten(exp: real -> real, p: Scan, out: seq<real>)
    requires Valid(p) && |out| == Flat(p.channels, p.sequence, 0)
    ensures Written(exp, p, out, 0)
  {
  }

  /** The hidden vector: states before `done` have taken the token. */
  ghost predicate HiddenIs(exp: real -> real, p: Scan, channel: nat, hidden: seq<real>, token: nat, done: nat)
    requires Valid(p) && channel < p.channels && token <= p.sequence && (done > 0 ==> token < p.sequence)
  {
    && |hidden| == p.states
    && forall s: nat | s < p.states :: HiddenAt(exp, p, channel, hidden, token, done, s)
  }

  ghost predicate HiddenAt(exp: real -> real, p: Scan, channel: nat, hidden: seq<real>, token: nat, done: nat, s: nat)
    requires Valid(p) && channel < p.channels && token <= p.sequence && (done > 0 ==> token < p.sequence)
    requires s < p.states == |hidden|
  {
    hidden[s] == Hidden(exp, p, channel, if done > 0 && s < done then token + 1 else token, s)
  }

  lemma HiddenStep(exp: real -> real, p: Scan, channel: nat, hidden: seq<real>, token: nat, state: nat)
    requires Valid(p) && channel < p.channels && token < p.sequence && state < p.states
    requires HiddenIs(exp, p, channel, hidden, token, state)
    ensures hidden[state] == Hidden(exp, p, channel, token, state)
    ensures HiddenIs(exp, p, channel, hidden[state := Hidden(exp, p, channel, token + 1, state)], token, state + 1)
  {
    hide Hidden;
    assert HiddenAt(exp, p, channel, hidden, token, state, state);
    var after, next := hidden[state := Hidden(exp, p, channel, token + 1, state)], state + 1;
    forall s: nat | s < p.states ensures HiddenAt(exp, p, channel, after, token, next, s) {
      assert HiddenAt(exp, p, channel, hidden, token, state, s);
    }
  }

  lemma HiddenDone(exp: real -> real, p: Scan, channel: nat, hidden: seq<real>, token: nat)
    requires Valid(p) && channel < p.channels && token < p.sequence
    requires HiddenIs(exp, p, channel, hidden, token, p.states)
    ensures HiddenIs(exp, p, channel, hidden, token + 1, 0)
  {
    hide Hidden;
    var next := token + 1;
    forall s: nat | s < p.states ensures HiddenAt(exp, p, channel, hidden, next, 0, s) {
      assert HiddenAt(exp, p, channel, hidden, token, p.states, s);
    }
  }

  /** The state loop of one token. */
  method ScanToken(exp: real -> real, p: Scan, channel: nat, token: nat, hidden: array<real>) returns (output: real)
    requires Valid(p) && channel < p.channels && token < p.sequence && hidden.Length == p.states
    requires HiddenIs(exp, p, channel, hidden[..], token, 0)
    modifies hidden
    ensures output == Readout(exp, p, channel, token, p.states)
    ensures HiddenIs(exp, p, channel, hidden[..], token + 1, 0)
  {
    FlatOrder(channel, p.channels, p.sequence, token, 0);
    hide RowMajor, Times, DecayOf, InputOf, OperandsAt, HiddenIs, Readout, Flat;
    output := Times(p.d[channel], p.u[RowMajor(channel, p.sequence, token)]);
    ReadoutStart(exp, p, channel, token);
    for state := 0 to p.states
      invariant output == Readout(exp, p, channel, token, state)
      invariant HiddenIs(exp, p, channel, hidden[..], token, state)
    {
      output := ScanState(exp, p, channel, token, state, hidden, output);
    }
    HiddenDone(exp, p, channel, hidden[..], token);
  }

  method ScanState(exp: real -> real, p: Scan, channel: nat, token: nat, state: nat, hidden: array<real>, start: real)
    returns (output: real)
    requires Valid(p) && channel < p.channels && token < p.sequence && state < p.states == hidden.Length
    requires start == Readout(exp, p, channel, token, state) && HiddenIs(exp, p, channel, hidden[..], token, state)
    modifies hidden
    ensures output == Readout(exp, p, channel, token, state + 1)
    ensures HiddenIs(exp, p, channel, hidden[..], token, state + 1)
  {
    HiddenStep(exp, p, channel, hidden[..], token, state);
    hide *;
    var next;
    next, output := NextState(exp, p, channel, token, state, hidden[state], start);
    SetItem(hidden, state, next);
  }

  method NextState(exp: real -> real, p: Scan, channel: nat, token: nat, state: nat, before: real, start: real)
    returns (next: real, output: real)
    requires Valid(p) && channel < p.channels && token < p.sequence && state < p.states
    requires start == Readout(exp, p, channel, token, state) && before == Hidden(exp, p, channel, token, state)
    ensures next == Hidden(exp, p, channel, token + 1, state)
    ensures output == Readout(exp, p, channel, token, state + 1)
  {
    ReadoutStep(exp, p, channel, token, state);
    HiddenNext(exp, p, channel, token, state);
    hide *;
    var o := OperandsAt(p, channel, token, state);
    next := Times(DecayOf(exp, o), before) + InputOf(o);
    output := start + Times(p.c[RowMajor(token, p.states, state)], next);
  }

  method SetItem(a: array<real>, i: nat, x: real)
    requires i < a.Length
    modifies a
    ensures a[..] == old(a[..])[i := x]
  {
    a[i] := x;
  }

  lemma HiddenNext(exp: real -> real, p: Scan, channel: nat, token: nat, state: nat)
    requires Valid(p) && channel < p.channels && token < p.sequence && state < p.states
    ensures var o := OperandsAt(p, channel, token, state);
      Hidden(exp, p, channel, token + 1, state)
        == Times(DecayOf(exp, o), Hidden(exp, p, channel, token, state)) + InputOf(o)
  {
  }

  lemma ReadoutStart(exp: real -> real, p: Scan, channel: nat, token: nat)
    requires Valid(p) && channel < p.channels && token < p.sequence
    ensures Flat(channel, p.sequence, token) < |p.u|
    ensures Readout(exp, p, channel, token, 0) == Times(p.d[channel], p.u[Flat(channel, p.sequence, token)])
  {
    FlatOrder(channel, p.channels, p.sequence, token, 0);
    hide Times;
  }

  lemma ReadoutStep(exp: real -> real, p: Scan, channel: nat, token: nat, n: nat)
    requires Valid(p) && channel < p.channels && token < p.sequence && n < p.states
    ensures Flat(token, p.states, n) < |p.c|
    ensures Readout(exp, p, channel, token, n + 1)
         == Readout(exp, p, channel, token, n)
            + Times(p.c[Flat(token, p.states, n)], Hidden(exp, p, channel, token + 1, n))
  {
    FlatOrder(token, p.sequence, p.states, n, 0);
    hide Times, Hidden;
  }

  lemma HiddenStart(exp: real -> real, p: Scan, channel: nat, hidden: seq<real>)
    requires Valid(p) && channel < p.channels && |hidden| == p.states
    requires forall s | 0 <= s < |hidden| :: hidden[s] == 0.0
    ensures HiddenIs(exp, p, channel, hidden, 0, 0)
  {
  }

  method ScanChannel(exp: real -> real, p: Scan, channel: nat, out: array<real>)
    requires Valid(p) && channel < p.channels
    requires Written(exp, p, out[..], Flat(channel, p.sequence, 0))
    modifies out
    ensures Written(exp, p, out[..], Flat(channel + 1, p.sequence, 0))
  {
    var hidden := new real[p.states](i => 0.0);
    HiddenStart(exp, p, channel, hidden[..]);
    hide *;
    assert out[..] == old(out[..]);
    ScanTokens(exp, p, channel, hidden, out);
    NextCursor(exp, p, out[..], channel, 0);
  }

  /** The token loop of one channel. */
  method ScanTokens(exp: real -> real, p: Scan, channel: nat, hidden: array<real>, out: array<real>)
    requires Valid(p) && channel < p.channels && hidden.Length == p.states && hidden != out
    requires Written(exp, p, out[..], Flat(channel, p.sequence, 0)) && HiddenIs(exp, p, channel, hidden[..], 0, 0)
    modifies hidden, out
    ensures Written(exp, p, out[..], Flat(channel, p.sequence, p.sequence))
  {
    hide *;
    for token := 0 to p.sequence
      invariant Written(exp, p, out[..], Flat(channel, p.sequence, token))
      invariant HiddenIs(exp, p, channel, hidden[..], token, 0)
    {
      ScanAndStore(exp, p, channel, token, hidden, out);
    }
  }

  method ScanAndStore(exp: real -> real, p: Scan, channel: nat, token: nat, hidden: array<real>, out: array<real>)
    requires Valid(p) && channel < p.channels && token < p.sequence && hidden.Length == p.states && hidden != out
    requires Written(exp, p, out[..], Flat(channel, p.sequence, token))
    requires HiddenIs(exp, p, channel, hidden[..], token, 0)
    modifies hidden, out
    ensures Written(exp, p, out[..], Flat(channel, p.sequence, token + 1))
    ensures HiddenIs(exp, p, channel, hidden[..], token + 1, 0)
  {
    hide *;
    ghost var before := out[..];
    var output := ScanToken(exp, p, channel, token, hidden);
    assert out[..] == before;
    ghost var after := hidden[..];
    StoreOutput(exp, p, out, channel, token, output);
    assert hidden[..] == after;
    NextCursor(exp, p, out[..], channel, token);
  }

  method StoreOutput(exp: real -> real, p: Scan, out: array<real>, channel: nat, token: nat, value: real)
    requires Valid(p) && channel < p.channels && token < p.sequence
    requires value == Readout(exp, p, channel, token, p.states)
    requires Written(exp, p, out[..], Flat(channel, p.sequence, token))
    modifies out
    ensures Written(exp, p, out[..], Flat(channel, p.sequence, token) + 1)
  {
    FlatOrder(channel, p.channels, p.sequence, token, 0);
    assert out.Length == Flat(p.channels, p.sequence, 0);
    hide Written, Readout, RowMajor, Valid, Flat;
    WriteStep(exp, p, out[..], channel, token);
    ghost var before := out[..];
    out[RowMajor(channel, p.sequence, token)] := value;
    assert out[..] == before[Flat(channel, p.sequence, token) := value];
  }

  /** scan_scalar */
  method ScanScalar(exp: real -> real, p: Scan) returns (out: array<real>)
    requires Valid(p)
    ensures Written(exp, p, out[..], Flat(p.channels, p.sequence, 0))
  {
    hide RowMajor, Written, Flat;
    out := new real[RowMajor(p.channels, p.sequence, 0)](i => 0.0);
    NothingWritten(exp, p, out[..]);
    FlatNext(0, p.sequence);
    for channel := 0 to p.channels
      invariant Written(exp, p, out[..], Flat(channel, p.sequence, 0))
    {
      ScanChannel(exp, p, channel, out);
    }
  }

  // ---------- the scan written out ----------

  /** h(n, state) is the state after n tokens, at the source's indices. */
  ghost predicate Recurs(exp: real -> real, p: Scan, channel: nat, state: nat, h: (nat, nat) -> real) {
    && h(0, state) == 0.0
    && forall t: nat | t < p.sequence ::
         var step := At(p.delta, RowMajor(channel, p.sequence, t), 0.0);
         h(t + 1, state)
         == Times(exp(Times(step, At(p.a, RowMajor(channel, p.states, state), 0.0))), h(t, state))
            + Times(Times(step, At(p.b, RowMajor(t, p.states, state), 0.0)), At(p.u, RowMajor(channel, p.sequence, t), 0.0))
  }

  lemma OperandsAre(p: Scan, channel: nat, t: nat, state: nat)
    requires Valid(p) && channel < p.channels && t < p.sequence && state < p.states
    ensures var o := OperandsAt(p, channel, t, state);
      && o.input == At(p.u, RowMajor(channel, p.sequence, t), 0.0)
      && o.step == At(p.delta, RowMajor(channel, p.sequence, t), 0.0)
      && o.a == At(p.a, RowMajor(channel, p.states, state), 0.0) && o.b == At(p.b, RowMajor(t, p.states, state), 0.0)
  {
    FlatOrder(channel, p.channels, p.sequence, t, 0);
    FlatOrder(channel, p.channels, p.states, state, 0);
    FlatOrder(t, p.sequence, p.states, state, 0);
    hide Flat, RowMajor;
  }

  lemma {:induction false} HiddenIsState(exp: real -> real, p: Scan, channel: nat, n: nat, state: nat, h: (nat, nat) -> real)
    requires Valid(p) && channel < p.channels && n <= p.sequence && state < p.states && Recurs(exp, p, channel, state, h)
    ensures Hidden(exp, p, channel, n, state) == h(n, state)
  {
    hide Times, Valid, OperandsAt, RowMajor;
    if n > 0 {
      HiddenIsState(exp, p, channel, n - 1, state, h);
      OperandsAre(p, channel, n - 1, state);
    }
  }

  lemma {:induction false} ReadoutIsSum(exp: real -> real, p: Scan, channel: nat, token: nat, n: nat,
                                        h: (nat, nat) -> real, term: nat -> real)
    requires Valid(p) && channel < p.channels && token < p.sequence && n <= p.states
    requires forall s: nat | s < p.states :: Recurs(exp, p, channel, s, h)
    requires forall s: nat | s < p.states :: term(s) == Times(At(p.c, RowMajor(token, p.states, s), 0.0), h(token + 1, s))
    ensures Readout(exp, p, channel, token, n)
         == Times(At(p.d, channel, 0.0), At(p.u, RowMajor(channel, p.sequence, token), 0.0)) + SumTo(term, n)
  {
    hide Times, Recurs, Hidden, RowMajor, Flat;
    if n == 0 {
      ReadoutStart(exp, p, channel, token);
    } else {
      ReadoutIsSum(exp, p, channel, token, n - 1, h, term);
      ReadoutStep(exp, p, channel, token, n - 1);
      HiddenIsState(exp, p, channel, token + 1, n - 1, h);
    }
  }

  /** Every output is the skip term and the states after its token, weighed by the readout row of that token. */
  lemma ScanWrittenOut(exp: real -> real, p: Scan, out: seq<real>, channel: nat, token: nat, h: (nat, nat) -> real,
                       term: nat -> real)
    requires Valid(p) && channel < p.channels && token < p.sequence
    requires Written(exp, p, out, Flat(p.channels, p.sequence, 0))
    requires forall s: nat | s < p.states :: Recurs(exp, p, channel, s, h)
    requires forall s: nat | s < p.states :: term(s) == Times(At(p.c, RowMajor(token, p.states, s), 0.0), h(token + 1, s))
    ensures At(out, RowMajor(channel, p.sequence, token), 0.0)
         == Times(At(p.d, channel, 0.0), At(p.u, RowMajor(channel, p.sequence, token), 0.0)) + SumTo(term, p.states)
  {
    FlatOrder(channel, p.channels, p.sequence, token, 0);
    assert WrittenAt(exp, p, out, channel, token);
    hide Times, Recurs, Readout, RowMajor, Flat, SumTo;
    ReadoutIsSum(exp, p, channel, token, p.states, h, term);
  }
}
