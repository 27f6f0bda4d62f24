/**
 State-space duality: the quadratic source expansion of benchmarks/cases/optimization_plan.cpp and the one-pass
 recurrence of kernels/ssm/ssm_extended_ref.cpp, for one head and for all of them.
 */
module StateSpace {
  import opened Arith
  import opened Reals
  import opened Rows
  import opened Sums
  import opened Softmax

  datatype Head = Head(c: seq<real>, b: seq<real>, x: seq<real>, decay: seq<real>, sequence: nat, dim: nat)

  predicate Valid(h: Head) {
    |h.c| == |h.b| == |h.x| == Flat(h.sequence, h.dim, 0) && |h.decay| == h.sequence
  }

  function Row(data: seq<real>, h: Head, t: nat): (row: seq<real>)
    requires |data| == Flat(h.sequence, h.dim, 0) && t < h.sequence
    ensures |row| == h.dim
  {
    RowInside(t, h.sequence, h.dim);
    RowOf(data, t, h.dim)
  }

  lemma DataAt(data: seq<real>, h: Head, t: nat, v: nat)
    requires |data| == Flat(h.sequence, h.dim, 0) && t < h.sequence && v < h.dim
    ensures Flat(t, h.dim, v) < |data| && Row(data, h, t)[v] == data[Flat(t, h.dim, v)]
  {
    RowInside(t, h.sequence, h.dim);
    FlatShift(t, h.dim, 0, v);
  }

  /** How much of time s is left at time t. */
  function Ratio(exp: real -> real, h: Head, t: nat, s: nat): real
    requires Valid(h) && t < h.sequence && s < h.sequence
  {
    exp(h.decay[t] - h.decay[s])
  }

  // ---------- the source expansion ----------

  /** The share of source s in what a query row sees at time t. */
  function SourceTerm(exp: real -> real, h: Head, query: seq<real>, t: nat, s: nat, v: nat): real
    requires Valid(h) && |query| == h.dim && s < h.sequence && t < h.sequence && v < h.dim
  {
    Times(Times(Dot(query, Row(h.b, h, s)), Ratio(exp, h, t, s)), Row(h.x, h, s)[v])
  }

  function Expansion(exp: real -> real, h: Head, query: seq<real>, t: nat, n: nat, v: nat): real
    requires Valid(h) && |query| == h.dim && t < h.sequence && n <= h.sequence && v < h.dim
  {
    if n == 0 then 0.0 else Expansion(exp, h, query, t, n - 1, v) + SourceTerm(exp, h, query, t, n - 1, v)
  }

  /** The output at time t: every source up to t, decayed to t. */
  function OutputAt(exp: real -> real, h: Head, t: nat, v: nat): real
    requires Valid(h) && t < h.sequence && v < h.dim
  {
    Expansion(exp, h, Row(h.c, h, t), t, t + 1, v)
  }

  // ---------- the recurrence ----------

  /** Entry (k, v) of the state after time t. */
  function StateAt(exp: real -> real, h: Head, t: nat, k: nat, v: nat): real
    requires Valid(h) && t < h.sequence && k < h.dim && v < h.dim
  {
    var added := Times(Row(h.b, h, t)[k], Row(h.x, h, t)[v]);
    if t == 0 then 0.0 + added
    else Times(Ratio(exp, h, t, t - 1), StateAt(exp, h, t - 1, k, v)) + added
  }

  /** The first n terms of a query row's product with the state. */
  function Projection(exp: real -> real, h: Head, query: seq<real>, t: nat, v: nat, n: nat): real
    requires Valid(h) && |query| == h.dim && t < h.sequence && v < h.dim && n <= h.dim
  {
    if n == 0 then 0.0
    else Projection(exp, h, query, t, v, n - 1) + Times(query[n - 1], StateAt(exp, h, t, n - 1, v))
  }

  lemma {:induction false} FirstProjection(exp: real -> real, h: Head, query: seq<real>, v: nat, n: nat)
    requires Valid(h) && |query| == h.dim && 0 < h.sequence && v < h.dim && n <= h.dim
    ensures Projection(exp, h, query, 0, v, n) == Times(Dot(query[..n], Row(h.b, h, 0)[..n]), Row(h.x, h, 0)[v])
    decreases n
  {
    hide Times, Row;
    var x := Row(h.x, h, 0)[v];
    if n == 0 {
      TimesZero(x);
    } else {
      FirstProjection(exp, h, query, v, n - 1);
      DotStep(query, Row(h.b, h, 0), n - 1);
      TimesAssoc(query[n - 1], Row(h.b, h, 0)[n - 1], x);
      TimesAdd(Dot(query[..n - 1], Row(h.b, h, 0)[..n - 1]), Times(query[n - 1], Row(h.b, h, 0)[n - 1]), x);
    }
  }

  lemma {:induction false} NextProjection(exp: real -> real, h: Head, query: seq<real>, t: nat, v: nat, n: nat)
    requires Valid(h) && |query| == h.dim && 0 < t < h.sequence && v < h.dim && n <= h.dim
    ensures Projection(exp, h, query, t, v, n)
         == Times(Ratio(exp, h, t, t - 1), Projection(exp, h, query, t - 1, v, n))
            + Times(Dot(query[..n], Row(h.b, h, t)[..n]), Row(h.x, h, t)[v])
    decreases n
  {
    hide Times, Row;
    var x, ratio := Row(h.x, h, t)[v], Ratio(exp, h, t, t - 1);
    if n == 0 {
      TimesZero(x);
      TimesZero(ratio);
    } else {
      NextProjection(exp, h, query, t, v, n - 1);
      DotStep(query, Row(h.b, h, t), n - 1);
      var q, s, b := query[n - 1], StateAt(exp, h, t - 1, n - 1, v), Row(h.b, h, t)[n - 1];
      var before := Projection(exp, h, query, t - 1, v, n - 1);
      TimesAdd(Dot(query[..n - 1], Row(h.b, h, t)[..n - 1]), Times(q, b), x);
      TimesAssoc(q, b, x);
      Spread(q, ratio, s, Times(b, x));
      Gather(ratio, before, Times(q, s));
    }
  }

  lemma Spread(q: real, ratio: real, s: real, f: real)
    ensures Times(q, Times(ratio, s) + f) == Times(ratio, Times(q, s)) + Times(q, f)
  {
    hide Times;
    TimesComm(q, Times(ratio, s) + f);
    TimesAdd(Times(ratio, s), f, q);
    TimesComm(f, q);
    TimesAssoc(ratio, s, q);
    TimesComm(s, q);
  }

  lemma Gather(ratio: real, a: real, b: real)
    ensures Times(ratio, a + b) == Times(ratio, a) + Times(ratio, b)
  {
    hide Times;
    TimesComm(ratio, a + b);
    TimesAdd(a, b, ratio);
    TimesComm(a, ratio);
    TimesComm(b, ratio);
  }

  /** Moving the reference time forward by one multiplies every source's share by the decay ratio. */
  lemma {:induction false} ExpansionDecays(exp: real -> real, h: Head, query: seq<real>, t: nat, n: nat, v: nat)
    requires Exponential(exp) && Valid(h) && |query| == h.dim && 0 < t < h.sequence && n <= h.sequence && v < h.dim
    ensures Expansion(exp, h, query, t, n, v)
         == Times(Ratio(exp, h, t, t - 1), Expansion(exp, h, query, t - 1, n, v))
    decreases n
  {
    hide Times, Row, Exponential, SourceTerm;
    var ratio := Ratio(exp, h, t, t - 1);
    if n == 0 {
      TimesZero(ratio);
    } else {
      ExpansionDecays(exp, h, query, t, n - 1, v);
      TermDecays(exp, h, query, t, n - 1, v);
      Gather(ratio, Expansion(exp, h, query, t - 1, n - 1, v), SourceTerm(exp, h, query, t - 1, n - 1, v));
    }
  }

  lemma TermDecays(exp: real -> real, h: Head, query: seq<real>, t: nat, s: nat, v: nat)
    requires Exponential(exp) && Valid(h) && |query| == h.dim && 0 < t < h.sequence && s < h.sequence && v < h.dim
    ensures SourceTerm(exp, h, query, t, s, v)
         == Times(Ratio(exp, h, t, t - 1), SourceTerm(exp, h, query, t - 1, s, v))
  {
    RatioChain(exp, h, t, t - 1, s);
    hide Times, Row, Exponential, Dot, Ratio;
    Pull(Dot(query, Row(h.b, h, s)), Ratio(exp, h, t, t - 1), Ratio(exp, h, t - 1, s), Row(h.x, h, s)[v]);
  }

  lemma RatioChain(exp: real -> real, h: Head, a: nat, b: nat, c: nat)
    requires Exponential(exp) && Valid(h) && a < h.sequence && b < h.sequence && c < h.sequence
    ensures Times(Ratio(exp, h, a, b), Ratio(exp, h, b, c)) == Ratio(exp, h, a, c)
  {
    ExpChain(exp, h.decay[a], h.decay[b], h.decay[c]);
  }

  lemma ExpChain(exp: real -> real, a: real, b: real, c: real)
    requires Exponential(exp)
    ensures Times(exp(a - b), exp(b - c)) == exp(a - c)
  {
    assert a - b + (b - c) == a - c;
  }

  lemma ExpZero(exp: real -> real)
    requires Exponential(exp)
    ensures exp(0.0) == 1.0
  {
    ExpChain(exp, 0.0, 0.0, 0.0);
    ExpPositive(exp, 0.0);
    hide Exponential;
    Idempotent(exp(0.0));
  }

  lemma Idempotent(z: real)
    requires z > 0.0 && Times(z, z) == z
    ensures z == 1.0
  {
    assert z * (z - 1.0) == 0.0;
  }

  lemma Pull(d: real, r: real, e: real, x: real)
    ensures Times(Times(d, Times(r, e)), x) == Times(r, Times(Times(d, e), x))
  {
    hide Times;
    TimesAssoc(r, e, d);
    TimesComm(d, Times(r, e));
    TimesComm(e, d);
    TimesAssoc(r, Times(d, e), x);
  }

  /** One step of the recurrence, seen through a query row. */
  lemma ProjectionDecays(exp: real -> real, h: Head, query: seq<real>, t: nat, v: nat)
    requires Valid(h) && |query| == h.dim && t < h.sequence && v < h.dim
    ensures var own := Times(Dot(query, Row(h.b, h, t)), Row(h.x, h, t)[v]);
      Projection(exp, h, query, t, v, h.dim)
        == if t == 0 then own
           else Times(Ratio(exp, h, t, t - 1), Projection(exp, h, query, t - 1, v, h.dim)) + own
  {
    var b := Row(h.b, h, t);
    assert query[..h.dim] == query && b[..h.dim] == b;
    hide Times, Row, Dot, Projection;
    if t == 0 {
      FirstProjection(exp, h, query, v, h.dim);
    } else {
      NextProjection(exp, h, query, t, v, h.dim);
    }
  }

  /** One more time step of the expansion. */
  lemma ExpansionGrows(exp: real -> real, h: Head, query: seq<real>, t: nat, v: nat)
    requires Exponential(exp) && Valid(h) && |query| == h.dim && t < h.sequence && v < h.dim
    ensures var own := Times(Dot(query, Row(h.b, h, t)), Row(h.x, h, t)[v]);
      Expansion(exp, h, query, t, t + 1, v)
        == if t == 0 then own
           else Times(Ratio(exp, h, t, t - 1), Expansion(exp, h, query, t - 1, t, v)) + own
  {
    OwnTerm(exp, h, query, t, v);
    ExpansionStep(exp, h, query, t, v);
    hide Times, Row, Dot, Expansion, SourceTerm, Exponential;
    if t == 0 {
      NoSources(exp, h, query, t, v);
    } else {
      ExpansionDecays(exp, h, query, t, t, v);
    }
  }

  /** The recurrence computes the source expansion. */
  lemma {:induction false} RecurrenceIsExpansion(exp: real -> real, h: Head, query: seq<real>, t: nat, v: nat)
    requires Exponential(exp) && Valid(h) && |query| == h.dim && t < h.sequence && v < h.dim
    ensures Projection(exp, h, query, t, v, h.dim) == Expansion(exp, h, query, t, t + 1, v)
    decreases t
  {
    ProjectionDecays(exp, h, query, t, v);
    ExpansionGrows(exp, h, query, t, v);
    hide Times, Row, Dot, Expansion, Projection, Exponential;
    if t > 0 {
      RecurrenceIsExpansion(exp, h, query, t - 1, v);
    }
  }

  lemma NoSources(exp: real -> real, h: Head, query: seq<real>, t: nat, v: nat)
    requires Valid(h) && |query| == h.dim && t < h.sequence && v < h.dim
    ensures Expansion(exp, h, query, t, 0, v) == 0.0
  {
  }

  lemma ExpansionStep(exp: real -> real, h: Head, query: seq<real>, t: nat, v: nat)
    requires Valid(h) && |query| == h.dim && t < h.sequence && v < h.dim
    ensures Expansion(exp, h, query, t, t + 1, v)
         == Expansion(exp, h, query, t, t, v) + SourceTerm(exp, h, query, t, t, v)
  {
  }

  /** A source is not decayed at its own time. */
  lemma OwnTerm(exp: real -> real, h: Head, query: seq<real>, t: nat, v: nat)
    requires Exponential(exp) && Valid(h) && |query| == h.dim && t < h.sequence && v < h.dim
    ensures SourceTerm(exp, h, query, t, t, v) == Times(Dot(query, Row(h.b, h, t)), Row(h.x, h, t)[v])
  {
    ExpZero(exp);
    hide Exponential, Row, Dot;
    TimesZero(Dot(query, Row(h.b, h, t)));
  }

  // ---------- the two programs ----------

  /** Outputs of the times before t, and of time t for the values before `done`. */
  ghost predicate Written(exp: real -> real, h: Head, out: seq<real>, done: nat)
    requires Valid(h)
  {
    && |out| == Flat(h.sequence, h.dim, 0)
    && forall t: nat, v: nat | t < h.sequence && v < h.dim && Flat(t, h.dim, v) < done :: WrittenAt(exp, h, out, t, v)
  }

  ghost predicate WrittenAt(exp: real -> real, h: Head, out: seq<real>, t: nat, v: nat)
    requires Valid(h) && t < h.sequence && v < h.dim
  {
    Flat(t, h.dim, v) < |out| && out[Flat(t, h.dim, v)] == OutputAt(exp, h, t, v)
  }

  lemma WriteStep(exp: real -> real, h: Head, before: seq<real>, after: seq<real>, t: nat, v: nat)
    requires Valid(h) && t < h.sequence && v < h.dim && Written(exp, h, before, Flat(t, h.dim, v))
    requires Flat(t, h.dim, v) < |before| && after == before[Flat(t, h.dim, v) := OutputAt(exp, h, t, v)]
    ensures Written(exp, h, after, Flat(t, h.dim, v) + 1)
  {
    hide OutputAt, Valid, Flat;
    var next := Flat(t, h.dim, v) + 1;
    forall s: nat, w: nat | s < h.sequence && w < h.dim && Flat(s, h.dim, w) < next ensures WrittenAt(exp, h, after, s, w) {
      if Flat(s, h.dim, w) == Flat(t, h.dim, v) {
        FlatInjective(s, t, h.dim, w, v);
      } else {
        assert WrittenAt(exp, h, before, s, w);
      }
    }
  }

  /** The cursor after one output, and after the last output of a time. */
  lemma NextCursor(exp: real -> real, h: Head, out: seq<real>, t: nat, v: nat)
    requires Valid(h)
    ensures Written(exp, h, out, Flat(t, h.dim, v) + 1) ==> Written(exp, h, out, Flat(t, h.dim, v + 1))
    ensures Written(exp, h, out, Flat(t, h.dim, h.dim)) ==> Written(exp, h, out, Flat(t + 1, h.dim, 0))
  {
    hide Written, Flat;
    FlatShift(t, h.dim, v, 1);
    FlatNext(t, h.dim);
  }

  lemma NextEntryCursor(exp: real -> real, h: Head, state: seq<real>, t: nat, k: nat, v: nat)
    requires Valid(h) && t < h.sequence
    ensures StateHolds(exp, h, state, t, Flat(k, h.dim, v) + 1) ==> StateHolds(exp, h, state, t, Flat(k, h.dim, v + 1))
    ensures StateHolds(exp, h, state, t, Flat(k, h.dim, h.dim)) ==> StateHolds(exp, h, state, t, Flat(k + 1, h.dim, 0))
  {
    hide StateHolds, Flat;
    FlatShift(k, h.dim, v, 1);
    FlatNext(k, h.dim);
  }

  lemma NothingWritten(exp: real -> real, h: Head, out: seq<real>)
    requires Valid(h) && |out| == Flat(h.sequence, h.dim, 0)
    ensures Written(exp, h, out, 0)
  {
  }

  method Similarity(h: Head, t: nat, s: nat) returns (similarity: real)
    requires Valid(h) && t < h.sequence && s < h.sequence
    ensures similarity == Dot(Row(h.c, h, t), Row(h.b, h, s))
  {
    ghost var c, b := Row(h.c, h, t), Row(h.b, h, s);
    similarity := 0.0;
    hide RowMajor, Times, Flat, Row;
    for key := 0 to h.dim
      invariant similarity == Dot(c[..key], b[..key])
    {
      DotStep(c, b, key);
      DataAt(h.c, h, t, key);
      DataAt(h.b, h, s, key);
      similarity := similarity + Times(h.c[RowMajor(t, h.dim, key)], h.b[RowMajor(s, h.dim, key)]);
    }
    assert c[..h.dim] == c && b[..h.dim] == b;
  }

  method ExpandOne(exp: real -> real, h: Head, t: nat, v: nat) returns (sum: real)
    requires Valid(h) && t < h.sequence && v < h.dim
    ensures sum == OutputAt(exp, h, t, v)
  {
    sum := 0.0;
    hide RowMajor, Times, Dot, Row, Flat;
    ghost var query := Row(h.c, h, t);
    for source := 0 to t + 1
      invariant sum == Expansion(exp, h, query, t, source, v)
    {
      var similarity := Similarity(h, t, source);
      DataAt(h.x, h, source, v);
      sum := sum + Times(Times(similarity, Ratio(exp, h, t, source)), h.x[RowMajor(source, h.dim, v)]);
    }
  }

  /** direct_mamba for one head. */
  method DirectHead(exp: real -> real, h: Head) returns (out: array<real>)
    requires Valid(h)
    ensures Written(exp, h, out[..], Flat(h.sequence, h.dim, 0))
  {
    hide RowMajor, Written, OutputAt, Flat;
    out := new real[RowMajor(h.sequence, h.dim, 0)](i => 0.0);
    NothingWritten(exp, h, out[..]);
    FlatNext(0, h.dim);
    for target := 0 to h.sequence
      invariant out.Length == Flat(h.sequence, h.dim, 0) && Written(exp, h, out[..], Flat(target, h.dim, 0))
    {
      for value := 0 to h.dim
        invariant out.Length == Flat(h.sequence, h.dim, 0) && Written(exp, h, out[..], Flat(target, h.dim, value))
      {
        var sum := ExpandOne(exp, h, target, value);
        StoreAndAdvance(exp, h, out, target, value, sum);
      }
      NextCursor(exp, h, out[..], target, 0);
    }
  }

  method StoreAndAdvance(exp: real -> real, h: Head, out: array<real>, t: nat, v: nat, value: real)
    requires Valid(h) && t < h.sequence && v < h.dim && value == OutputAt(exp, h, t, v)
    requires out.Length == Flat(h.sequence, h.dim, 0) && Written(exp, h, out[..], Flat(t, h.dim, v))
    modifies out
    ensures Written(exp, h, out[..], Flat(t, h.dim, v + 1))
  {
    hide *;
    StoreOutput(exp, h, out, t, v, value);
    NextCursor(exp, h, out[..], t, v);
  }

  method StoreOutput(exp: real -> real, h: Head, out: array<real>, t: nat, v: nat, value: real)
    requires Valid(h) && t < h.sequence && v < h.dim && value == OutputAt(exp, h, t, v)
    requires out.Length == Flat(h.sequence, h.dim, 0) && Written(exp, h, out[..], Flat(t, h.dim, v))
    modifies out
    ensures Written(exp, h, out[..], Flat(t, h.dim, v) + 1)
  {
    hide RowMajor, Written, OutputAt, Flat;
    FlatOrder(t, h.sequence, h.dim, v, 0);
    ghost var before := out[..];
    out[RowMajor(t, h.dim, v)] := value;
    assert out[..] == before[Flat(t, h.dim, v) := value];
    WriteStep(exp, h, before, out[..], t, v);
  }

  /** The state matrix while row `key` is updated: earlier rows hold time t, later rows the time before. */
  ghost predicate StateHolds(exp: real -> real, h: Head, state: seq<real>, t: nat, done: nat)
    requires Valid(h) && t < h.sequence
  {
    && |state| == Flat(h.dim, h.dim, 0)
    && forall k: nat, v: nat | k < h.dim && v < h.dim :: EntryHolds(exp, h, state, t, done, k, v)
  }

  ghost predicate EntryHolds(exp: real -> real, h: Head, state: seq<real>, t: nat, done: nat, k: nat, v: nat)
    requires Valid(h) && t < h.sequence && k < h.dim && v < h.dim
  {
    && Flat(k, h.dim, v) < |state|
    && if Flat(k, h.dim, v) < done then state[Flat(k, h.dim, v)] == StateAt(exp, h, t, k, v)
       else t == 0 || state[Flat(k, h.dim, v)] == StateAt(exp, h, t - 1, k, v)
  }

  lemma StateStep(exp: real -> real, h: Head, before: seq<real>, after: seq<real>, t: nat, k: nat, v: nat)
    requires Valid(h) && t < h.sequence && k < h.dim && v < h.dim && Flat(k, h.dim, v) < |before|
    requires StateHolds(exp, h, before, t, Flat(k, h.dim, v))
    requires after == before[Flat(k, h.dim, v) := StateAt(exp, h, t, k, v)]
    ensures StateHolds(exp, h, after, t, Flat(k, h.dim, v) + 1)
  {
    hide StateAt, Valid;
    var at, next := Flat(k, h.dim, v), Flat(k, h.dim, v) + 1;
    forall j: nat, w: nat | j < h.dim && w < h.dim ensures EntryHolds(exp, h, after, t, next, j, w) {
      assert EntryHolds(exp, h, before, t, at, j, w);
      if Flat(j, h.dim, w) == at {
        FlatInjective(j, k, h.dim, w, v);
      }
    }
  }

  lemma StateAdvanced(exp: real -> real, h: Head, state: seq<real>, t: nat)
    requires Valid(h) && t + 1 < h.sequence && StateHolds(exp, h, state, t, Flat(h.dim, h.dim, 0))
    ensures StateHolds(exp, h, state, t + 1, 0)
  {
    hide StateAt, Valid;
    var next := t + 1;
    forall k: nat, v: nat | k < h.dim && v < h.dim ensures EntryHolds(exp, h, state, next, 0, k, v) {
      FlatOrder(k, h.dim, h.dim, v, 0);
      assert EntryHolds(exp, h, state, t, Flat(h.dim, h.dim, 0), k, v);
    }
  }

  /** The projected vector: values before `done` have taken row `key`. */
  ghost predicate ProjectedIs(exp: real -> real, h: Head, projected: seq<real>, t: nat, key: nat, done: nat)
    requires Valid(h) && t < h.sequence && key <= h.dim && (done > 0 ==> key < h.dim)
  {
    && |projected| == h.dim
    && forall v: nat | v < h.dim :: ProjectedAt(exp, h, projected, t, key, done, v)
  }

  ghost predicate ProjectedAt(exp: real -> real, h: Head, projected: seq<real>, t: nat, key: nat, done: nat, v: nat)
    requires Valid(h) && t < h.sequence && key <= h.dim && (done > 0 ==> key < h.dim) && v < h.dim == |projected|
  {
    projected[v] == Projection(exp, h, Row(h.c, h, t), t, v, if done > 0 && v < done then key + 1 else key)
  }

  lemma ProjectedStep(exp: real -> real, h: Head, projected: seq<real>, t: nat, key: nat, v: nat)
    requires Valid(h) && t < h.sequence && key < h.dim && v < h.dim && ProjectedIs(exp, h, projected, t, key, v)
    ensures projected[v] == Projection(exp, h, Row(h.c, h, t), t, v, key)
    ensures ProjectedIs(exp, h, projected[v := Projection(exp, h, Row(h.c, h, t), t, v, key + 1)], t, key, v + 1)
  {
    hide Projection, Row;
    assert ProjectedAt(exp, h, projected, t, key, v, v);
    var after, next := projected[v := Projection(exp, h, Row(h.c, h, t), t, v, key + 1)], v + 1;
    forall w: nat | w < h.dim ensures ProjectedAt(exp, h, after, t, key, next, w) {
      assert ProjectedAt(exp, h, projected, t, key, v, w);
    }
  }

  lemma ProjectedDone(exp: real -> real, h: Head, projected: seq<real>, t: nat, key: nat)
    requires Valid(h) && t < h.sequence && key < h.dim && ProjectedIs(exp, h, projected, t, key, h.dim)
    ensures ProjectedIs(exp, h, projected, t, key + 1, 0)
  {
    hide Projection, Row;
    var next := key + 1;
    forall v: nat | v < h.dim ensures ProjectedAt(exp, h, projected, t, next, 0, v) {
      assert ProjectedAt(exp, h, projected, t, key, h.dim, v);
    }
  }

  lemma ProjectedStart(exp: real -> real, h: Head, projected: seq<real>, t: nat)
    requires Valid(h) && t < h.sequence && |projected| == h.dim && forall v | 0 <= v < |projected| :: projected[v] == 0.0
    ensures ProjectedIs(exp, h, projected, t, 0, 0)
  {
  }

  /** Row `key` of the state and its contribution to the projection. */
  method UpdateKey(exp: real -> real, h: Head, t: nat, key: nat, state: array<real>, projected: array<real>)
    requires Valid(h) && t < h.sequence && key < h.dim && state != projected
    requires projected.Length == h.dim && StateHolds(exp, h, state[..], t, Flat(key, h.dim, 0))
    requires ProjectedIs(exp, h, projected[..], t, key, 0)
    modifies state, projected
    ensures StateHolds(exp, h, state[..], t, Flat(key + 1, h.dim, 0))
    ensures ProjectedIs(exp, h, projected[..], t, key + 1, 0)
  {
    ghost var query := Row(h.c, h, t);
    DataAt(h.c, h, t, key);
    var transition := if t == 0 then 0.0 else Ratio(exp, h, t, t - 1);
    hide RowMajor, Times, StateHolds, StateAt, Row, Valid, ProjectedIs, Projection, Flat;
    var coefficient := h.c[RowMajor(t, h.dim, key)];
    for value := 0 to h.dim
      invariant StateHolds(exp, h, state[..], t, Flat(key, h.dim, value))
      invariant ProjectedIs(exp, h, projected[..], t, key, value)
    {
      ghost var before := projected[..];
      UpdateEntry(exp, h, t, key, value, state, transition);
      assert projected[..] == before;
      NextEntryCursor(exp, h, state[..], t, key, value);
      AddEntry(exp, h, t, key, value, projected, coefficient, state[RowMajor(key, h.dim, value)]);
    }
    ProjectedDone(exp, h, projected[..], t, key);
    NextEntryCursor(exp, h, state[..], t, key, 0);
  }

  method AddEntry(exp: real -> real, h: Head, t: nat, key: nat, value: nat, projected: array<real>, coefficient: real,
                  entry: real)
    requires Valid(h) && t < h.sequence && key < h.dim && value < h.dim && projected.Length == h.dim
    requires ProjectedIs(exp, h, projected[..], t, key, value)
    requires coefficient == Row(h.c, h, t)[key] && entry == StateAt(exp, h, t, key, value)
    modifies projected
    ensures ProjectedIs(exp, h, projected[..], t, key, value + 1)
  {
    ghost var query, before := Row(h.c, h, t), projected[..];
    hide Times, StateAt, Row, Valid, ProjectedIs, Projection;
    ProjectedStep(exp, h, before, t, key, value);
    ProjectionStep(exp, h, query, t, value, key);
    projected[value] := projected[value] + Times(coefficient, entry);
    assert projected[..] == before[value := Projection(exp, h, query, t, value, key + 1)];
  }

  lemma ProjectionStep(exp: real -> real, h: Head, query: seq<real>, t: nat, v: nat, n: nat)
    requires Valid(h) && |query| == h.dim && t < h.sequence && v < h.dim && n < h.dim
    ensures Projection(exp, h, query, t, v, n + 1)
         == Projection(exp, h, query, t, v, n) + Times(query[n], StateAt(exp, h, t, n, v))
  {
  }

  method UpdateEntry(exp: real -> real, h: Head, t: nat, key: nat, value: nat, state: array<real>, transition: real)
    requires Valid(h) && t < h.sequence && key < h.dim && value < h.dim
    requires t > 0 ==> transition == Ratio(exp, h, t, t - 1)
    requires StateHolds(exp, h, state[..], t, Flat(key, h.dim, value))
    modifies state
    ensures StateHolds(exp, h, state[..], t, Flat(key, h.dim, value) + 1)
    ensures Flat(key, h.dim, value) < state.Length
    ensures state[Flat(key, h.dim, value)] == StateAt(exp, h, t, key, value)
  {
    EntryBefore(exp, h, state[..], t, key, value);
    hide RowMajor, StateHolds, StateAt, Flat, Valid, Times, Row;
    ghost var before := state[..];
    var entry := NextEntry(exp, h, t, key, value, state[RowMajor(key, h.dim, value)], transition);
    state[RowMajor(key, h.dim, value)] := entry;
    assert state[..] == before[Flat(key, h.dim, value) := entry];
    StateStep(exp, h, before, state[..], t, key, value);
  }

  method NextEntry(exp: real -> real, h: Head, t: nat, key: nat, value: nat, before: real, transition: real)
    returns (entry: real)
    requires Valid(h) && t < h.sequence && key < h.dim && value < h.dim
    requires t > 0 ==> transition == Ratio(exp, h, t, t - 1) && before == StateAt(exp, h, t - 1, key, value)
    ensures entry == StateAt(exp, h, t, key, value)
  {
    DataAt(h.b, h, t, key);
    DataAt(h.x, h, t, value);
    StateIs(exp, h, t, key, value, before, transition);
    hide RowMajor, StateAt, Row, Times, Flat;
    entry := (if t == 0 then 0.0 else Times(transition, before))
             + Times(h.b[RowMajor(t, h.dim, key)], h.x[RowMajor(t, h.dim, value)]);
  }

  lemma EntryBefore(exp: real -> real, h: Head, state: seq<real>, t: nat, key: nat, value: nat)
    requires Valid(h) && t < h.sequence && key < h.dim && value < h.dim
    requires StateHolds(exp, h, state, t, Flat(key, h.dim, value))
    ensures |h.b| == |h.x| == Flat(h.sequence, h.dim, 0) && Flat(key, h.dim, value) < |state|
    ensures t > 0 ==> state[Flat(key, h.dim, value)] == StateAt(exp, h, t - 1, key, value)
  {
    assert EntryHolds(exp, h, state, t, Flat(key, h.dim, value), key, value);
  }

  lemma StateIs(exp: real -> real, h: Head, t: nat, key: nat, value: nat, before: real, transition: real)
    requires Valid(h) && t < h.sequence && key < h.dim && value < h.dim
    requires t > 0 ==> transition == Ratio(exp, h, t, t - 1) && before == StateAt(exp, h, t - 1, key, value)
    ensures StateAt(exp, h, t, key, value)
         == (if t == 0 then 0.0 else Times(transition, before)) + Times(Row(h.b, h, t)[key], Row(h.x, h, t)[value])
  {
    hide Times, Row;
  }

  /** mamba2 for one head: one pass over the sequence. */
  method RecurrentHead(exp: real -> real, h: Head) returns (out: array<real>)
    requires Exponential(exp) && Valid(h)
    ensures Written(exp, h, out[..], Flat(h.sequence, h.dim, 0))
  {
    hide RowMajor, Written, OutputAt, Exponential, Flat;
    out := new real[RowMajor(h.sequence, h.dim, 0)](i => 0.0);
    var state := new real[RowMajor(h.dim, h.dim, 0)](i => 0.0);
    NothingWritten(exp, h, out[..]);
    FlatNext(0, h.dim);
    if h.sequence > 0 {
      EmptyState(exp, h, state[..]);
    }
    hide StateHolds, Flat;
    for target := 0 to h.sequence
      invariant out.Length == Flat(h.sequence, h.dim, 0) && Written(exp, h, out[..], Flat(target, h.dim, 0))
      invariant target < h.sequence ==> StateHolds(exp, h, state[..], target, 0)
    {
      OneTarget(exp, h, target, state, out);
      if target + 1 < h.sequence {
        StateAdvanced(exp, h, state[..], target);
      }
    }
  }

  lemma EmptyState(exp: real -> real, h: Head, state: seq<real>)
    requires Valid(h) && 0 < h.sequence && |state| == Flat(h.dim, h.dim, 0)
    ensures StateHolds(exp, h, state, 0, 0)
  {
    forall k: nat, v: nat | k < h.dim && v < h.dim ensures EntryHolds(exp, h, state, 0, 0, k, v) {
      FlatOrder(k, h.dim, h.dim, v, 0);
    }
  }

  method OneTarget(exp: real -> real, h: Head, t: nat, state: array<real>, out: array<real>)
    requires Exponential(exp) && Valid(h) && t < h.sequence && state != out
    requires out.Length == Flat(h.sequence, h.dim, 0) && Written(exp, h, out[..], Flat(t, h.dim, 0))
    requires StateHolds(exp, h, state[..], t, 0)
    modifies state, out
    ensures Written(exp, h, out[..], Flat(t + 1, h.dim, 0))
    ensures StateHolds(exp, h, state[..], t, Flat(h.dim, h.dim, 0))
  {
    hide *;
    ghost var before := out[..];
    var projected := ProjectTarget(exp, h, t, state);
    assert out[..] == before;
    ghost var after := state[..];
    StoreProjected(exp, h, t, projected, out);
    assert state[..] == after;
  }

  /** The key loop of one time. */
  method ProjectTarget(exp: real -> real, h: Head, t: nat, state: array<real>) returns (projected: array<real>)
    requires Valid(h) && t < h.sequence && StateHolds(exp, h, state[..], t, 0)
    modifies state
    ensures fresh(projected) && projected.Length == h.dim
    ensures ProjectedIs(exp, h, projected[..], t, h.dim, 0)
    ensures StateHolds(exp, h, state[..], t, Flat(h.dim, h.dim, 0))
  {
    projected := new real[h.dim](i => 0.0);
    ProjectedStart(exp, h, projected[..], t);
    FlatNext(0, h.dim);
    hide *;
    for key := 0 to h.dim
      invariant StateHolds(exp, h, state[..], t, Flat(key, h.dim, 0))
      invariant ProjectedIs(exp, h, projected[..], t, key, 0)
    {
      UpdateKey(exp, h, t, key, state, projected);
    }
  }

  method StoreProjected(exp: real -> real, h: Head, t: nat, projected: array<real>, out: array<real>)
    requires Exponential(exp) && Valid(h) && t < h.sequence && projected != out && projected.Length == h.dim
    requires out.Length == Flat(h.sequence, h.dim, 0) && Written(exp, h, out[..], Flat(t, h.dim, 0))
    requires ProjectedIs(exp, h, projected[..], t, h.dim, 0)
    modifies out
    ensures Written(exp, h, out[..], Flat(t + 1, h.dim, 0))
  {
    ghost var held := projected[..];
    hide Written, Exponential, OutputAt, ProjectedIs, Flat;
    for value := 0 to h.dim
      invariant projected[..] == held
      invariant Written(exp, h, out[..], Flat(t, h.dim, value))
    {
      ProjectedValue(exp, h, held, t, value);
      StoreAndAdvance(exp, h, out, t, value, projected[value]);
    }
    NextCursor(exp, h, out[..], t, 0);
  }

  lemma ProjectedValue(exp: real -> real, h: Head, projected: seq<real>, t: nat, v: nat)
    requires Exponential(exp) && Valid(h) && t < h.sequence && v < h.dim && ProjectedIs(exp, h, projected, t, h.dim, 0)
    ensures |projected| == h.dim && projected[v] == OutputAt(exp, h, t, v)
  {
    hide Exponential, OutputAt, Projection, Row;
    assert ProjectedAt(exp, h, projected, t, h.dim, 0, v);
    ProjectionIsOutput(exp, h, t, v);
  }

  lemma ProjectionIsOutput(exp: real -> real, h: Head, t: nat, v: nat)
    requires Exponential(exp) && Valid(h) && t < h.sequence && v < h.dim
    ensures Projection(exp, h, Row(h.c, h, t), t, v, h.dim) == OutputAt(exp, h, t, v)
  {
    RecurrenceIsExpansion(exp, h, Row(h.c, h, t), t, v);
  }

  // ---------- all batch items and heads ----------

  /** The buffers of all heads, one after the other. */
  datatype Batch = Batch(c: seq<real>, b: seq<real>, x: seq<real>, decay: seq<real>, heads: nat, sequence: nat, dim: nat)

  function HeadSize(m: Batch): nat {
    Flat(m.sequence, m.dim, 0)
  }

  predicate ValidBatch(m: Batch) {
    |m.c| == |m.b| == |m.x| == Flat(m.heads, HeadSize(m), 0) && |m.decay| == Flat(m.heads, m.sequence, 0)
  }

  function HeadOf(m: Batch, bh: nat): (h: Head)
    requires ValidBatch(m) && bh < m.heads
    ensures Valid(h) && h.sequence == m.sequence && h.dim == m.dim
  {
    RowInside(bh, m.heads, HeadSize(m));
    RowInside(bh, m.heads, m.sequence);
    Head(RowOf(m.c, bh, HeadSize(m)), RowOf(m.b, bh, HeadSize(m)), RowOf(m.x, bh, HeadSize(m)),
         RowOf(m.decay, bh, m.sequence), m.sequence, m.dim)
  }

  /** The outputs of the first `done` heads are their source expansions. */
  ghost predicate HeadsWritten(exp: real -> real, m: Batch, out: seq<real>, done: nat)
    requires ValidBatch(m)
  {
    |out| == Flat(m.heads, HeadSize(m), 0) && forall bh: nat | bh < done && bh < m.heads :: HeadWritten(exp, m, out, bh)
  }

  ghost predicate HeadWritten(exp: real -> real, m: Batch, out: seq<real>, bh: nat)
    requires ValidBatch(m) && bh < m.heads
  {
    && Flat(bh, HeadSize(m), 0) + HeadSize(m) <= |out|
    && Written(exp, HeadOf(m, bh), RowOf(out, bh, HeadSize(m)), HeadSize(m))
  }

  method StoreHead(exp: real -> real, m: Batch, bh: nat, one: seq<real>, out: array<real>)
    requires ValidBatch(m) && bh < m.heads && HeadsWritten(exp, m, out[..], bh)
    requires |one| == HeadSize(m) && Written(exp, HeadOf(m, bh), one, HeadSize(m))
    modifies out
    ensures HeadsWritten(exp, m, out[..], bh + 1)
  {
    RowInside(bh, m.heads, HeadSize(m));
    hide Written, HeadOf, Flat, RowOf, Framed, HeadSize;
    ghost var before := out[..];
    PutRow(out, bh, |one|, one);
    forall other: nat | other < bh ensures HeadWritten(exp, m, out[..], other) {
      assert HeadWritten(exp, m, before, other);
      RowsExtended(before, out[..], bh, m.heads, HeadSize(m), other);
    }
  }

  lemma OutputSize(exp: real -> real, h: Head, out: seq<real>)
    requires Valid(h) && Written(exp, h, out, Flat(h.sequence, h.dim, 0))
    ensures |out| == Flat(h.sequence, h.dim, 0)
  {
  }

  lemma NoHeadWritten(exp: real -> real, m: Batch, out: seq<real>)
    requires ValidBatch(m) && |out| == Flat(m.heads, HeadSize(m), 0)
    ensures HeadsWritten(exp, m, out, 0)
  {
  }

  /** direct_mamba */
  method DirectMamba(exp: real -> real, m: Batch) returns (out: array<real>)
    requires ValidBatch(m)
    ensures HeadsWritten(exp, m, out[..], m.heads)
  {
    out := new real[RowMajor(m.heads, RowMajor(m.sequence, m.dim, 0), 0)](i => 0.0);
    NoHeadWritten(exp, m, out[..]);
    hide *;
    for bh := 0 to m.heads
      invariant HeadsWritten(exp, m, out[..], bh)
    {
      ExpandHead(exp, m, bh, out);
    }
  }

  method ExpandHead(exp: real -> real, m: Batch, bh: nat, out: array<real>)
    requires ValidBatch(m) && bh < m.heads && HeadsWritten(exp, m, out[..], bh)
    modifies out
    ensures HeadsWritten(exp, m, out[..], bh + 1)
  {
    hide Written, HeadsWritten, Exponential, ValidBatch, Valid, Flat;
    ghost var before := out[..];
    var one := DirectHead(exp, HeadOf(m, bh));
    assert out[..] == before;
    OutputSize(exp, HeadOf(m, bh), one[..]);
    StoreHead(exp, m, bh, one[..], out);
  }

  /** mamba2 */
  method Mamba2(exp: real -> real, m: Batch) returns (out: array<real>)
    requires Exponential(exp) && ValidBatch(m)
    ensures HeadsWritten(exp, m, out[..], m.heads)
  {
    out := new real[RowMajor(m.heads, RowMajor(m.sequence, m.dim, 0), 0)](i => 0.0);
    NoHeadWritten(exp, m, out[..]);
    hide *;
    for bh := 0 to m.heads
      invariant HeadsWritten(exp, m, out[..], bh)
    {
      RunHead(exp, m, bh, out);
    }
  }

  method RunHead(exp: real -> real, m: Batch, bh: nat, out: array<real>)
    requires Exponential(exp) && ValidBatch(m) && bh < m.heads && HeadsWritten(exp, m, out[..], bh)
    modifies out
    ensures HeadsWritten(exp, m, out[..], bh + 1)
  {
    hide Written, HeadsWritten, Exponential, ValidBatch, Valid, Flat;
    ghost var before := out[..];
    var one := RecurrentHead(exp, HeadOf(m, bh));
    assert out[..] == before;
    OutputSize(exp, HeadOf(m, bh), one[..]);
    StoreHead(exp, m, bh, one[..], out);
  }

  /** The quadratic reference and the one-pass kernel fill the same buffer. */
  lemma KernelMatchesReference(exp: real -> real, m: Batch, a: seq<real>, b: seq<real>)
    requires ValidBatch(m) && HeadsWritten(exp, m, a, m.heads) && HeadsWritten(exp, m, b, m.heads)
    ensures a == b
  {
    forall bh: nat | bh < m.heads
      ensures Flat(bh, HeadSize(m), 0) + HeadSize(m) <= |a| && RowOf(a, bh, HeadSize(m)) == RowOf(b, bh, HeadSize(m))
    {
      assert HeadWritten(exp, m, a, bh) && HeadWritten(exp, m, b, bh);
      WrittenUnique(exp, HeadOf(m, bh), RowOf(a, bh, HeadSize(m)), RowOf(b, bh, HeadSize(m)));
    }
    EqualRows(a, b, m.heads, HeadSize(m));
  }

  lemma WrittenUnique(exp: real -> real, h: Head, a: seq<real>, b: seq<real>)
    requires Valid(h) && Written(exp, h, a, Flat(h.sequence, h.dim, 0)) && Written(exp, h, b, Flat(h.sequence, h.dim, 0))
    ensures a == b
  {
    OutputSize(exp, h, a);
    OutputSize(exp, h, b);
    hide OutputAt, Valid;
    forall i | 0 <= i < |a| ensures a[i] == b[i] {
      FlatSplit(i, h.sequence, h.dim);
      var t, v := Quot(i, h.dim), Rem(i, h.dim);
      QuotRem(i, h.dim);
      assert WrittenAt(exp, h, a, t, v) && WrittenAt(exp, h, b, t, v);
    }
  }

  // ---------- the expansion written out ----------

  lemma BufferRow(m: Batch, data: seq<real>, bh: nat, t: nat, v: nat)
    requires ValidBatch(m) && bh < m.heads && t < m.sequence && v < m.dim && |data| == Flat(m.heads, HeadSize(m), 0)
    ensures Flat(bh, HeadSize(m), 0) + HeadSize(m) <= |data|
    ensures Row(RowOf(data, bh, HeadSize(m)), HeadOf(m, bh), t)[v]
         == At(data, RowMajor(RowMajor(bh, m.sequence, t), m.dim, v), 0.0)
  {
    var h, size := HeadOf(m, bh), HeadSize(m);
    RowInside(bh, m.heads, size);
    DataAt(RowOf(data, bh, size), h, t, v);
    FlatFlat(bh, m.sequence, t, m.dim, v);
    hide HeadOf, Row, RowOf, Flat, ValidBatch;
    RowElement(data, bh, size, Flat(t, m.dim, v), 0.0);
  }

  lemma SourceIs(exp: real -> real, m: Batch, bh: nat, t: nat, s: nat, v: nat, product: nat -> real)
    requires ValidBatch(m) && bh < m.heads && t < m.sequence && s < m.sequence && v < m.dim
    requires forall k: nat | k < m.dim :: product(k) == Times(At(m.c, RowMajor(RowMajor(bh, m.sequence, t), m.dim, k), 0.0),
                                                              At(m.b, RowMajor(RowMajor(bh, m.sequence, s), m.dim, k), 0.0))
    ensures var h := HeadOf(m, bh);
      SourceTerm(exp, h, Row(h.c, h, t), t, s, v)
        == Times(Times(SumTo(product, m.dim), exp(At(m.decay, RowMajor(bh, m.sequence, t), 0.0)
                                                  - At(m.decay, RowMajor(bh, m.sequence, s), 0.0))),
                 At(m.x, RowMajor(RowMajor(bh, m.sequence, s), m.dim, v), 0.0))
  {
    var h := HeadOf(m, bh);
    RowInside(bh, m.heads, m.sequence);
    hide Row, RowMajor, Flat, Times, At, Dot, SumTo;
    RowElement(m.decay, bh, m.sequence, t, 0.0);
    RowElement(m.decay, bh, m.sequence, s, 0.0);
    BufferRow(m, m.x, bh, s, v);
    hide RowOf;
    var query, key := Row(h.c, h, t), Row(h.b, h, s);
    forall k: nat | k < m.dim ensures product(k) == Times(query[k], key[k]) {
      BufferRow(m, m.c, bh, t, k);
      BufferRow(m, m.b, bh, s, k);
    }
    DotSum(query, key, product);
  }

  lemma {:induction false} ExpansionIsSum(exp: real -> real, m: Batch, bh: nat, t: nat, n: nat, v: nat,
                                          product: nat -> nat -> real, term: nat -> real)
    requires ValidBatch(m) && bh < m.heads && t < m.sequence && n <= m.sequence && v < m.dim
    requires Sources(exp, m, bh, t, n, v, product, term)
    ensures var h := HeadOf(m, bh); Expansion(exp, h, Row(h.c, h, t), t, n, v) == SumTo(term, n)
  {
    hide Row, SourceTerm, HeadOf, Sources;
    if n > 0 {
      LastSource(exp, m, bh, t, n, v, product, term);
      ExpansionIsSum(exp, m, bh, t, n - 1, v, product, term);
    }
  }

  lemma LastSource(exp: real -> real, m: Batch, bh: nat, t: nat, n: nat, v: nat, product: nat -> nat -> real,
                   term: nat -> real)
    requires ValidBatch(m) && bh < m.heads && t < m.sequence && 0 < n <= m.sequence && v < m.dim
    requires Sources(exp, m, bh, t, n, v, product, term)
    ensures Sources(exp, m, bh, t, n - 1, v, product, term)
    ensures var h := HeadOf(m, bh); SourceTerm(exp, h, Row(h.c, h, t), t, n - 1, v) == term(n - 1)
  {
    hide Row, SourceTerm, Times, At, RowMajor, HeadOf;
    SourceIs(exp, m, bh, t, n - 1, v, product(n - 1));
  }

  /** term(s) is the inner product of query row t with key row s, decayed from s to t, times the value of s. */
  ghost predicate Sources(exp: real -> real, m: Batch, bh: nat, t: nat, n: nat, v: nat, product: nat -> nat -> real,
                          term: nat -> real)
  {
    && (forall s: nat, k: nat | s < n && k < m.dim ::
          product(s)(k) == Times(At(m.c, RowMajor(RowMajor(bh, m.sequence, t), m.dim, k), 0.0),
                                 At(m.b, RowMajor(RowMajor(bh, m.sequence, s), m.dim, k), 0.0)))
    && forall s: nat | s < n ::
         term(s) == Times(Times(SumTo(product(s), m.dim), exp(At(m.decay, RowMajor(bh, m.sequence, t), 0.0)
                                                              - At(m.decay, RowMajor(bh, m.sequence, s), 0.0))),
                          At(m.x, RowMajor(RowMajor(bh, m.sequence, s), m.dim, v), 0.0))
  }

  /** Every output of the reference and of the kernel, over the buffers of the batch. */
  lemma DualityWrittenOut(exp: real -> real, m: Batch, out: seq<real>, bh: nat, t: nat, v: nat,
                          product: nat -> nat -> real, term: nat -> real)
    requires ValidBatch(m) && HeadsWritten(exp, m, out, m.heads) && bh < m.heads && t < m.sequence && v < m.dim
    requires Sources(exp, m, bh, t, t + 1, v, product, term)
    ensures At(out, RowMajor(RowMajor(bh, m.sequence, t), m.dim, v), 0.0) == SumTo(term, t + 1)
  {
    var h, size := HeadOf(m, bh), HeadSize(m);
    FlatOrder(t, m.sequence, m.dim, v, 0);
    assert HeadWritten(exp, m, out, bh);
    assert WrittenAt(exp, h, RowOf(out, bh, size), t, v);
    hide HeadOf, Row, Expansion, Sources, RowMajor, RowOf, At, Flat;
    ExpansionIsSum(exp, m, bh, t, t + 1, v, product, term);
    FlatFlat(bh, m.sequence, t, m.dim, v);
    RowElement(out, bh, size, Flat(t, m.dim, v), 0.0);
  }
}
