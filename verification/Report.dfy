/** One results.jsonl row: result_row_json of benchmarks/harness/report.cpp as a client of the writer. */
module Report {
  import opened JsonText
  import opened Options
  import opened JsonParser
  import opened JsonWriting

  datatype Decl = Decl(kernel: string, variant: string, shape: seq<(string, int)>, dtype: string,
                       format: string, notes: string)

  datatype Check = Check(passed: bool, maxAbsErr: Float, maxRelErr: Float)

  datatype Timing = Timing(ms: Float, p20: Float, p80: Float, cv: Float, batch: int)

  datatype Baseline = Baseline(name: string, ok: bool, ms: Float, error: string)

  datatype CaseResult = CaseResult(decl: Decl, status: string, skipReason: string, error: string,
                                   checked: bool, check: Check, timing: Timing,
                                   baselines: seq<Baseline>, gbps: Float, weightGbps: Float,
                                   gflops: Float)

  /** Float arithmetic and "%.12g", which the row only passes through. */
  datatype Numeric = Numeric(g12: real -> string, round4: Float -> Float,
                             divide: (Float, Float) -> Float)

  ghost predicate PrintsNumbers(n: Numeric) {
    forall r: real :: IsNumber(n.g12(r))
  }

  predicate Positive(d: Float) {
    match d
    case Finite(value) => value > 0.0
    case _ => d.PlusInfinity?
  }

  // ---------- the tree that a row stands for ----------

  /** A row field; some branches leave it out. */
  datatype Field = Field(name: string, value: Option<Json>)

  function Given(name: string, v: Value, n: Numeric): Field {
    Field(name, Some(ValueJson(v, n.g12)))
  }

  function GivenIf(shown: bool, name: string, v: Value, n: Numeric): Field {
    if shown then Given(name, v, n) else Field(name, None)
  }

  function ShapeMembers(shape: seq<(string, int)>, n: Numeric): seq<Member> {
    if shape == [] then []
    else
      var last := shape[|shape| - 1];
      ShapeMembers(shape[..|shape| - 1], n) + [Member(last.0, ValueJson(Count(last.1), n.g12))]
  }

  function ShapeField(r: CaseResult, n: Numeric): Field {
    Field("shape", Some(JObject(ShapeMembers(r.decl.shape, n))))
  }

  function Notes(r: CaseResult): string {
    if r.error == "" then r.decl.notes
    else if r.decl.notes == "" then r.error
    else r.decl.notes + "; " + r.error
  }

  function Speedup(r: CaseResult, b: Baseline, n: Numeric): Float {
    if Positive(r.timing.ms) then n.divide(b.ms, r.timing.ms) else Finite(0.0)
  }

  function BaselineJson(r: CaseResult, b: Baseline, n: Numeric): Json {
    if b.ok then
      JObject([] + [Member("ms", ValueJson(Number(b.ms), n.g12))]
                 + [Member("speedup", ValueJson(Number(Speedup(r, b, n)), n.g12))])
    else
      JObject([] + [Member("error", JString(b.error))])
  }

  function BaselineMembers(r: CaseResult, baselines: seq<Baseline>, n: Numeric): seq<Member> {
    if baselines == [] then []
    else
      var last := baselines[|baselines| - 1];
      BaselineMembers(r, baselines[..|baselines| - 1], n) + [Member(last.name, BaselineJson(r, last, n))]
  }

  function BaselinesField(r: CaseResult, n: Numeric): Field {
    Field("baselines", if r.status == "ok" && r.baselines != []
                       then Some(JObject(BaselineMembers(r, r.baselines, n))) else None)
  }

  function HeadFields(r: CaseResult, n: Numeric): seq<Field> {
    []
    + [Given("schema", Count(1), n)]
    + [Given("kernel", Str(r.decl.kernel), n)]
    + [Given("variant", Str(r.decl.variant), n)]
    + [ShapeField(r, n)]
    + [Given("dtype", Str(r.decl.dtype), n)]
    + [Given("format", if r.decl.format == "" then Nothing else Str(r.decl.format), n)]
    + [Given("status", Str(r.status), n)]
    + [Given("notes", Str(Notes(r)), n)]
  }

  function CheckFields(before: seq<Field>, r: CaseResult, n: Numeric): seq<Field> {
    before
    + [GivenIf(r.skipReason != "", "skip_reason", Str(r.skipReason), n)]
    + [GivenIf(r.checked, "check_passed", Flag(r.check.passed), n)]
    + [GivenIf(r.checked, "max_abs_err", Number(r.check.maxAbsErr), n)]
    + [GivenIf(r.checked, "max_rel_err", Number(r.check.maxRelErr), n)]
  }

  function TimingFields(before: seq<Field>, r: CaseResult, n: Numeric): seq<Field> {
    before
    + [GivenIf(r.status == "ok", "target_ms", Number(r.timing.ms), n)]
    + [GivenIf(r.status == "ok", "target_p20_ms", Number(r.timing.p20), n)]
    + [GivenIf(r.status == "ok", "target_p80_ms", Number(r.timing.p80), n)]
    + [GivenIf(r.status == "ok", "target_cv", Number(n.round4(r.timing.cv)), n)]
    + [GivenIf(r.status == "ok", "batch", Count(r.timing.batch), n)]
    + [BaselinesField(r, n)]
  }

  function RateFields(before: seq<Field>, r: CaseResult, n: Numeric): seq<Field> {
    before
    + [GivenIf(r.status == "ok" && Positive(r.gbps), "gbps", Number(r.gbps), n)]
    + [GivenIf(r.status == "ok" && Positive(r.weightGbps), "weight_gbps", Number(r.weightGbps), n)]
    + [GivenIf(r.status == "ok" && Positive(r.gflops), "gflops", Number(r.gflops), n)]
  }

  /** The fields of a row, in the order in which they are written. */
  function Fields(r: CaseResult, n: Numeric): seq<Field> {
    RateFields(TimingFields(CheckFields(HeadFields(r, n), r, n), r, n), r, n)
  }

  function Show(f: Field): seq<Member> {
    if f.value.Some? then [Member(f.name, f.value.value)] else []
  }

  function Present(fields: seq<Field>): seq<Member> {
    if fields == [] then [] else Present(fields[..|fields| - 1]) + Show(fields[|fields| - 1])
  }

  function RowJson(r: CaseResult, n: Numeric): Json {
    JObject(Present(Fields(r, n)))
  }

  lemma PresentSnoc(fields: seq<Field>, f: Field)
    ensures Present(fields + [f]) == Present(fields) + Show(f)
  {
    assert (fields + [f])[..|fields|] == fields;
  }

  // ---------- the row writer ----------

  /** The innermost open container is an object that holds the given members. */
  ghost predicate InObject(w: JsonWriter, below: Stack, members: seq<Member>)
    reads w
  {
    w.Valid() && w.doc == Building(Push(below, ObjectFrame(members, None)))
  }

  /** The top-level object is open and holds the present ones of the given fields. */
  ghost predicate At(w: JsonWriter, fields: seq<Field>)
    reads w
  {
    InObject(w, Bottom, Present(fields))
  }

  method PutMember(w: JsonWriter, name: string, v: Value, n: Numeric, ghost below: Stack, ghost ms: seq<Member>)
    requires InObject(w, below, ms)
    modifies w
    ensures InObject(w, below, ms + [Member(name, ValueJson(v, n.g12))])
  {
    w.Key(name);
    w.Val(v, n.g12);
  }

  method BeginMember(w: JsonWriter, name: string, ghost below: Stack, ghost ms: seq<Member>)
    requires InObject(w, below, ms)
    modifies w
    ensures InObject(w, Push(below, ObjectFrame(ms, Some(name))), [])
  {
    w.Key(name);
    w.BeginObj();
  }

  method EndMember(w: JsonWriter, ghost below: Stack, ghost ms: seq<Member>, ghost name: string,
                   ghost inner: seq<Member>)
    requires InObject(w, Push(below, ObjectFrame(ms, Some(name))), inner)
    modifies w
    ensures InObject(w, below, ms + [Member(name, JObject(inner))])
  {
    w.EndObj();
  }

  method ResultRowJson(r: CaseResult, n: Numeric) returns (row: string)
    requires PrintsNumbers(n)
    ensures row == Render(RowJson(r, n))
    ensures ParseText(row) == Some(RowJson(r, n))
  {
    var w := new JsonWriter();
    w.BeginObj();
    PutHead(w, r, n);
    ghost var fields := HeadFields(r, n);
    if r.skipReason != "" {
      Put(w, "skip_reason", Str(r.skipReason), n, fields);
    } else {
      Skip(w, fields, "skip_reason");
    }
    PutChecks(w, r, n, fields);
    fields := CheckFields(fields, r, n);
    if r.status == "ok" {
      PutTimings(w, r, n, fields);
      fields := TimingFields(fields, r, n);
      PutRates(w, r, n, fields);
    } else {
      NoTimings(w, r, n, fields);
    }
    row := Finish(w, r, n);
  }

  method Finish(w: JsonWriter, r: CaseResult, n: Numeric) returns (row: string)
    requires PrintsNumbers(n) && At(w, Fields(r, n))
    modifies w
    ensures row == Render(RowJson(r, n))
    ensures ParseText(row) == Some(RowJson(r, n))
  {
    w.EndObj();
    RowWellFormed(r, n);
    row := w.Result();
  }

  /** One key with its value. */
  method Put(w: JsonWriter, name: string, v: Value, n: Numeric, ghost before: seq<Field>)
    requires At(w, before)
    modifies w
    ensures At(w, before + [Given(name, v, n)])
  {
    PutMember(w, name, v, n, Bottom, Present(before));
    PresentSnoc(before, Given(name, v, n));
  }

  lemma Skip(w: JsonWriter, before: seq<Field>, name: string)
    requires At(w, before)
    ensures At(w, before + [Field(name, None)])
  {
    PresentSnoc(before, Field(name, None));
  }

  method PutHead(w: JsonWriter, r: CaseResult, n: Numeric)
    requires At(w, [])
    modifies w
    ensures At(w, HeadFields(r, n))
  {
    ghost var fs: seq<Field> := [];
    Put(w, "schema", Count(1), n, fs);
    fs := fs + [Given("schema", Count(1), n)];
    Put(w, "kernel", Str(r.decl.kernel), n, fs);
    fs := fs + [Given("kernel", Str(r.decl.kernel), n)];
    Put(w, "variant", Str(r.decl.variant), n, fs);
    fs := fs + [Given("variant", Str(r.decl.variant), n)];
    PutShape(w, r, n, fs);
    fs := fs + [ShapeField(r, n)];
    Put(w, "dtype", Str(r.decl.dtype), n, fs);
    fs := fs + [Given("dtype", Str(r.decl.dtype), n)];
    var format := if r.decl.format == "" then Nothing else Str(r.decl.format);
    Put(w, "format", format, n, fs);
    fs := fs + [Given("format", format, n)];
    Put(w, "status", Str(r.status), n, fs);
    fs := fs + [Given("status", Str(r.status), n)];
    if r.error == "" {
      Put(w, "notes", Str(r.decl.notes), n, fs);
    } else {
      Put(w, "notes", Str(if r.decl.notes == "" then r.error else r.decl.notes + "; " + r.error), n, fs);
    }
  }

  method PutShape(w: JsonWriter, r: CaseResult, n: Numeric, ghost before: seq<Field>)
    requires At(w, before)
    modifies w
    ensures At(w, before + [ShapeField(r, n)])
  {
    ghost var outer := Present(before);
    ghost var below := Push(Bottom, ObjectFrame(outer, Some("shape")));
    BeginMember(w, "shape", Bottom, outer);
    for i := 0 to |r.decl.shape|
      invariant InObject(w, below, ShapeMembers(r.decl.shape[..i], n))
    {
      PutMember(w, r.decl.shape[i].0, Count(r.decl.shape[i].1), n, below, ShapeMembers(r.decl.shape[..i], n));
      assert r.decl.shape[..i + 1][..i] == r.decl.shape[..i];
    }
    assert r.decl.shape[..|r.decl.shape|] == r.decl.shape;
    EndMember(w, Bottom, outer, "shape", ShapeMembers(r.decl.shape, n));
    PresentSnoc(before, ShapeField(r, n));
  }

  method PutChecks(w: JsonWriter, r: CaseResult, n: Numeric, ghost before: seq<Field>)
    requires At(w, before + [GivenIf(r.skipReason != "", "skip_reason", Str(r.skipReason), n)])
    modifies w
    ensures At(w, CheckFields(before, r, n))
  {
    ghost var fs := before + [GivenIf(r.skipReason != "", "skip_reason", Str(r.skipReason), n)];
    if r.checked {
      Put(w, "check_passed", Flag(r.check.passed), n, fs);
      fs := fs + [Given("check_passed", Flag(r.check.passed), n)];
      Put(w, "max_abs_err", Number(r.check.maxAbsErr), n, fs);
      fs := fs + [Given("max_abs_err", Number(r.check.maxAbsErr), n)];
      Put(w, "max_rel_err", Number(r.check.maxRelErr), n, fs);
    } else {
      Skip(w, fs, "check_passed");
      fs := fs + [Field("check_passed", None)];
      Skip(w, fs, "max_abs_err");
      fs := fs + [Field("max_abs_err", None)];
      Skip(w, fs, "max_rel_err");
    }
  }

  method PutTimings(w: JsonWriter, r: CaseResult, n: Numeric, ghost before: seq<Field>)
    requires At(w, before) && r.status == "ok"
    modifies w
    ensures At(w, TimingFields(before, r, n))
  {
    ghost var fs := before;
    Put(w, "target_ms", Number(r.timing.ms), n, fs);
    fs := fs + [Given("target_ms", Number(r.timing.ms), n)];
    Put(w, "target_p20_ms", Number(r.timing.p20), n, fs);
    fs := fs + [Given("target_p20_ms", Number(r.timing.p20), n)];
    Put(w, "target_p80_ms", Number(r.timing.p80), n, fs);
    fs := fs + [Given("target_p80_ms", Number(r.timing.p80), n)];
    Put(w, "target_cv", Number(n.round4(r.timing.cv)), n, fs);
    fs := fs + [Given("target_cv", Number(n.round4(r.timing.cv)), n)];
    Put(w, "batch", Count(r.timing.batch), n, fs);
    fs := fs + [Given("batch", Count(r.timing.batch), n)];
    if r.baselines != [] {
      PutBaselines(w, r, n, fs);
    } else {
      Skip(w, fs, "baselines");
    }
  }

  method PutBaselines(w: JsonWriter, r: CaseResult, n: Numeric, ghost before: seq<Field>)
    requires At(w, before) && r.status == "ok" && r.baselines != []
    modifies w
    ensures At(w, before + [BaselinesField(r, n)])
  {
    ghost var outer := Present(before);
    ghost var below := Push(Bottom, ObjectFrame(outer, Some("baselines")));
    BeginMember(w, "baselines", Bottom, outer);
    PutEachBaseline(w, r, n, below);
    EndMember(w, Bottom, outer, "baselines", BaselineMembers(r, r.baselines, n));
    PresentSnoc(before, BaselinesField(r, n));
  }

  method PutEachBaseline(w: JsonWriter, r: CaseResult, n: Numeric, ghost below: Stack)
    requires InObject(w, below, [])
    modifies w
    ensures InObject(w, below, BaselineMembers(r, r.baselines, n))
  {
    for i := 0 to |r.baselines|
      invariant InObject(w, below, BaselineMembers(r, r.baselines[..i], n))
    {
      PutBaseline(w, r, r.baselines[i], n, below, BaselineMembers(r, r.baselines[..i], n));
      assert r.baselines[..i + 1][..i] == r.baselines[..i];
    }
    assert r.baselines[..|r.baselines|] == r.baselines;
  }

  method PutBaseline(w: JsonWriter, r: CaseResult, b: Baseline, n: Numeric,
                     ghost below: Stack, ghost outer: seq<Member>)
    requires InObject(w, below, outer)
    modifies w
    ensures InObject(w, below, outer + [Member(b.name, BaselineJson(r, b, n))])
  {
    ghost var inner := Push(below, ObjectFrame(outer, Some(b.name)));
    BeginMember(w, b.name, below, outer);
    if b.ok {
      PutMember(w, "ms", Number(b.ms), n, inner, []);
      var speedup := if Positive(r.timing.ms) then n.divide(b.ms, r.timing.ms) else Finite(0.0);
      PutMember(w, "speedup", Number(speedup), n, inner, [] + [Member("ms", ValueJson(Number(b.ms), n.g12))]);
    } else {
      PutMember(w, "error", Str(b.error), n, inner, []);
    }
    EndMember(w, below, outer, b.name, BaselineJson(r, b, n).members);
  }

  method PutRates(w: JsonWriter, r: CaseResult, n: Numeric, ghost before: seq<Field>)
    requires At(w, before) && r.status == "ok"
    modifies w
    ensures At(w, RateFields(before, r, n))
  {
    ghost var fs := before;
    if Positive(r.gbps) {
      Put(w, "gbps", Number(r.gbps), n, fs);
    } else {
      Skip(w, fs, "gbps");
    }
    fs := fs + [GivenIf(Positive(r.gbps), "gbps", Number(r.gbps), n)];
    if Positive(r.weightGbps) {
      Put(w, "weight_gbps", Number(r.weightGbps), n, fs);
    } else {
      Skip(w, fs, "weight_gbps");
    }
    fs := fs + [GivenIf(Positive(r.weightGbps), "weight_gbps", Number(r.weightGbps), n)];
    if Positive(r.gflops) {
      Put(w, "gflops", Number(r.gflops), n, fs);
    } else {
      Skip(w, fs, "gflops");
    }
  }

  lemma NoTimings(w: JsonWriter, r: CaseResult, n: Numeric, before: seq<Field>)
    requires At(w, before) && r.status != "ok"
    ensures At(w, RateFields(TimingFields(before, r, n), r, n))
  {
    var fs := before;
    Skip(w, fs, "target_ms");
    fs := fs + [Field("target_ms", None)];
    Skip(w, fs, "target_p20_ms");
    fs := fs + [Field("target_p20_ms", None)];
    Skip(w, fs, "target_p80_ms");
    fs := fs + [Field("target_p80_ms", None)];
    Skip(w, fs, "target_cv");
    fs := fs + [Field("target_cv", None)];
    Skip(w, fs, "batch");
    fs := fs + [Field("batch", None)];
    Skip(w, fs, "baselines");
    fs := fs + [Field("baselines", None)];
    Skip(w, fs, "gbps");
    fs := fs + [Field("gbps", None)];
    Skip(w, fs, "weight_gbps");
    fs := fs + [Field("weight_gbps", None)];
    Skip(w, fs, "gflops");
  }

  // ---------- what a row always is ----------

  predicate AllWellFormed(members: seq<Member>) {
    forall i | 0 <= i < |members| :: WellFormed(members[i].value)
  }

  predicate FieldWellFormed(f: Field) {
    f.value.Some? ==> WellFormed(f.value.value)
  }

  lemma ValueWellFormed(v: Value, n: Numeric)
    requires PrintsNumbers(n)
    ensures WellFormed(ValueJson(v, n.g12))
  {
    if v.Count? {
      IntTextIsNumber(v.i);
    }
  }

  lemma {:induction false} ShapeWellFormed(shape: seq<(string, int)>, n: Numeric)
    requires PrintsNumbers(n)
    ensures AllWellFormed(ShapeMembers(shape, n))
  {
    if shape != [] {
      ShapeWellFormed(shape[..|shape| - 1], n);
      ValueWellFormed(Count(shape[|shape| - 1].1), n);
    }
  }

  lemma {:induction false} BaselinesWellFormed(r: CaseResult, baselines: seq<Baseline>, n: Numeric)
    requires PrintsNumbers(n)
    ensures AllWellFormed(BaselineMembers(r, baselines, n))
  {
    if baselines != [] {
      var b := baselines[|baselines| - 1];
      BaselinesWellFormed(r, baselines[..|baselines| - 1], n);
      ValueWellFormed(Number(b.ms), n);
      ValueWellFormed(Number(Speedup(r, b, n)), n);
    }
  }

  ghost predicate FieldsWellFormed(fields: seq<Field>) {
    forall i | 0 <= i < |fields| :: FieldWellFormed(fields[i])
  }

  lemma {:induction false} PresentWellFormed(fields: seq<Field>)
    requires FieldsWellFormed(fields)
    ensures AllWellFormed(Present(fields))
  {
    if fields != [] {
      PresentWellFormed(fields[..|fields| - 1]);
    }
  }

  lemma MoreWellFormed(fields: seq<Field>, f: Field)
    requires FieldsWellFormed(fields) && FieldWellFormed(f)
    ensures FieldsWellFormed(fields + [f])
  {
  }

  lemma MoreGiven(fields: seq<Field>, shown: bool, name: string, v: Value, n: Numeric)
    requires PrintsNumbers(n) && FieldsWellFormed(fields)
    ensures FieldsWellFormed(fields + [GivenIf(shown, name, v, n)])
    ensures FieldsWellFormed(fields + [Given(name, v, n)])
  {
    ValueWellFormed(v, n);
  }

  lemma HeadWellFormed(r: CaseResult, n: Numeric)
    requires PrintsNumbers(n)
    ensures FieldsWellFormed(HeadFields(r, n))
  {
    var fs: seq<Field> := [];
    MoreGiven(fs, true, "schema", Count(1), n);
    fs := fs + [Given("schema", Count(1), n)];
    MoreGiven(fs, true, "kernel", Str(r.decl.kernel), n);
    fs := fs + [Given("kernel", Str(r.decl.kernel), n)];
    MoreGiven(fs, true, "variant", Str(r.decl.variant), n);
    fs := fs + [Given("variant", Str(r.decl.variant), n)];
    ShapeWellFormed(r.decl.shape, n);
    MoreWellFormed(fs, ShapeField(r, n));
    fs := fs + [ShapeField(r, n)];
    MoreGiven(fs, true, "dtype", Str(r.decl.dtype), n);
    fs := fs + [Given("dtype", Str(r.decl.dtype), n)];
    var format := if r.decl.format == "" then Nothing else Str(r.decl.format);
    MoreGiven(fs, true, "format", format, n);
    fs := fs + [Given("format", format, n)];
    MoreGiven(fs, true, "status", Str(r.status), n);
    fs := fs + [Given("status", Str(r.status), n)];
    MoreGiven(fs, true, "notes", Str(Notes(r)), n);
  }

  lemma CheckWellFormed(before: seq<Field>, r: CaseResult, n: Numeric)
    requires PrintsNumbers(n) && FieldsWellFormed(before)
    ensures FieldsWellFormed(CheckFields(before, r, n))
    ensures FieldsWellFormed(RateFields(before, r, n))
  {
    forall fields, shown, name, v | FieldsWellFormed(fields)
      ensures FieldsWellFormed(fields + [GivenIf(shown, name, v, n)])
    {
      MoreGiven(fields, shown, name, v, n);
    }
  }

  lemma TimingWellFormed(before: seq<Field>, r: CaseResult, n: Numeric)
    requires PrintsNumbers(n) && FieldsWellFormed(before)
    ensures FieldsWellFormed(TimingFields(before, r, n))
  {
    var fs, ok := before, r.status == "ok";
    MoreGiven(fs, ok, "target_ms", Number(r.timing.ms), n);
    fs := fs + [GivenIf(ok, "target_ms", Number(r.timing.ms), n)];
    MoreGiven(fs, ok, "target_p20_ms", Number(r.timing.p20), n);
    fs := fs + [GivenIf(ok, "target_p20_ms", Number(r.timing.p20), n)];
    MoreGiven(fs, ok, "target_p80_ms", Number(r.timing.p80), n);
    fs := fs + [GivenIf(ok, "target_p80_ms", Number(r.timing.p80), n)];
    MoreGiven(fs, ok, "target_cv", Number(n.round4(r.timing.cv)), n);
    fs := fs + [GivenIf(ok, "target_cv", Number(n.round4(r.timing.cv)), n)];
    MoreGiven(fs, ok, "batch", Count(r.timing.batch), n);
    fs := fs + [GivenIf(ok, "batch", Count(r.timing.batch), n)];
    BaselinesWellFormed(r, r.baselines, n);
    MoreWellFormed(fs, BaselinesField(r, n));
  }

  lemma RowWellFormed(r: CaseResult, n: Numeric)
    requires PrintsNumbers(n)
    ensures WellFormed(RowJson(r, n))
  {
    HeadWellFormed(r, n);
    CheckWellFormed(HeadFields(r, n), r, n);
    TimingWellFormed(CheckFields(HeadFields(r, n), r, n), r, n);
    CheckWellFormed(TimingFields(CheckFields(HeadFields(r, n), r, n), r, n), r, n);
    PresentWellFormed(Fields(r, n));
  }

  predicate DistinctNames(members: seq<Member>) {
    forall i, j | 0 <= i < j < |members| :: members[i].name != members[j].name
  }

  lemma {:induction false} PresentNames(fields: seq<Field>)
    requires forall i, j | 0 <= i < j < |fields| :: fields[i].name != fields[j].name
    ensures DistinctNames(Present(fields))
    ensures forall i | 0 <= i < |Present(fields)| ::
      exists j :: 0 <= j < |fields| && fields[j].name == Present(fields)[i].name
  {
    if fields != [] {
      var n := |fields| - 1;
      var ms := Present(fields[..n]);
      PresentNames(fields[..n]);
      forall i | 0 <= i < |ms| ensures exists j :: 0 <= j < n && fields[j].name == ms[i].name {
        var j :| 0 <= j < n && fields[..n][j].name == ms[i].name;
        assert fields[j].name == ms[i].name;
      }
      if fields[n].value.Some? {
        assert Present(fields) == ms + [Member(fields[n].name, fields[n].value.value)];
        assert Present(fields)[|ms|].name == fields[n].name;
      }
    }
  }

  /**
   Tells the field names of a row apart: their length and three of their characters. The solver knows two string
   literals to be different only at a position that is pointed out to it; comparing one number per name saves pointing
   one out for each of the 210 pairs. CODES is the table of these numbers.
   */
  function Code(name: string): int
    requires |name| > 1
  {
    |name| + 100 * name[1] as int
    + (if |name| > 4 then 100_000 * name[4] as int else 0)
    + (if |name| > 8 then 100_000_000 * name[8] as int else 0)
  }

  const NAMES: seq<string> := [
    "schema", "kernel", "variant", "shape", "dtype", "format", "status", "notes",
    "skip_reason", "check_passed", "max_abs_err", "max_rel_err",
    "target_ms", "target_p20_ms", "target_p80_ms", "target_cv", "batch", "baselines",
    "gbps", "weight_gbps", "gflops"]

  const CODES: seq<int> := [
    10909906, 10110106, 9709707, 10110405, 10111605, 9711106, 11711606, 11511105, 11509510711, 11510710412,
    10109709711, 10111409711, 11510109709, 5010109713, 5610109713, 11810109709, 10409705, 11510809709, 9804,
    9810410111, 11210206]

  lemma FirstNameCodes()
    ensures forall i | 0 <= i < 7 :: |NAMES[i]| > 1 && Code(NAMES[i]) == CODES[i]
  {
    assert Code(NAMES[0]) == CODES[0];
    assert Code(NAMES[1]) == CODES[1];
    assert Code(NAMES[2]) == CODES[2];
    assert Code(NAMES[3]) == CODES[3];
    assert Code(NAMES[4]) == CODES[4];
    assert Code(NAMES[5]) == CODES[5];
    assert Code(NAMES[6]) == CODES[6];
  }

  lemma MiddleNameCodes()
    ensures forall i | 7 <= i < 14 :: |NAMES[i]| > 1 && Code(NAMES[i]) == CODES[i]
  {
    assert Code(NAMES[7]) == CODES[7];
    assert Code(NAMES[8]) == CODES[8];
    assert Code(NAMES[9]) == CODES[9];
    assert Code(NAMES[10]) == CODES[10];
    assert Code(NAMES[11]) == CODES[11];
    assert Code(NAMES[12]) == CODES[12];
    assert Code(NAMES[13]) == CODES[13];
  }

  lemma LastNameCodes()
    ensures forall i | 14 <= i < 21 :: |NAMES[i]| > 1 && Code(NAMES[i]) == CODES[i]
  {
    assert Code(NAMES[14]) == CODES[14];
    assert Code(NAMES[15]) == CODES[15];
    assert Code(NAMES[16]) == CODES[16];
    assert Code(NAMES[17]) == CODES[17];
    assert Code(NAMES[18]) == CODES[18];
    assert Code(NAMES[19]) == CODES[19];
    assert Code(NAMES[20]) == CODES[20];
  }

  lemma NamesDiffer()
    ensures forall i, j | 0 <= i < j < |NAMES| :: NAMES[i] != NAMES[j]
  {
    FirstNameCodes();
    MiddleNameCodes();
    LastNameCodes();
    hide Code;
    CodesDiffer();
  }

  lemma CodesDiffer()
    ensures forall i, j | 0 <= i < j < |CODES| :: CODES[i] != CODES[j]
  {
  }

  /** The fields start like the list of names. */
  ghost predicate Named(fields: seq<Field>, k: nat) {
    k <= |NAMES| && |fields| == k && forall i | 0 <= i < k :: fields[i].name == NAMES[i]
  }

  lemma MoreNamed(k: nat)
    requires k < |NAMES|
    ensures forall fields: seq<Field>, f: Field :: Named(fields, k) && f.name == NAMES[k] ==> Named(fields + [f], k + 1)
  {
  }

  lemma HeadNamed(r: CaseResult, n: Numeric)
    ensures Named(HeadFields(r, n), 8)
  {
    assert Named([], 0);
    forall k: nat | k < 8 { MoreNamed(k); }
  }

  lemma CheckNamed(before: seq<Field>, r: CaseResult, n: Numeric)
    requires Named(before, 8)
    ensures Named(CheckFields(before, r, n), 12)
  {
    forall k: nat | 8 <= k < 12 { MoreNamed(k); }
  }

  lemma TimingNamed(before: seq<Field>, r: CaseResult, n: Numeric)
    requires Named(before, 12)
    ensures Named(TimingFields(before, r, n), 18)
  {
    forall k: nat | 12 <= k < 18 { MoreNamed(k); }
  }

  lemma RateNamed(before: seq<Field>, r: CaseResult, n: Numeric)
    requires Named(before, 18)
    ensures Named(RateFields(before, r, n), 21)
  {
    forall k: nat | 18 <= k < 21 { MoreNamed(k); }
  }

  /** No top-level key occurs twice. */
  lemma RowNames(r: CaseResult, n: Numeric)
    ensures DistinctNames(RowJson(r, n).members)
  {
    HeadNamed(r, n);
    CheckNamed(HeadFields(r, n), r, n);
    TimingNamed(CheckFields(HeadFields(r, n), r, n), r, n);
    RateNamed(TimingFields(CheckFields(HeadFields(r, n), r, n), r, n), r, n);
    NamesDiffer();
    PresentNames(Fields(r, n));
  }

  // ---------- a file of rows ----------

  /** Length of the first line. */
  function LineLength(s: string): (n: nat)
    ensures n <= |s|
  {
    if s == [] || s[0] == '\n' then 0 else 1 + LineLength(s[1..])
  }

  /** Splits a text into its lines; a text need not end with a line break. */
  function Lines(s: string): seq<string>
    decreases |s|
  {
    var n := LineLength(s);
    if s == [] then [] else if n == |s| then [s] else [s[..n]] + Lines(s[n + 1..])
  }

  function Jsonl(rows: seq<string>): string {
    if rows == [] then "" else rows[0] + "\n" + Jsonl(rows[1..])
  }

  lemma {:induction false} LineLengthStops(line: string, rest: string)
    requires '\n' !in line
    ensures LineLength(line + "\n" + rest) == |line|
  {
    var s := line + "\n" + rest;
    if line != [] {
      assert s[1..] == line[1..] + "\n" + rest;
      LineLengthStops(line[1..], rest);
    }
  }

  lemma {:induction false} LinesOfJsonl(rows: seq<string>)
    requires forall i | 0 <= i < |rows| :: '\n' !in rows[i]
    ensures Lines(Jsonl(rows)) == rows
  {
    if rows != [] {
      var rest := Jsonl(rows[1..]);
      var s := rows[0] + "\n" + rest;
      LineLengthStops(rows[0], rest);
      assert s[..|rows[0]|] == rows[0] && s[|rows[0]| + 1..] == rest;
      LinesOfJsonl(rows[1..]);
      assert [rows[0]] + rows[1..] == rows;
    }
  }

  function RowTexts(results: seq<CaseResult>, n: Numeric): seq<string> {
    seq(|results|, i requires 0 <= i < |results| => Render(RowJson(results[i], n)))
  }

  lemma RowNoControl(r: CaseResult, n: Numeric)
    requires PrintsNumbers(n)
    ensures NoControl(Render(RowJson(r, n)))
  {
    RowWellFormed(r, n);
    RenderNoControl(RowJson(r, n));
  }

  /** Splitting the file at line breaks gives exactly the rows, and each row parses to its tree. */
  lemma FileReadsBack(results: seq<CaseResult>, n: Numeric)
    requires PrintsNumbers(n)
    ensures Lines(Jsonl(RowTexts(results, n))) == RowTexts(results, n)
    ensures forall i | 0 <= i < |results| ::
      ParseText(RowTexts(results, n)[i]) == Some(RowJson(results[i], n))
  {
    var rows := RowTexts(results, n);
    forall i | 0 <= i < |rows|
      ensures '\n' !in rows[i] && ParseText(rows[i]) == Some(RowJson(results[i], n))
    {
      RowNoControl(results[i], n);
      RowWellFormed(results[i], n);
      TextRoundTrip(RowJson(results[i], n));
    }
    LinesOfJsonl(rows);
  }

  lemma {:induction false} JsonlSnoc(rows: seq<string>, row: string)
    ensures Jsonl(rows + [row]) == Jsonl(rows) + row + "\n"
  {
    if rows == [] {
      assert [row][1..] == [];
    } else {
      assert (rows + [row])[1..] == rows[1..] + [row];
      JsonlSnoc(rows[1..], row);
    }
  }

  lemma OneMoreRow(results: seq<CaseResult>, i: nat, n: Numeric)
    requires i < |results|
    ensures Jsonl(RowTexts(results[..i + 1], n))
         == Jsonl(RowTexts(results[..i], n)) + Render(RowJson(results[i], n)) + "\n"
  {
    hide Render, RowJson;
    var rows := RowTexts(results[..i], n);
    JsonlSnoc(rows, Render(RowJson(results[i], n)));
    assert RowTexts(results[..i + 1], n) == rows + [Render(RowJson(results[i], n))];
  }

  /** The rows of a run, each followed by a line break. */
  method WriteRows(results: seq<CaseResult>, n: Numeric) returns (jsonl: string)
    requires PrintsNumbers(n)
    ensures jsonl == Jsonl(RowTexts(results, n))
    ensures Lines(jsonl) == RowTexts(results, n)
  {
    jsonl := "";
    for i := 0 to |results|
      invariant jsonl == Jsonl(RowTexts(results[..i], n))
    {
      var row := ResultRowJson(results[i], n);
      jsonl := jsonl + row + "\n";
      OneMoreRow(results, i, n);
    }
    assert results[..|results|] == results;
    FileReadsBack(results, n);
  }
}
