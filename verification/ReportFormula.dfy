/** What each key of a result row holds, read off the finished tree. */
module ReportFormula {
  import opened Options
  import opened JsonText
  import opened JsonWriting
  import opened Report

  /** Under `name` the members hold `value` and nothing else, and they hold nothing there if it is not shown. */
  ghost predicate Holds(members: seq<Member>, name: string, shown: bool, value: Json) {
    forall v :: Member(name, v) in members <==> shown && v == value
  }

  /** A finite float is printed, any other becomes null. */
  function FloatJson(n: Numeric, d: Float): Json {
    if d.Finite? then JNumber(n.g12(d.value)) else JNull
  }

  /** d > 0.0 */
  predicate AboveZero(d: Float) {
    d.PlusInfinity? || (d.Finite? && d.value > 0.0)
  }

  lemma {:induction false} PresentMembers(fields: seq<Field>, m: Member)
    ensures m in Present(fields) <==> exists i :: 0 <= i < |fields| && fields[i] == Field(m.name, Some(m.value))
  {
    if fields != [] {
      var k := |fields| - 1;
      PresentMembers(fields[..k], m);
      assert forall i | 0 <= i < k :: fields[..k][i] == fields[i];
    }
  }

  lemma FieldHolds(fields: seq<Field>, k: nat, shown: bool, value: Json)
    requires k < |fields| && forall j | 0 <= j < |fields| && j != k :: fields[j].name != fields[k].name
    requires fields[k].value == if shown then Some(value) else None
    ensures Holds(Present(fields), fields[k].name, shown, value)
  {
    forall v ensures Member(fields[k].name, v) in Present(fields) <==> shown && v == value {
      PresentMembers(fields, Member(fields[k].name, v));
      hide Present;
      if shown && v == value {
        assert fields[k] == Field(fields[k].name, Some(v));
      }
    }
  }

  /** Field k of a row has the k-th name, and the value if it is shown. */
  ghost predicate FieldIs(r: CaseResult, n: Numeric, k: nat, shown: bool, value: Json) {
    && k < |NAMES| == |Fields(r, n)| && Fields(r, n)[k] == Field(NAMES[k], if shown then Some(value) else None)
  }

  lemma KeyHolds(r: CaseResult, n: Numeric, k: nat, shown: bool, value: Json)
    requires FieldIs(r, n, k, shown, value)
    ensures Holds(RowJson(r, n).members, NAMES[k], shown, value)
  {
    RowNamed(r, n);
    NamesDiffer();
    hide Fields, Holds, Present;
    FieldHolds(Fields(r, n), k, shown, value);
  }

  lemma RowNamed(r: CaseResult, n: Numeric)
    ensures Named(Fields(r, n), |NAMES|)
  {
    HeadNamed(r, n);
    CheckNamed(HeadFields(r, n), r, n);
    TimingNamed(CheckFields(HeadFields(r, n), r, n), r, n);
    RateNamed(TimingFields(CheckFields(HeadFields(r, n), r, n), r, n), r, n);
  }

  /** The parts of a row are consecutive. */
  lemma Parts(r: CaseResult, n: Numeric)
    ensures var head := HeadFields(r, n);
      && Fields(r, n)
         == head + CheckFields([], r, n) + TimingFields([], r, n) + RateFields([], r, n)
      && |head| == 8 && |CheckFields([], r, n)| == 4 && |TimingFields([], r, n)| == 6 && |RateFields([], r, n)| == 3
  {
  }

  lemma CaseIs(r: CaseResult, n: Numeric)
    ensures FieldIs(r, n, 0, true, JNumber(IntText(1)))
    ensures FieldIs(r, n, 1, true, JString(r.decl.kernel))
    ensures FieldIs(r, n, 2, true, JString(r.decl.variant))
    ensures FieldIs(r, n, 3, true, JObject(ShapeMembers(r.decl.shape, n)))
  {
    Parts(r, n);
    RowNamed(r, n);
    var part := HeadFields(r, n);
    assert forall i | 0 <= i < 4 :: Fields(r, n)[0 + i] == part[i];
    assert part[0].value == Some(JNumber(IntText(1)));
    assert part[1].value == Some(JString(r.decl.kernel));
    assert part[2].value == Some(JString(r.decl.variant));
    assert part[3].value == Some(JObject(ShapeMembers(r.decl.shape, n)));
    hide HeadFields, CheckFields, TimingFields, RateFields, Fields;
  }

  lemma StatusIs(r: CaseResult, n: Numeric, notes: string)
    requires notes == if r.error == "" then r.decl.notes
                      else if r.decl.notes == "" then r.error
                      else r.decl.notes + "; " + r.error
    ensures FieldIs(r, n, 4, true, JString(r.decl.dtype))
    ensures FieldIs(r, n, 5, true, if r.decl.format == "" then JNull else JString(r.decl.format))
    ensures FieldIs(r, n, 6, true, JString(r.status))
    ensures FieldIs(r, n, 7, true, JString(notes))
  {
    Parts(r, n);
    RowNamed(r, n);
    var part := HeadFields(r, n)[4..];
    assert forall i | 0 <= i < 4 :: Fields(r, n)[4 + i] == part[i];
    assert part[0].value == Some(JString(r.decl.dtype));
    assert part[1].value == Some(if r.decl.format == "" then JNull else JString(r.decl.format));
    assert part[2].value == Some(JString(r.status));
    assert part[3].value == Some(JString(notes));
    hide HeadFields, CheckFields, TimingFields, RateFields, Fields;
  }

  lemma ChecksAre(r: CaseResult, n: Numeric)
    ensures FieldIs(r, n, 8, r.skipReason != "", JString(r.skipReason))
    ensures FieldIs(r, n, 9, r.checked, JBool(r.check.passed))
    ensures FieldIs(r, n, 10, r.checked, FloatJson(n, r.check.maxAbsErr))
    ensures FieldIs(r, n, 11, r.checked, FloatJson(n, r.check.maxRelErr))
  {
    Parts(r, n);
    RowNamed(r, n);
    var part := CheckFields([], r, n);
    assert forall i | 0 <= i < 4 :: Fields(r, n)[8 + i] == part[i];
    assert part[0].value == if r.skipReason != "" then Some(JString(r.skipReason)) else None;
    assert part[1].value == if r.checked then Some(JBool(r.check.passed)) else None;
    assert part[2].value == if r.checked then Some(FloatJson(n, r.check.maxAbsErr)) else None;
    assert part[3].value == if r.checked then Some(FloatJson(n, r.check.maxRelErr)) else None;
    hide HeadFields, CheckFields, TimingFields, RateFields, Fields;
  }

  lemma TimesAre(r: CaseResult, n: Numeric)
    ensures FieldIs(r, n, 12, r.status == "ok", FloatJson(n, r.timing.ms))
    ensures FieldIs(r, n, 13, r.status == "ok", FloatJson(n, r.timing.p20))
    ensures FieldIs(r, n, 14, r.status == "ok", FloatJson(n, r.timing.p80))
  {
    Parts(r, n);
    RowNamed(r, n);
    var part := TimingFields([], r, n);
    assert forall i | 0 <= i < 3 :: Fields(r, n)[12 + i] == part[i];
    assert part[0].value == if r.status == "ok" then Some(FloatJson(n, r.timing.ms)) else None;
    assert part[1].value == if r.status == "ok" then Some(FloatJson(n, r.timing.p20)) else None;
    assert part[2].value == if r.status == "ok" then Some(FloatJson(n, r.timing.p80)) else None;
    hide HeadFields, CheckFields, TimingFields, RateFields, Fields;
  }

  lemma BatchIs(r: CaseResult, n: Numeric)
    ensures FieldIs(r, n, 15, r.status == "ok", FloatJson(n, n.round4(r.timing.cv)))
    ensures FieldIs(r, n, 16, r.status == "ok", JNumber(IntText(r.timing.batch)))
    ensures FieldIs(r, n, 17, r.status == "ok" && r.baselines != [], JObject(BaselineMembers(r, r.baselines, n)))
  {
    Parts(r, n);
    RowNamed(r, n);
    var part := TimingFields([], r, n)[3..];
    assert forall i | 0 <= i < 3 :: Fields(r, n)[15 + i] == part[i];
    assert part[0].value == if r.status == "ok" then Some(FloatJson(n, n.round4(r.timing.cv))) else None;
    assert part[1].value == if r.status == "ok" then Some(JNumber(IntText(r.timing.batch))) else None;
    assert part[2].value == if r.status == "ok" && r.baselines != []
                            then Some(JObject(BaselineMembers(r, r.baselines, n))) else None;
    hide HeadFields, CheckFields, TimingFields, RateFields, Fields;
  }

  lemma RatesAre(r: CaseResult, n: Numeric)
    ensures FieldIs(r, n, 18, r.status == "ok" && AboveZero(r.gbps), FloatJson(n, r.gbps))
    ensures FieldIs(r, n, 19, r.status == "ok" && AboveZero(r.weightGbps), FloatJson(n, r.weightGbps))
    ensures FieldIs(r, n, 20, r.status == "ok" && AboveZero(r.gflops), FloatJson(n, r.gflops))
  {
    Parts(r, n);
    RowNamed(r, n);
    var part := RateFields([], r, n);
    assert forall i | 0 <= i < 3 :: Fields(r, n)[18 + i] == part[i];
    assert part[0].value == if r.status == "ok" && AboveZero(r.gbps) then Some(FloatJson(n, r.gbps)) else None;
    assert part[1].value == if r.status == "ok" && AboveZero(r.weightGbps) then Some(FloatJson(n, r.weightGbps)) else None;
    assert part[2].value == if r.status == "ok" && AboveZero(r.gflops) then Some(FloatJson(n, r.gflops)) else None;
    hide HeadFields, CheckFields, TimingFields, RateFields, Fields;
  }

  /** What was run; ShapeMembersAre says what the shape holds. */
  lemma CaseHolds(r: CaseResult, n: Numeric)
    ensures var ms := RowJson(r, n).members;
      && Holds(ms, "schema", true, JNumber(IntText(1)))
      && Holds(ms, "kernel", true, JString(r.decl.kernel))
      && Holds(ms, "variant", true, JString(r.decl.variant))
      && Holds(ms, "shape", true, JObject(ShapeMembers(r.decl.shape, n)))
  {
    CaseIs(r, n);
    hide FieldIs, Holds;
    KeyHolds(r, n, 0, true, JNumber(IntText(1)));
    KeyHolds(r, n, 1, true, JString(r.decl.kernel));
    KeyHolds(r, n, 2, true, JString(r.decl.variant));
    KeyHolds(r, n, 3, true, JObject(ShapeMembers(r.decl.shape, n)));
  }

  /** How it went. */
  lemma StatusHolds(r: CaseResult, n: Numeric, notes: string)
    requires notes == if r.error == "" then r.decl.notes
                      else if r.decl.notes == "" then r.error
                      else r.decl.notes + "; " + r.error
    ensures var ms := RowJson(r, n).members;
      && Holds(ms, "dtype", true, JString(r.decl.dtype))
      && Holds(ms, "format", true, if r.decl.format == "" then JNull else JString(r.decl.format))
      && Holds(ms, "status", true, JString(r.status))
      && Holds(ms, "notes", true, JString(notes))
  {
    StatusIs(r, n, notes);
    hide FieldIs, Holds;
    KeyHolds(r, n, 4, true, JString(r.decl.dtype));
    KeyHolds(r, n, 5, true, if r.decl.format == "" then JNull else JString(r.decl.format));
    KeyHolds(r, n, 6, true, JString(r.status));
    KeyHolds(r, n, 7, true, JString(notes));
  }

  /** The check, if there was one. */
  lemma ChecksHold(r: CaseResult, n: Numeric)
    ensures var ms := RowJson(r, n).members;
      && Holds(ms, "skip_reason", r.skipReason != "", JString(r.skipReason))
      && Holds(ms, "check_passed", r.checked, JBool(r.check.passed))
      && Holds(ms, "max_abs_err", r.checked, FloatJson(n, r.check.maxAbsErr))
      && Holds(ms, "max_rel_err", r.checked, FloatJson(n, r.check.maxRelErr))
  {
    ChecksAre(r, n);
    hide FieldIs, Holds;
    KeyHolds(r, n, 8, r.skipReason != "", JString(r.skipReason));
    KeyHolds(r, n, 9, r.checked, JBool(r.check.passed));
    KeyHolds(r, n, 10, r.checked, FloatJson(n, r.check.maxAbsErr));
    KeyHolds(r, n, 11, r.checked, FloatJson(n, r.check.maxRelErr));
  }

  /** The timings of a case that ran. */
  lemma TimesHold(r: CaseResult, n: Numeric)
    ensures var ms := RowJson(r, n).members;
      && Holds(ms, "target_ms", r.status == "ok", FloatJson(n, r.timing.ms))
      && Holds(ms, "target_p20_ms", r.status == "ok", FloatJson(n, r.timing.p20))
      && Holds(ms, "target_p80_ms", r.status == "ok", FloatJson(n, r.timing.p80))
  {
    TimesAre(r, n);
    hide FieldIs, Holds;
    KeyHolds(r, n, 12, r.status == "ok", FloatJson(n, r.timing.ms));
    KeyHolds(r, n, 13, r.status == "ok", FloatJson(n, r.timing.p20));
    KeyHolds(r, n, 14, r.status == "ok", FloatJson(n, r.timing.p80));
  }

  /** The batch and the baselines of a case that ran; BaselineMembersAre and BaselineIs say what these hold. */
  lemma BatchHolds(r: CaseResult, n: Numeric)
    ensures var ms := RowJson(r, n).members;
      && Holds(ms, "target_cv", r.status == "ok", FloatJson(n, n.round4(r.timing.cv)))
      && Holds(ms, "batch", r.status == "ok", JNumber(IntText(r.timing.batch)))
      && Holds(ms, "baselines", r.status == "ok" && r.baselines != [], JObject(BaselineMembers(r, r.baselines, n)))
  {
    BatchIs(r, n);
    hide FieldIs, Holds;
    KeyHolds(r, n, 15, r.status == "ok", FloatJson(n, n.round4(r.timing.cv)));
    KeyHolds(r, n, 16, r.status == "ok", JNumber(IntText(r.timing.batch)));
    KeyHolds(r, n, 17, r.status == "ok" && r.baselines != [], JObject(BaselineMembers(r, r.baselines, n)));
  }

  /** The rates that are above zero. */
  lemma RatesHold(r: CaseResult, n: Numeric)
    ensures var ms := RowJson(r, n).members;
      && Holds(ms, "gbps", r.status == "ok" && AboveZero(r.gbps), FloatJson(n, r.gbps))
      && Holds(ms, "weight_gbps", r.status == "ok" && AboveZero(r.weightGbps), FloatJson(n, r.weightGbps))
      && Holds(ms, "gflops", r.status == "ok" && AboveZero(r.gflops), FloatJson(n, r.gflops))
  {
    RatesAre(r, n);
    hide FieldIs, Holds;
    KeyHolds(r, n, 18, r.status == "ok" && AboveZero(r.gbps), FloatJson(n, r.gbps));
    KeyHolds(r, n, 19, r.status == "ok" && AboveZero(r.weightGbps), FloatJson(n, r.weightGbps));
    KeyHolds(r, n, 20, r.status == "ok" && AboveZero(r.gflops), FloatJson(n, r.gflops));
  }

  /** The shape is an object of the dimensions in their order. */
  lemma {:induction false} ShapeMembersAre(shape: seq<(string, int)>, n: Numeric)
    ensures |ShapeMembers(shape, n)| == |shape|
    ensures forall i | 0 <= i < |shape| ::
      ShapeMembers(shape, n)[i] == Member(shape[i].0, JNumber(IntText(shape[i].1)))
  {
    if shape != [] {
      ShapeMembersAre(shape[..|shape| - 1], n);
    }
  }

  /** A baseline holds its time and that time over the target's, or its error. */
  lemma BaselineIs(r: CaseResult, b: Baseline, n: Numeric)
    ensures BaselineJson(r, b, n)
         == if !b.ok then JObject([Member("error", JString(b.error))])
            else
              var speedup := if AboveZero(r.timing.ms) then n.divide(b.ms, r.timing.ms) else Finite(0.0);
              JObject([Member("ms", FloatJson(n, b.ms)), Member("speedup", FloatJson(n, speedup))])
  {
    if b.ok {
      assert |BaselineJson(r, b, n).members| == 2;
    }
  }

  lemma {:induction false} BaselineMembersAre(r: CaseResult, baselines: seq<Baseline>, n: Numeric)
    ensures |BaselineMembers(r, baselines, n)| == |baselines|
    ensures forall i | 0 <= i < |baselines| ::
      BaselineMembers(r, baselines, n)[i] == Member(baselines[i].name, BaselineJson(r, baselines[i], n))
  {
    hide BaselineJson;
    if baselines != [] {
      BaselineMembersAre(r, baselines[..|baselines| - 1], n);
    }
  }
}
