/**
 The append-only writer of benchmarks/harness/json_writer.h: a class over an output string, a stack
 of "no child yet" flags and a pending-key flag, proved against the tree that its calls build.
 */
module JsonWriting {
  import opened JsonText
  import opened Options
  import opened JsonParser

  // ---------- what the writer stores ----------

  datatype Text = Text(out: string, first: seq<bool>, haveKey: bool)

  const EMPTY_TEXT := Text("", [], false)

  datatype Call =
    | BeginObj
    | EndObj
    | BeginArr
    | EndArr
    | Key(k: string)
    | Scalar(v: Json)

  /** Separator handling in front of a value. */
  function ValuePrefix(t: Text): Text {
    if t.haveKey then t.(haveKey := false)
    else if t.first == [] then t
    else
      var n := |t.first| - 1;
      Text(t.out + Separator(t.first[n]), t.first[..n] + [false], false)
  }

  function KeyPrefix(t: Text): Text {
    if t.first == [] then t
    else
      var n := |t.first| - 1;
      Text(t.out + Separator(t.first[n]), t.first[..n] + [false], t.haveKey)
  }

  function Append(t: Text, s: string): Text {
    t.(out := t.out + s)
  }

  function Pop(t: Text): Text {
    if t.first == [] then t else t.(first := t.first[..|t.first| - 1])
  }

  /** The effect of one call on what is stored. */
  function Write(t: Text, c: Call): Text {
    match c
    case BeginObj => var p := ValuePrefix(t); Text(p.out + "{", p.first + [true], p.haveKey)
    case BeginArr => var p := ValuePrefix(t); Text(p.out + "[", p.first + [true], p.haveKey)
    case EndObj => Pop(Append(t, "}"))
    case EndArr => Pop(Append(t, "]"))
    case Key(k) => var p := KeyPrefix(t); Text(p.out + Quote(k) + ": ", p.first, true)
    case Scalar(v) => Append(ValuePrefix(t), Render(v))
  }

  /** The effect of a run of calls, first to last. */
  function WriteAll(t: Text, calls: seq<Call>): Text
    decreases |calls|
  {
    if calls == [] then t else WriteAll(Write(t, calls[0]), calls[1..])
  }

  // ---------- what the calls mean ----------

  /** A container that has been opened and not yet closed. */
  datatype Frame =
    | ArrayFrame(items: seq<Json>)
    | ObjectFrame(members: seq<Member>, pending: Option<string>)

  datatype Stack = Bottom | Push(below: Stack, top: Frame)

  datatype Doc = Building(stack: Stack) | Done(root: Json) | Misused

  const EMPTY_DOC := Building(Bottom)

  predicate TakesValue(f: Frame) {
    f.ObjectFrame? ==> f.pending.Some?
  }

  predicate WantsValue(d: Doc) {
    d.Building? && (d.stack.Push? ==> TakesValue(d.stack.top))
  }

  function Extend(f: Frame, v: Json): Frame
    requires TakesValue(f)
  {
    match f
    case ArrayFrame(items) => ArrayFrame(items + [v])
    case ObjectFrame(members, pending) => ObjectFrame(members + [Member(pending.value, v)], None)
  }

  /** A complete value arrives at the innermost open container, or at the top level. */
  function Accept(d: Doc, v: Json): Doc {
    if !WantsValue(d) then Misused
    else
      match d.stack
      case Bottom => Done(v)
      case Push(below, top) => Building(Push(below, Extend(top, v)))
  }

  function Open(d: Doc, f: Frame): Doc {
    if WantsValue(d) then Building(Push(d.stack, f)) else Misused
  }

  predicate IsScalar(v: Json) {
    !v.JArray? && !v.JObject?
  }

  /** The effect of one call on the tree under construction. */
  function Note(d: Doc, c: Call): Doc {
    match c
    case BeginObj => Open(d, ObjectFrame([], None))
    case BeginArr => Open(d, ArrayFrame([]))
    case Scalar(v) => if IsScalar(v) then Accept(d, v) else Misused
    case EndArr =>
      (match d
       case Building(Push(below, ArrayFrame(items))) => Accept(Building(below), JArray(items))
       case _ => Misused)
    case EndObj =>
      (match d
       case Building(Push(below, ObjectFrame(members, None))) => Accept(Building(below), JObject(members))
       case _ => Misused)
    case Key(k) =>
      (match d
       case Building(Push(below, ObjectFrame(members, None))) =>
         Building(Push(below, ObjectFrame(members, Some(k))))
       case _ => Misused)
  }

  function NoteAll(d: Doc, calls: seq<Call>): Doc
    decreases |calls|
  {
    if calls == [] then d else NoteAll(Note(d, calls[0]), calls[1..])
  }

  /** Every open container but the innermost one is waiting for the value inside it. */
  predicate AllTakeValue(s: Stack) {
    s.Push? ==> TakesValue(s.top) && AllTakeValue(s.below)
  }

  predicate Proper(d: Doc) {
    d.Building? && d.stack.Push? ==> AllTakeValue(d.stack.below)
  }

  // ---------- the text of a tree under construction ----------

  function PendingText(pending: Option<string>): string {
    if pending.Some? then Quote(pending.value) + ": " else ""
  }

  /** Text up to the point where the next child of this container starts. */
  function ParentText(f: Frame): string {
    match f
    case ArrayFrame(items) => "[" + RenderItems(items) + Separator(items == [])
    case ObjectFrame(members, pending) =>
      "{" + RenderMembers(members) + Separator(members == []) + PendingText(pending)
  }

  /** Text after the last thing that was written into this container. */
  function TopText(f: Frame): string {
    match f
    case ArrayFrame(items) => "[" + RenderItems(items)
    case ObjectFrame(members, pending) =>
      if pending.None? then "{" + RenderMembers(members) else ParentText(f)
  }

  predicate IsFirst(f: Frame) {
    match f
    case ArrayFrame(items) => items == []
    case ObjectFrame(members, pending) => members == [] && pending.None?
  }

  function ParentsText(s: Stack): string {
    match s
    case Bottom => ""
    case Push(below, top) => ParentsText(below) + ParentText(top)
  }

  /** All flags are down below the innermost container. */
  function ParentFlags(s: Stack): seq<bool> {
    match s
    case Bottom => []
    case Push(below, _) => ParentFlags(below) + [false]
  }

  /** What the writer has stored when d is what its calls mean. */
  function TextOf(d: Doc): Text {
    match d
    case Building(Bottom) => EMPTY_TEXT
    case Building(Push(below, top)) =>
      Text(ParentsText(below) + TopText(top), ParentFlags(below) + [IsFirst(top)],
           top.ObjectFrame? && top.pending.Some?)
    case Done(root) => Text(Render(root), [], false)
    case Misused => EMPTY_TEXT
  }

  // ---------- each call keeps text and tree together ----------

  lemma Regroup(a: string, b: string, c: string)
    ensures a + (b + c) == a + b + c
  {
  }

  /** Separators are written exactly between siblings: the prefix lands where the next child starts. */
  lemma ValuePrefixText(d: Doc)
    requires WantsValue(d)
    ensures ValuePrefix(TextOf(d)) == Text(ParentsText(d.stack), ParentFlags(d.stack), false)
  {
    if d.stack.Push? && d.stack.top.ArrayFrame? {
      var items := d.stack.top.items;
      Regroup(ParentsText(d.stack.below), "[" + RenderItems(items), Separator(items == []));
    }
  }

  lemma ExtendText(f: Frame, v: Json)
    requires TakesValue(f)
    ensures TopText(Extend(f, v)) == ParentText(f) + Render(v)
  {
    match f {
      case ArrayFrame(items) =>
        RenderItemsSnoc(items, v);
      case ObjectFrame(members, pending) =>
        RenderMembersSnoc(members, Member(pending.value, v));
        RegroupMember(RenderMembers(members), Separator(members == []), PendingText(pending), Render(v));
    }
  }

  lemma RegroupQuote(a: string, b: string)
    ensures a + "\"" + b + "\"" == a + ("\"" + b + "\"")
  {
  }

  lemma RegroupMember(a: string, b: string, c: string, d: string)
    ensures "{" + (a + b + (c + d)) == "{" + a + b + c + d
  {
  }

  /** A container that has just taken a value is no longer at its first child and waits for no value. */
  lemma ExtendFlags(f: Frame, v: Json)
    requires TakesValue(f)
    ensures !IsFirst(Extend(f, v)) && (Extend(f, v).ObjectFrame? ==> Extend(f, v).pending.None?)
  {
  }

  lemma AcceptText(d: Doc, v: Json)
    requires WantsValue(d)
    ensures TextOf(Accept(d, v)) == Text(ParentsText(d.stack) + Render(v), ParentFlags(d.stack), false)
  {
    hide Render, ParentText, TopText, Extend, IsFirst;
    match d.stack {
      case Bottom =>
        assert "" + Render(v) == Render(v);
      case Push(below, top) =>
        ExtendText(top, v);
        ExtendFlags(top, v);
        Regroup(ParentsText(below), ParentText(top), Render(v));
    }
  }

  lemma CloseText(below: Stack, f: Frame, v: Json, close: string)
    requires WantsValue(Building(below))
    requires f.ObjectFrame? ==> f.pending.None?
    requires Render(v) == TopText(f) + close
    ensures TextOf(Accept(Building(below), v)) == Pop(Append(TextOf(Building(Push(below, f))), close))
  {
    AcceptText(Building(below), v);
    Regroup(ParentsText(below), TopText(f), close);
  }

  lemma KeyText(below: Stack, members: seq<Member>, k: string)
    ensures TextOf(Building(Push(below, ObjectFrame(members, Some(k)))))
         == Write(TextOf(Building(Push(below, ObjectFrame(members, None)))), Key(k))
  {
    hide RenderMembers, Quote, ParentsText, ParentFlags, Write;
    KeyWritten(ParentsText(below), "{" + RenderMembers(members), ParentFlags(below), members == [], k);
  }

  lemma KeyWritten(parents: string, body: string, flags: seq<bool>, first: bool, k: string)
    ensures Write(Text(parents + body, flags + [first], false), Key(k))
         == Text(parents + (body + Separator(first) + (Quote(k) + ": ")), flags + [false], true)
  {
    hide Quote;
    RegroupKey(parents, body, Separator(first), Quote(k));
  }

  lemma RegroupKey(a: string, b: string, c: string, d: string)
    ensures a + (b + c + (d + ": ")) == a + b + c + d + ": "
  {
  }

  /** One call: whenever it is legal, the stored text moves on exactly as the tree does. */
  lemma WriteFollowsNote(d: Doc, c: Call)
    requires Proper(d) && !Note(d, c).Misused?
    ensures Proper(Note(d, c))
    ensures Write(TextOf(d), c) == TextOf(Note(d, c))
  {
    match c {
      case BeginObj =>
        ValuePrefixText(d);
      case BeginArr =>
        ValuePrefixText(d);
      case Scalar(v) =>
        ValuePrefixText(d);
        AcceptText(d, v);
      case EndArr =>
        CloseText(d.stack.below, d.stack.top, JArray(d.stack.top.items), "]");
      case EndObj =>
        CloseText(d.stack.below, d.stack.top, JObject(d.stack.top.members), "}");
      case Key(k) =>
        KeyText(d.stack.below, d.stack.top.members, k);
    }
  }

  // ---------- whole runs ----------

  lemma {:induction false} MisuseStays(calls: seq<Call>)
    ensures NoteAll(Misused, calls) == Misused
  {
    if calls != [] {
      MisuseStays(calls[1..]);
    }
  }

  /** Over every run of calls that is never misused, the stored text is the text of the tree. */
  lemma {:induction false} EveryRun(d: Doc, calls: seq<Call>)
    requires Proper(d) && !NoteAll(d, calls).Misused?
    ensures Proper(NoteAll(d, calls))
    ensures WriteAll(TextOf(d), calls) == TextOf(NoteAll(d, calls))
    decreases |calls|
  {
    if calls != [] {
      MisuseStays(calls[1..]);
      WriteFollowsNote(d, calls[0]);
      EveryRun(Note(d, calls[0]), calls[1..]);
    }
  }

  /** The calls that print a tree. */
  function CallsOf(v: Json): seq<Call>
    decreases v
  {
    match v
    case JArray(items) => [BeginArr] + ItemCalls(items) + [EndArr]
    case JObject(members) => [BeginObj] + MemberCalls(members) + [EndObj]
    case _ => [Scalar(v)]
  }

  function ItemCalls(items: seq<Json>): seq<Call>
    decreases items
  {
    if items == [] then [] else CallsOf(items[0]) + ItemCalls(items[1..])
  }

  function MemberCalls(members: seq<Member>): seq<Call>
    decreases members
  {
    if members == [] then []
    else [Key(members[0].name)] + CallsOf(members[0].value) + MemberCalls(members[1..])
  }

  function PendingCalls(pending: Option<string>): seq<Call> {
    if pending.Some? then [Key(pending.value)] else []
  }

  function FrameCalls(f: Frame): seq<Call> {
    match f
    case ArrayFrame(items) => [BeginArr] + ItemCalls(items)
    case ObjectFrame(members, pending) => [BeginObj] + MemberCalls(members) + PendingCalls(pending)
  }

  function StackCalls(s: Stack): seq<Call> {
    match s
    case Bottom => []
    case Push(below, top) => StackCalls(below) + FrameCalls(top)
  }

  /** The calls that lead to d. */
  function DocCalls(d: Doc): seq<Call> {
    match d
    case Building(stack) => StackCalls(stack)
    case Done(root) => CallsOf(root)
    case Misused => []
  }

  lemma {:induction false} ItemCallsSnoc(items: seq<Json>, v: Json)
    ensures ItemCalls(items + [v]) == ItemCalls(items) + CallsOf(v)
  {
    if items == [] {
      assert [v][1..] == [];
    } else {
      assert (items + [v])[1..] == items[1..] + [v];
      ItemCallsSnoc(items[1..], v);
    }
  }

  lemma {:induction false} MemberCallsSnoc(members: seq<Member>, m: Member)
    ensures MemberCalls(members + [m]) == MemberCalls(members) + ([Key(m.name)] + CallsOf(m.value))
  {
    if members == [] {
      assert [m][1..] == [];
    } else {
      assert (members + [m])[1..] == members[1..] + [m];
      MemberCallsSnoc(members[1..], m);
    }
  }

  lemma RegroupCalls(a: seq<Call>, b: seq<Call>, c: seq<Call>)
    ensures a + (b + c) == a + b + c
  {
  }

  lemma AcceptCalls(d: Doc, v: Json)
    requires WantsValue(d)
    ensures DocCalls(Accept(d, v)) == DocCalls(d) + CallsOf(v)
  {
    match d.stack {
      case Bottom =>
      case Push(below, ArrayFrame(items)) =>
        ItemCallsSnoc(items, v);
        RegroupCalls([BeginArr], ItemCalls(items), CallsOf(v));
        RegroupCalls(StackCalls(below), FrameCalls(d.stack.top), CallsOf(v));
      case Push(below, ObjectFrame(members, pending)) =>
        MemberCallsSnoc(members, Member(pending.value, v));
        RegroupCalls(MemberCalls(members), PendingCalls(pending), CallsOf(v));
        RegroupCalls([BeginObj], MemberCalls(members) + PendingCalls(pending), CallsOf(v));
        RegroupCalls([BeginObj], MemberCalls(members), PendingCalls(pending));
        RegroupCalls(StackCalls(below), FrameCalls(d.stack.top), CallsOf(v));
    }
  }

  lemma NoteCalls(d: Doc, c: Call)
    requires Proper(d) && !Note(d, c).Misused?
    ensures DocCalls(Note(d, c)) == DocCalls(d) + [c]
  {
    match c {
      case BeginObj =>
        assert FrameCalls(ObjectFrame([], None)) == [c];
      case BeginArr =>
        assert FrameCalls(ArrayFrame([])) == [c];
      case Scalar(v) =>
        AcceptCalls(d, v);
      case EndArr =>
        AcceptCalls(Building(d.stack.below), JArray(d.stack.top.items));
        RegroupCalls(StackCalls(d.stack.below), FrameCalls(d.stack.top), [c]);
      case EndObj =>
        AcceptCalls(Building(d.stack.below), JObject(d.stack.top.members));
        assert FrameCalls(d.stack.top) == [BeginObj] + MemberCalls(d.stack.top.members);
        RegroupCalls(StackCalls(d.stack.below), FrameCalls(d.stack.top), [c]);
      case Key(k) =>
        assert FrameCalls(d.stack.top) == [BeginObj] + MemberCalls(d.stack.top.members);
        RegroupCalls(StackCalls(d.stack.below), FrameCalls(d.stack.top), [c]);
    }
  }

  /** A legal run is nothing but the calls of the tree it has built so far. */
  lemma {:induction false} LegalRunIsDocCalls(d: Doc, calls: seq<Call>)
    requires Proper(d) && !NoteAll(d, calls).Misused?
    ensures DocCalls(NoteAll(d, calls)) == DocCalls(d) + calls
    decreases |calls|
  {
    hide Note, DocCalls, Proper, TextOf, Write;
    if calls != [] {
      MisuseStays(calls[1..]);
      WriteFollowsNote(d, calls[0]);
      NoteCalls(d, calls[0]);
      LegalRunIsDocCalls(Note(d, calls[0]), calls[1..]);
      RegroupCalls(DocCalls(d), [calls[0]], calls[1..]);
      assert [calls[0]] + calls[1..] == calls;
    }
  }

  lemma {:induction false} NoteAllConcat(d: Doc, a: seq<Call>, b: seq<Call>)
    ensures NoteAll(d, a + b) == NoteAll(NoteAll(d, a), b)
    decreases |a|
  {
    if a == [] {
      assert a + b == b;
    } else {
      assert (a + b)[1..] == a[1..] + b;
      NoteAllConcat(Note(d, a[0]), a[1..], b);
    }
  }

  lemma NoteOne(d: Doc, c: Call)
    ensures NoteAll(d, [c]) == Note(d, c)
  {
    assert [c][1..] == [];
  }

  lemma {:induction false} PrintTree(d: Doc, v: Json)
    requires WantsValue(d)
    ensures NoteAll(d, CallsOf(v)) == Accept(d, v)
    decreases v, 1
  {
    match v {
      case JArray(items) =>
        NoteOne(d, BeginArr);
        PrintItems(d.stack, [], items);
        NoteAllConcat(d, [BeginArr], ItemCalls(items));
        NoteAllConcat(d, [BeginArr] + ItemCalls(items), [EndArr]);
        assert [] + items == items;
        NoteOne(Building(Push(d.stack, ArrayFrame(items))), EndArr);
      case JObject(members) =>
        NoteOne(d, BeginObj);
        PrintMembers(d.stack, [], members);
        NoteAllConcat(d, [BeginObj], MemberCalls(members));
        NoteAllConcat(d, [BeginObj] + MemberCalls(members), [EndObj]);
        assert [] + members == members;
        NoteOne(Building(Push(d.stack, ObjectFrame(members, None))), EndObj);
      case _ =>
        NoteOne(d, Scalar(v));
    }
  }

  lemma {:induction false} PrintItems(below: Stack, done: seq<Json>, items: seq<Json>)
    ensures NoteAll(Building(Push(below, ArrayFrame(done))), ItemCalls(items))
         == Building(Push(below, ArrayFrame(done + items)))
    decreases items, 0
  {
    var d := Building(Push(below, ArrayFrame(done)));
    if items != [] {
      PrintTree(d, items[0]);
      NoteAllConcat(d, CallsOf(items[0]), ItemCalls(items[1..]));
      PrintItems(below, done + [items[0]], items[1..]);
      assert done + [items[0]] + items[1..] == done + items;
    } else {
      assert done + items == done;
    }
  }

  lemma {:induction false} PrintMembers(below: Stack, done: seq<Member>, members: seq<Member>)
    ensures NoteAll(Building(Push(below, ObjectFrame(done, None))), MemberCalls(members))
         == Building(Push(below, ObjectFrame(done + members, None)))
    decreases members, 0
  {
    var d := Building(Push(below, ObjectFrame(done, None)));
    if members != [] {
      var m := members[0];
      NoteOne(d, Key(m.name));
      PrintTree(Note(d, Key(m.name)), m.value);
      NoteAllConcat(d, [Key(m.name)], CallsOf(m.value));
      NoteAllConcat(d, [Key(m.name)] + CallsOf(m.value), MemberCalls(members[1..]));
      PrintMembers(below, done + [m], members[1..]);
      assert Member(m.name, m.value) == m;
      assert done + [m] + members[1..] == done + members;
    } else {
      assert done + members == done;
    }
  }

  /** A run of calls yields a finished document exactly when it is the printing of that tree. */
  lemma CompleteRuns(calls: seq<Call>, v: Json)
    ensures NoteAll(EMPTY_DOC, calls) == Done(v) <==> calls == CallsOf(v)
  {
    if NoteAll(EMPTY_DOC, calls) == Done(v) {
      LegalRunIsDocCalls(EMPTY_DOC, calls);
      assert [] + calls == calls;
    }
    PrintTree(EMPTY_DOC, v);
  }

  /** Printing any tree and parsing the text gives the tree back. */
  lemma WriterRoundTrip(v: Json)
    requires WellFormed(v)
    ensures WriteAll(EMPTY_TEXT, CallsOf(v)).out == Render(v)
    ensures ParseText(WriteAll(EMPTY_TEXT, CallsOf(v)).out) == Some(v)
  {
    CompleteRuns(CallsOf(v), v);
    EveryRun(EMPTY_DOC, CallsOf(v));
    TextRoundTrip(v);
  }

  // ---------- the writer ----------

  /** The argument of one of the val overloads, or of null. */
  datatype Value = Str(s: string) | Flag(b: bool) | Count(i: int) | Number(d: Float) | Nothing

  /** g12 stands for printf's "%.12g". */
  function ValueJson(v: Value, g12: real -> string): Json {
    match v
    case Str(s) => JString(s)
    case Flag(b) => JBool(b)
    case Count(i) => JNumber(IntText(i))
    case Number(Finite(r)) => JNumber(g12(r))
    case Number(_) => JNull
    case Nothing => JNull
  }

  class JsonWriter {
    var out: string
    var first: seq<bool>
    var haveKey: bool
    ghost var doc: Doc

    function State(): Text
      reads this
    {
      Text(out, first, haveKey)
    }

    ghost predicate Valid()
      reads this
    {
      Proper(doc) && (doc.Misused? || State() == TextOf(doc))
    }

    constructor ()
      ensures Valid() && doc == EMPTY_DOC && State() == EMPTY_TEXT
    {
      out, first, haveKey := "", [], false;
      doc := EMPTY_DOC;
    }

    function Result(): (s: string)
      requires Valid()
      reads this
      ensures doc.Done? && WellFormed(doc.root) ==> s == Render(doc.root) && ParseText(s) == Some(doc.root)
    {
      assert doc.Done? && WellFormed(doc.root) ==> ParseText(out) == Some(doc.root) by {
        if doc.Done? && WellFormed(doc.root) {
          TextRoundTrip(doc.root);
        }
      }
      out
    }

    method BeginObj()
      requires Valid()
      modifies this
      ensures Valid() && doc == Note(old(doc), Call.BeginObj)
      ensures doc.Misused? ==> State() == Write(old(State()), Call.BeginObj)
    {
      WriterPrefix();
      out := out + "{";
      first := first + [true];
      Follow(Call.BeginObj, old(doc), old(State()));
    }

    method EndObj()
      requires Valid() && first != []
      modifies this
      ensures Valid() && doc == Note(old(doc), Call.EndObj)
      ensures doc.Misused? ==> State() == Write(old(State()), Call.EndObj)
    {
      out := out + "}";
      first := first[..|first| - 1];
      Follow(Call.EndObj, old(doc), old(State()));
    }

    method BeginArr()
      requires Valid()
      modifies this
      ensures Valid() && doc == Note(old(doc), Call.BeginArr)
      ensures doc.Misused? ==> State() == Write(old(State()), Call.BeginArr)
    {
      WriterPrefix();
      out := out + "[";
      first := first + [true];
      Follow(Call.BeginArr, old(doc), old(State()));
    }

    method EndArr()
      requires Valid() && first != []
      modifies this
      ensures Valid() && doc == Note(old(doc), Call.EndArr)
      ensures doc.Misused? ==> State() == Write(old(State()), Call.EndArr)
    {
      out := out + "]";
      first := first[..|first| - 1];
      Follow(Call.EndArr, old(doc), old(State()));
    }

    method Key(k: string)
      requires Valid()
      modifies this
      ensures Valid() && doc == Note(old(doc), Call.Key(k))
      ensures doc.Misused? ==> State() == Write(old(State()), Call.Key(k))
    {
      if first != [] && !first[|first| - 1] {
        out := out + ", ";
      }
      if first != [] {
        first := first[..|first| - 1] + [false];
      }
      AppendString(k);
      out := out + ": ";
      haveKey := true;
      Follow(Call.Key(k), old(doc), old(State()));
    }

    method Val(v: Value, g12: real -> string)
      requires Valid()
      modifies this
      ensures Valid() && doc == Note(old(doc), Scalar(ValueJson(v, g12)))
      ensures doc.Misused? ==> State() == Write(old(State()), Scalar(ValueJson(v, g12)))
    {
      WriterPrefix();
      match v {
        case Str(s) => AppendString(s);
        case Flag(b) => out := out + if b then "true" else "false";
        case Count(i) => out := out + IntText(i);
        case Number(Finite(r)) => out := out + g12(r);
        case Number(_) => out := out + "null";
        case Nothing => out := out + "null";
      }
      Follow(Scalar(ValueJson(v, g12)), old(doc), old(State()));
    }

    method WriterPrefix()
      modifies `out, `first, `haveKey
      ensures State() == ValuePrefix(old(State()))
    {
      if haveKey {
        haveKey := false;
        return;
      }
      if first != [] {
        if !first[|first| - 1] {
          out := out + ", ";
        }
        first := first[..|first| - 1] + [false];
      }
    }

    method AppendString(s: string)
      modifies `out
      ensures out == old(out) + Quote(s)
    {
      out := out + "\"";
      for i := 0 to |s|
        invariant out == old(out) + "\"" + EscapeAll(s[..i])
      {
        var ch := s[i];
        ghost var before := out;
        if ch == '\"' || ch == '\\' {
          out := out + ['\\'];
          out := out + [ch];
          Regroup(before, ['\\'], [ch]);
        } else if ch >= ' ' {
          out := out + [ch];
        } else if ch == '\n' {
          out := out + "\\n";
        } else if ch == '\t' {
          out := out + "\\t";
        } else if ch == '\r' {
          out := out + "\\r";
        } else {
          out := out + ['\\', 'u', '0', '0', HexDigit(ch as nat / 16), HexDigit(ch as nat % 16)];
        }
        assert out == before + Escape(ch);
        EscapeAllSnoc(s[..i], ch);
        assert s[..i + 1] == s[..i] + [ch];
        Regroup(old(out) + "\"", EscapeAll(s[..i]), Escape(ch));
      }
      assert s[..|s|] == s;
      out := out + "\"";
      RegroupQuote(old(out), EscapeAll(s));
    }

    /** Brings the ghost tree up to date after a call has changed the stored text. */
    ghost method Follow(c: Call, before: Doc, text: Text)
      requires Proper(before) && (before.Misused? || text == TextOf(before))
      requires State() == Write(text, c)
      modifies `doc
      ensures Valid() && doc == Note(before, c)
    {
      doc := Note(before, c);
      if !doc.Misused? {
        WriteFollowsNote(before, c);
      }
    }
  }
}
