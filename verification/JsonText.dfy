/** JSON trees, and the text that the benchmark harness's writer is meant to produce for them. */
module JsonText {

  /** A number is kept as its RFC 8259 token: integers and "%.12g" doubles share one grammar. */
  datatype Json =
    | JNull
    | JBool(b: bool)
    | JNumber(token: string)
    | JString(s: string)
    | JArray(items: seq<Json>)
    | JObject(members: seq<Member>)

  datatype Member = Member(name: string, value: Json)

  // ---------- strings ----------

  function HexDigit(n: nat): char
    requires n < 16
  {
    "0123456789abcdef"[n]
  }

  /** How one character of a string is written between the quotes. */
  function Escape(c: char): string {
    if c == '\"' || c == '\\' then ['\\', c]
    else if c >= ' ' then [c]
    else if c == '\n' then "\\n"
    else if c == '\t' then "\\t"
    else if c == '\r' then "\\r"
    else ['\\', 'u', '0', '0', HexDigit(c as nat / 16), HexDigit(c as nat % 16)]
  }

  function EscapeAll(s: string): string {
    if s == [] then [] else Escape(s[0]) + EscapeAll(s[1..])
  }

  function Quote(s: string): string {
    "\"" + EscapeAll(s) + "\""
  }

  /** Every escape of the writer, by example. */
  lemma EscapesAre()
    ensures Escape('a') == "a" && Escape('\"') == "\\\"" && Escape('\\') == "\\\\" && Escape('\n') == "\\n"
    ensures Escape('\t') == "\\t" && Escape('\r') == "\\r" && Escape(26 as char) == "\\u001a"
  {
  }

  lemma {:induction false} EscapeAllSnoc(s: string, c: char)
    ensures EscapeAll(s + [c]) == EscapeAll(s) + Escape(c)
  {
    if s == [] {
      assert [c][1..] == [];
    } else {
      assert (s + [c])[1..] == s[1..] + [c];
      EscapeAllSnoc(s[1..], c);
    }
  }

  // ---------- numbers (section 6 of RFC 8259) ----------

  predicate IsDigit(c: char) {
    '0' <= c <= '9'
  }

  /** Length of the leading run of digits. */
  function DigitRun(s: string): (n: nat)
    ensures n <= |s|
    ensures forall i :: 0 <= i < n ==> IsDigit(s[i])
  {
    if s == [] || !IsDigit(s[0]) then 0 else 1 + DigitRun(s[1..])
  }

  predicate IsExponent(t: string) {
    t == [] ||
    ((t[0] == 'e' || t[0] == 'E') &&
     var u := if |t| > 1 && (t[1] == '+' || t[1] == '-') then t[2..] else t[1..];
     u != [] && DigitRun(u) == |u|)
  }

  predicate IsFractionAndExponent(t: string) {
    if t != [] && t[0] == '.' then
      var n := DigitRun(t[1..]);
      n > 0 && IsExponent(t[1 + n..])
    else
      IsExponent(t)
  }

  predicate IsUnsignedNumber(t: string) {
    var n := DigitRun(t);
    n > 0 && (t[0] == '0' ==> n == 1) && IsFractionAndExponent(t[n..])
  }

  predicate IsNumber(t: string) {
    IsUnsignedNumber(if t != [] && t[0] == '-' then t[1..] else t)
  }

  /** Characters that can occur in a number token; no other JSON token continues with one of them. */
  predicate IsNumberChar(c: char) {
    IsDigit(c) || c == '-' || c == '+' || c == '.' || c == 'e' || c == 'E'
  }

  lemma ExponentChars(t: string)
    requires IsExponent(t)
    ensures forall i :: 0 <= i < |t| ==> IsNumberChar(t[i])
  {
    if t != [] {
      var k := if |t| > 1 && (t[1] == '+' || t[1] == '-') then 2 else 1;
      forall i | k <= i < |t| ensures IsNumberChar(t[i]) {
        assert t[i] == t[k..][i - k];
      }
    }
  }

  lemma FractionChars(t: string)
    requires IsFractionAndExponent(t)
    ensures forall i :: 0 <= i < |t| ==> IsNumberChar(t[i])
  {
    if t != [] && t[0] == '.' {
      var n := DigitRun(t[1..]);
      ExponentChars(t[1 + n..]);
      forall i | 0 <= i < |t| ensures IsNumberChar(t[i]) {
        if 1 <= i < 1 + n {
          assert t[i] == t[1..][i - 1];
        } else if i >= 1 + n {
          assert t[i] == t[1 + n..][i - 1 - n];
        }
      }
    } else {
      ExponentChars(t);
    }
  }

  lemma UnsignedChars(t: string)
    requires IsUnsignedNumber(t)
    ensures t != [] && IsDigit(t[0])
    ensures forall i :: 0 <= i < |t| ==> IsNumberChar(t[i])
  {
    var n := DigitRun(t);
    FractionChars(t[n..]);
    forall i | n <= i < |t| ensures IsNumberChar(t[i]) {
      assert t[i] == t[n..][i - n];
    }
  }

  /** A number token starts with a minus sign or a digit and holds number characters only. */
  lemma NumberChars(t: string)
    requires IsNumber(t)
    ensures t != [] && (t[0] == '-' || IsDigit(t[0]))
    ensures forall i :: 0 <= i < |t| ==> IsNumberChar(t[i])
  {
    if t != [] && t[0] == '-' {
      UnsignedChars(t[1..]);
      forall i | 1 <= i < |t| ensures IsNumberChar(t[i]) {
        assert t[i] == t[1..][i - 1];
      }
    } else {
      UnsignedChars(t);
    }
  }

  function NatText(n: nat): string {
    var last := ['0' + (n % 10) as char];
    if n < 10 then last else NatText(n / 10) + last
  }

  /** std::to_string on a signed integer. */
  function IntText(i: int): string {
    if i < 0 then "-" + NatText(-i) else NatText(i)
  }

  function NatValue(s: string): int {
    if s == [] then 0 else 10 * NatValue(s[..|s| - 1]) + (s[|s| - 1] as int - '0' as int)
  }

  function IntValue(t: string): int {
    if t != [] && t[0] == '-' then -NatValue(t[1..]) else NatValue(t)
  }

  lemma {:induction false} DigitRunAll(s: string)
    requires forall i :: 0 <= i < |s| ==> IsDigit(s[i])
    ensures DigitRun(s) == |s|
  {
    if s != [] {
      DigitRunAll(s[1..]);
    }
  }

  lemma {:induction false} NatTextDigits(n: nat)
    ensures NatText(n) != []
    ensures forall i :: 0 <= i < |NatText(n)| ==> IsDigit(NatText(n)[i])
    ensures NatText(n)[0] == '0' ==> n == 0
    ensures NatValue(NatText(n)) == n
  {
    if n < 10 {
      assert NatText(n)[..0] == [];
    } else {
      NatTextDigits(n / 10);
      var t := NatText(n);
      assert t[..|t| - 1] == NatText(n / 10);
      assert t[0] == NatText(n / 10)[0];
    }
  }

  /** Every printed integer is a number token, and the token reads back as that integer. */
  lemma IntTextIsNumber(i: int)
    ensures IsNumber(IntText(i))
    ensures IntValue(IntText(i)) == i
  {
    var n := if i < 0 then -i else i;
    NatTextDigits(n);
    DigitRunAll(NatText(n));
    assert NatText(n)[|NatText(n)|..] == [];
    assert IsUnsignedNumber(NatText(n));
    if i < 0 {
      assert IntText(i)[1..] == NatText(n);
    }
  }

  // ---------- trees ----------

  function Render(v: Json): string
    decreases v
  {
    match v
    case JNull => "null"
    case JBool(b) => if b then "true" else "false"
    case JNumber(token) => token
    case JString(s) => Quote(s)
    case JArray(items) => "[" + RenderItems(items) + "]"
    case JObject(members) => "{" + RenderMembers(members) + "}"
  }

  /** The text between two siblings: nothing before the first one. */
  function Separator(first: bool): string {
    if first then "" else ", "
  }

  function RenderItems(items: seq<Json>): string
    decreases items
  {
    if items == [] then ""
    else Render(items[0]) + Separator(|items| == 1) + RenderItems(items[1..])
  }

  function RenderMember(m: Member): string
    decreases m
  {
    Quote(m.name) + ": " + Render(m.value)
  }

  function RenderMembers(members: seq<Member>): string
    decreases members
  {
    if members == [] then ""
    else RenderMember(members[0]) + Separator(|members| == 1) + RenderMembers(members[1..])
  }

  lemma {:induction false} RenderItemsSnoc(items: seq<Json>, v: Json)
    ensures RenderItems(items + [v]) == RenderItems(items) + Separator(items == []) + Render(v)
  {
    if items == [] {
      assert [v][1..] == [];
    } else {
      assert (items + [v])[1..] == items[1..] + [v];
      RenderItemsSnoc(items[1..], v);
    }
  }

  lemma {:induction false} RenderMembersSnoc(members: seq<Member>, m: Member)
    ensures RenderMembers(members + [m])
         == RenderMembers(members) + Separator(members == []) + RenderMember(m)
  {
    if members == [] {
      assert [m][1..] == [];
    } else {
      assert (members + [m])[1..] == members[1..] + [m];
      RenderMembersSnoc(members[1..], m);
    }
  }

  /** The layout of words and arrays; longer ones follow by RenderItemsSnoc. */
  lemma ArrayLayout(x: Json, y: Json)
    ensures Render(JNull) == "null" && Render(JBool(true)) == "true" && Render(JBool(false)) == "false"
    ensures Render(JArray([])) == "[]" && Render(JArray([x, y])) == "[" + Render(x) + ", " + Render(y) + "]"
  {
    RenderItemsSnoc([], x);
    RenderItemsSnoc([x], y);
    assert [] + [x] == [x] && [x] + [y] == [x, y];
    hide RenderItems;
    Framing('[', Render(x), Render(y), ']');
  }

  /** The layout of objects; longer ones follow by RenderMembersSnoc. */
  lemma ObjectLayout(a: Member, b: Member, first: string, second: string)
    requires first == "\"" + EscapeAll(a.name) + "\": " + Render(a.value)
    requires second == "\"" + EscapeAll(b.name) + "\": " + Render(b.value)
    ensures Render(JObject([])) == "{}" && Render(JObject([a, b])) == "{" + first + ", " + second + "}"
  {
    RenderMembersSnoc([], a);
    RenderMembersSnoc([a], b);
    MemberText(a);
    MemberText(b);
    assert [] + [a] == [a] && [a] + [b] == [a, b];
    hide RenderMembers, RenderMember, EscapeAll;
    Framing('{', first, second, '}');
  }

  lemma Framing(open: char, x: string, y: string, close: char)
    ensures [open] + ("" + "" + x + ", " + y) + [close] == [open] + x + ", " + y + [close]
  {
  }

  lemma MemberText(m: Member)
    ensures RenderMember(m) == "\"" + EscapeAll(m.name) + "\": " + Render(m.value)
  {
    hide EscapeAll, Render;
    assert "\"" + EscapeAll(m.name) + "\"" + ": " == "\"" + EscapeAll(m.name) + "\": ";
  }

  /** Every number in the tree carries an RFC 8259 number token. */
  predicate WellFormed(v: Json)
    decreases v
  {
    match v
    case JNumber(token) => IsNumber(token)
    case JArray(items) => forall i | 0 <= i < |items| :: WellFormed(items[i])
    case JObject(members) => forall i | 0 <= i < |members| :: WellFormed(members[i].value)
    case _ => true
  }

  // ---------- one line per document ----------

  predicate NoControl(s: string) {
    forall i | 0 <= i < |s| :: s[i] >= ' '
  }

  lemma {:induction false} QuoteNoControl(s: string)
    ensures NoControl(EscapeAll(s))
  {
    if s != [] {
      QuoteNoControl(s[1..]);
    }
  }

  lemma NoControlWrapped(open: char, s: string, close: char)
    requires open >= ' ' && close >= ' ' && NoControl(s)
    ensures NoControl([open] + s + [close])
  {
    var t := [open] + s + [close];
    forall i | 0 <= i < |t| ensures t[i] >= ' ' {
      if 0 < i < |t| - 1 {
        assert t[i] == s[i - 1];
      }
    }
  }

  lemma LeafNoControl(v: Json)
    requires WellFormed(v) && !v.JArray? && !v.JObject?
    ensures NoControl(Render(v))
  {
    if v.JNumber? {
      NumberChars(v.token);
    } else if v.JString? {
      QuoteNoControl(v.s);
      NoControlWrapped('\"', EscapeAll(v.s), '\"');
    }
  }

  /** Rendered text holds no character below 0x20, so in particular no line break. */
  lemma {:induction false} RenderNoControl(v: Json)
    requires WellFormed(v)
    ensures NoControl(Render(v))
    decreases v
  {
    if v.JArray? {
      RenderItemsNoControl(v.items);
      NoControlWrapped('[', RenderItems(v.items), ']');
    } else if v.JObject? {
      RenderMembersNoControl(v.members);
      NoControlWrapped('{', RenderMembers(v.members), '}');
    } else {
      LeafNoControl(v);
    }
  }

  lemma {:induction false} RenderItemsNoControl(items: seq<Json>)
    requires forall i | 0 <= i < |items| :: WellFormed(items[i])
    ensures NoControl(RenderItems(items))
    decreases items
  {
    if items != [] {
      RenderNoControl(items[0]);
      RenderItemsNoControl(items[1..]);
    }
  }

  lemma {:induction false} RenderMembersNoControl(members: seq<Member>)
    requires forall i | 0 <= i < |members| :: WellFormed(members[i].value)
    ensures NoControl(RenderMembers(members))
    decreases members
  {
    if members != [] {
      QuoteNoControl(members[0].name);
      RenderNoControl(members[0].value);
      RenderMembersNoControl(members[1..]);
    }
  }
}
