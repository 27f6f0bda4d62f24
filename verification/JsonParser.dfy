/** A recursive-descent parser for sections 2 to 7 of RFC 8259, and the proof that it undoes Render. */
module JsonParser {
  import opened JsonText
  import opened Options

  datatype Parsed<T> = Failed | Parsed(value: T, rest: string)

  // ---------- the parser ----------

  predicate IsSpace(c: char) {
    c == ' ' || c == '\t' || c == '\n' || c == '\r'
  }

  function SkipSpace(s: string): (t: string)
    ensures |t| <= |s|
  {
    if s != [] && IsSpace(s[0]) then SkipSpace(s[1..]) else s
  }

  function HexValue(c: char): Option<nat> {
    if '0' <= c <= '9' then Some(c as nat - '0' as nat)
    else if 'a' <= c <= 'f' then Some(c as nat - 'a' as nat + 10)
    else if 'A' <= c <= 'F' then Some(c as nat - 'A' as nat + 10)
    else None
  }

  /** The 16-bit code unit written as four hexadecimal digits at the front of s. */
  function CodeUnit(s: string): (u: Option<nat>)
    ensures u.Some? ==> |s| >= 4 && u.value < 0x10000
  {
    if |s| < 4 then None
    else
      match (HexValue(s[0]), HexValue(s[1]), HexValue(s[2]), HexValue(s[3]))
      case (Some(a), Some(b), Some(c), Some(d)) =>
        if a < 16 && b < 16 && c < 16 && d < 16 then Some(((a * 16 + b) * 16 + c) * 16 + d) else None
      case _ => None
  }

  /** The character after "\u" and the number of input characters it takes; a lone surrogate fails. */
  function UnicodeEscape(s: string): (r: Option<(char, nat)>)
    ensures r.Some? ==> 4 <= r.value.1 <= |s|
  {
    match CodeUnit(s)
    case None => None
    case Some(u) =>
      if u < 0xD800 || 0xE000 <= u then Some((u as char, 4))
      else if u < 0xDC00 && |s| >= 10 && s[4] == '\\' && s[5] == 'u' then
        match CodeUnit(s[6..])
        case Some(v) =>
          if 0xDC00 <= v < 0xE000 then
            Some(((0x10000 + (u - 0xD800) * 0x400 + (v - 0xDC00)) as char, 10))
          else None
        case None => None
      else None
  }

  function SimpleEscape(c: char): Option<char> {
    if c == '\"' || c == '\\' || c == '/' then Some(c)
    else if c == 'b' then Some(8 as char)
    else if c == 'f' then Some(12 as char)
    else if c == 'n' then Some('\n')
    else if c == 'r' then Some('\r')
    else if c == 't' then Some('\t')
    else None
  }

  /** Characters up to the closing quote; the opening quote has been read. */
  function ParseString(s: string): (r: Parsed<string>)
    ensures r.Parsed? ==> |r.rest| < |s|
  {
    if s == [] || s[0] < ' ' then Failed
    else if s[0] == '\"' then Parsed([], s[1..])
    else if s[0] != '\\' then Prepend(s[0], ParseString(s[1..]))
    else if |s| < 2 then Failed
    else if s[1] == 'u' then
      match UnicodeEscape(s[2..])
      case Some((c, used)) => Prepend(c, ParseString(s[2 + used..]))
      case None => Failed
    else
      match SimpleEscape(s[1])
      case Some(c) => Prepend(c, ParseString(s[2..]))
      case None => Failed
  }

  function Prepend(c: char, r: Parsed<string>): Parsed<string> {
    match r
    case Failed => Failed
    case Parsed(t, rest) => Parsed([c] + t, rest)
  }

  function NumberRun(s: string): (n: nat)
    ensures n <= |s|
  {
    if s == [] || !IsNumberChar(s[0]) then 0 else 1 + NumberRun(s[1..])
  }

  function ParseNumber(s: string): (r: Parsed<Json>)
    requires s != []
    ensures r.Parsed? ==> |r.rest| < |s|
  {
    var n := NumberRun(s);
    if n > 0 && IsNumber(s[..n]) then Parsed(JNumber(s[..n]), s[n..]) else Failed
  }

  function ParseValue(s: string): (r: Parsed<Json>)
    ensures r.Parsed? ==> |r.rest| < |s|
    decreases |s|, 0
  {
    var t := SkipSpace(s);
    if t == [] then Failed
    else if t[0] == '{' then
      match ParseObject(t[1..])
      case Failed => Failed
      case Parsed(members, rest) => Parsed(JObject(members), rest)
    else if t[0] == '[' then
      match ParseArray(t[1..])
      case Failed => Failed
      case Parsed(items, rest) => Parsed(JArray(items), rest)
    else if t[0] == '\"' then
      match ParseString(t[1..])
      case Failed => Failed
      case Parsed(text, rest) => Parsed(JString(text), rest)
    else if "null" <= t then Parsed(JNull, t[4..])
    else if "true" <= t then Parsed(JBool(true), t[4..])
    else if "false" <= t then Parsed(JBool(false), t[5..])
    else ParseNumber(t)
  }

  function ParseArray(s: string): (r: Parsed<seq<Json>>)
    ensures r.Parsed? ==> |r.rest| < |s|
    decreases |s|, 2
  {
    var t := SkipSpace(s);
    if t != [] && t[0] == ']' then Parsed([], t[1..]) else ParseItems(s)
  }

  function ParseItems(s: string): (r: Parsed<seq<Json>>)
    ensures r.Parsed? ==> |r.rest| < |s|
    decreases |s|, 1
  {
    match ParseValue(s)
    case Failed => Failed
    case Parsed(v, afterValue) =>
      var t := SkipSpace(afterValue);
      if t == [] then Failed
      else if t[0] == ']' then Parsed([v], t[1..])
      else if t[0] == ',' then
        match ParseItems(t[1..])
        case Failed => Failed
        case Parsed(items, rest) => Parsed([v] + items, rest)
      else Failed
  }

  function ParseObject(s: string): (r: Parsed<seq<Member>>)
    ensures r.Parsed? ==> |r.rest| < |s|
    decreases |s|, 3
  {
    var t := SkipSpace(s);
    if t != [] && t[0] == '}' then Parsed([], t[1..]) else ParseMembers(s)
  }

  function ParseMember(s: string): (r: Parsed<Member>)
    ensures r.Parsed? ==> |r.rest| < |s|
    decreases |s|, 1
  {
    var t := SkipSpace(s);
    if t == [] || t[0] != '\"' then Failed
    else
      match ParseString(t[1..])
      case Failed => Failed
      case Parsed(name, afterName) =>
        var u := SkipSpace(afterName);
        if u == [] || u[0] != ':' then Failed
        else
          match ParseValue(u[1..])
          case Failed => Failed
          case Parsed(v, rest) => Parsed(Member(name, v), rest)
  }

  function ParseMembers(s: string): (r: Parsed<seq<Member>>)
    ensures r.Parsed? ==> |r.rest| < |s|
    decreases |s|, 2
  {
    match ParseMember(s)
    case Failed => Failed
    case Parsed(m, afterMember) =>
      var t := SkipSpace(afterMember);
      if t == [] then Failed
      else if t[0] == '}' then Parsed([m], t[1..])
      else if t[0] == ',' then
        match ParseMembers(t[1..])
        case Failed => Failed
        case Parsed(members, rest) => Parsed([m] + members, rest)
      else Failed
  }

  /** A whole JSON text: one value, with white space around it. */
  function ParseText(s: string): Option<Json> {
    match ParseValue(s)
    case Failed => None
    case Parsed(v, rest) => if SkipSpace(rest) == [] then Some(v) else None
  }

  // ---------- strings read back ----------

  lemma EscapeDecodes(c: char, rest: string)
    ensures ParseString(Escape(c) + rest) == Prepend(c, ParseString(rest))
  {
    var s := Escape(c) + rest;
    if c == '\"' || c == '\\' || c == '\n' || c == '\t' || c == '\r' {
      assert s[2..] == rest;
    } else if c >= ' ' {
      assert s[1..] == rest;
    } else {
      var n := c as nat;
      assert s[2..][..4] == ['0', '0', HexDigit(n / 16), HexDigit(n % 16)];
      HexDigitValue(n / 16);
      HexDigitValue(n % 16);
      assert CodeUnit(s[2..]) == Some(n);
      assert s[2 + 4..] == rest;
    }
  }

  lemma HexDigitValue(n: nat)
    requires n < 16
    ensures HexValue(HexDigit(n)) == Some(n)
  {
  }

  lemma {:induction false} StringRoundTrip(text: string, rest: string)
    ensures ParseString(EscapeAll(text) + "\"" + rest) == Parsed(text, rest)
  {
    if text == [] {
      assert (EscapeAll(text) + "\"" + rest)[1..] == rest;
    } else {
      var tail := EscapeAll(text[1..]) + "\"" + rest;
      assert EscapeAll(text) + "\"" + rest == Escape(text[0]) + tail;
      StringRoundTrip(text[1..], rest);
      EscapeDecodes(text[0], tail);
      assert [text[0]] + text[1..] == text;
    }
  }

  // ---------- numbers read back ----------

  /** What follows a number must not extend its token. */
  predicate Delimited(rest: string) {
    rest == [] || !IsNumberChar(rest[0])
  }

  lemma {:induction false} NumberRunStops(token: string, rest: string)
    requires forall i :: 0 <= i < |token| ==> IsNumberChar(token[i])
    requires Delimited(rest)
    ensures NumberRun(token + rest) == |token|
  {
    if token == [] {
      assert token + rest == rest;
    } else {
      assert (token + rest)[1..] == token[1..] + rest;
      NumberRunStops(token[1..], rest);
    }
  }

  lemma NumberRoundTrip(token: string, rest: string)
    requires IsNumber(token) && Delimited(rest)
    ensures ParseValue(token + rest) == Parsed(JNumber(token), rest)
  {
    NumberChars(token);
    NumberRunStops(token, rest);
    hide ParseValue, NumberRun, IsNumber;
    var s := token + rest;
    assert s[0] == token[0];
    StartsNumber(s);
    assert s[..|token|] == token && s[|token|..] == rest;
  }

  lemma StartsNumber(s: string)
    requires s != [] && (s[0] == '-' || IsDigit(s[0]))
    ensures ParseValue(s) == ParseNumber(s)
  {
    hide ParseObject, ParseArray, ParseString, ParseNumber;
    assert SkipSpace(s) == s;
  }

  // ---------- one step of each parser ----------

  lemma ParseLiteral(v: Json, rest: string)
    requires v.JNull? || v.JBool?
    ensures ParseValue(Render(v) + rest) == Parsed(v, rest)
  {
    var s := Render(v) + rest;
    assert Render(v) <= s && s[|Render(v)|..] == rest;
    assert s[0] == Render(v)[0];
    assert SkipSpace(s) == s;
  }

  lemma ParseQuoted(s: string)
    ensures ParseValue("\"" + s)
         == match ParseString(s) case Failed => Failed case Parsed(x, r) => Parsed(JString(x), r)
  {
    var t := "\"" + s;
    assert SkipSpace(t) == t && t[1..] == s;
  }

  lemma ParseBracket(s: string)
    ensures ParseValue("[" + s)
         == match ParseArray(s) case Failed => Failed case Parsed(x, r) => Parsed(JArray(x), r)
  {
    var t := "[" + s;
    assert SkipSpace(t) == t && t[1..] == s;
  }

  lemma ParseBrace(s: string)
    ensures ParseValue("{" + s)
         == match ParseObject(s) case Failed => Failed case Parsed(x, r) => Parsed(JObject(x), r)
  {
    var t := "{" + s;
    assert SkipSpace(t) == t && t[1..] == s;
  }

  /** Leading white space never matters to a value or to a member. */
  lemma SpaceBefore(s: string)
    ensures ParseValue(" " + s) == ParseValue(s)
    ensures ParseMember(" " + s) == ParseMember(s)
  {
    assert (" " + s)[1..] == s;
  }

  lemma SpaceBeforeList(s: string)
    ensures ParseItems(" " + s) == ParseItems(s)
    ensures ParseMembers(" " + s) == ParseMembers(s)
  {
    SpaceBefore(s);
  }

  lemma LastItem(s: string, v: Json, rest: string)
    requires ParseValue(s) == Parsed(v, "]" + rest)
    ensures ParseItems(s) == Parsed([v], rest)
  {
    assert ("]" + rest)[1..] == rest;
  }

  lemma AfterComma(tail: string)
    ensures var s := ", " + tail; SkipSpace(s) == s && s[0] == ',' && s[1..] == " " + tail
  {
  }

  lemma OneMoreItem(s: string, v: Json, tail: string, items: seq<Json>, rest: string)
    requires ParseValue(s) == Parsed(v, ", " + tail)
    requires ParseItems(tail) == Parsed(items, rest)
    ensures ParseItems(s) == Parsed([v] + items, rest)
  {
    hide ParseValue;
    AfterComma(tail);
    SpaceBeforeList(tail);
    hide SkipSpace;
  }

  lemma NamedValue(s: string, name: string, tail: string)
    requires ParseString(s) == Parsed(name, ": " + tail)
    ensures ParseMember("\"" + s)
         == match ParseValue(tail) case Failed => Failed case Parsed(v, r) => Parsed(Member(name, v), r)
  {
    var t := "\"" + s;
    assert SkipSpace(t) == t && t[1..] == s;
    var u := ": " + tail;
    assert SkipSpace(u) == u && u[1..] == " " + tail;
    SpaceBefore(tail);
  }

  lemma LastMember(s: string, m: Member, rest: string)
    requires ParseMember(s) == Parsed(m, "}" + rest)
    ensures ParseMembers(s) == Parsed([m], rest)
  {
    assert ("}" + rest)[1..] == rest;
  }

  lemma OneMoreMember(s: string, m: Member, tail: string, members: seq<Member>, rest: string)
    requires ParseMember(s) == Parsed(m, ", " + tail)
    requires ParseMembers(tail) == Parsed(members, rest)
    ensures ParseMembers(s) == Parsed([m] + members, rest)
  {
    hide ParseMember, ParseValue;
    AfterComma(tail);
    SpaceBeforeList(tail);
    hide SkipSpace;
  }

  // ---------- values read back ----------

  lemma {:induction false} ValueRoundTrip(v: Json, rest: string)
    requires WellFormed(v)
    requires v.JNumber? ==> Delimited(rest)
    ensures ParseValue(Render(v) + rest) == Parsed(v, rest)
    decreases v, 1
  {
    var s := Render(v) + rest;
    match v {
      case JNull =>
        ParseLiteral(v, rest);
      case JBool(b) =>
        ParseLiteral(v, rest);
      case JNumber(token) =>
        NumberRoundTrip(token, rest);
      case JString(text) =>
        RegroupQuoted("\"", EscapeAll(text), "\"", rest);
        ParseQuoted(EscapeAll(text) + "\"" + rest);
        StringRoundTrip(text, rest);
      case JArray(items) =>
        RegroupQuoted("[", RenderItems(items), "]", rest);
        ParseBracket(RenderItems(items) + "]" + rest);
        ArrayRoundTrip(items, rest);
      case JObject(members) =>
        RegroupQuoted("{", RenderMembers(members), "}", rest);
        ParseBrace(RenderMembers(members) + "}" + rest);
        ObjectRoundTrip(members, rest);
    }
  }

  // Concatenation is regrouped on plain strings, so that no renderer is unfolded on the way.

  lemma RegroupMember(name: string, v: string, rest: string)
    ensures "\"" + name + "\"" + ": " + v + rest == "\"" + (name + "\"" + (": " + (v + rest)))
  {
  }

  lemma RegroupList(head: string, tail: string, close: string, rest: string)
    ensures head + ", " + tail + close + rest == head + (", " + (tail + close + rest))
    ensures head + "" + "" + close + rest == head + (close + rest)
  {
  }

  lemma RegroupQuoted(open: string, s: string, close: string, rest: string)
    ensures open + s + close + rest == open + (s + close + rest)
  {
  }

  /** A rendered value starts with neither white space nor a closing bracket. */
  lemma RenderHead(v: Json)
    requires WellFormed(v)
    ensures Render(v) != [] && !IsSpace(Render(v)[0]) && Render(v)[0] != ']'
  {
    if v.JNumber? {
      NumberChars(v.token);
    }
  }

  lemma {:induction false} ArrayRoundTrip(items: seq<Json>, rest: string)
    requires forall i | 0 <= i < |items| :: WellFormed(items[i])
    ensures ParseArray(RenderItems(items) + "]" + rest) == Parsed(items, rest)
    decreases items, 2
  {
    var s := RenderItems(items) + "]" + rest;
    if items == [] {
      assert s == "]" + rest && s[1..] == rest;
    } else {
      RenderHead(items[0]);
      assert s[0] == Render(items[0])[0];
      assert SkipSpace(s) == s;
      ItemsRoundTrip(items, rest);
    }
  }

  lemma {:induction false} ItemsRoundTrip(items: seq<Json>, rest: string)
    requires items != []
    requires forall i | 0 <= i < |items| :: WellFormed(items[i])
    ensures ParseItems(RenderItems(items) + "]" + rest) == Parsed(items, rest)
    decreases items, 1
  {
    var s := RenderItems(items) + "]" + rest;
    if |items| == 1 {
      RegroupList(Render(items[0]), "", "]", rest);
      ValueRoundTrip(items[0], "]" + rest);
      LastItem(s, items[0], rest);
      assert [items[0]] == items;
    } else {
      var tail := RenderItems(items[1..]) + "]" + rest;
      RegroupList(Render(items[0]), RenderItems(items[1..]), "]", rest);
      ValueRoundTrip(items[0], ", " + tail);
      ItemsRoundTrip(items[1..], rest);
      OneMoreItem(s, items[0], tail, items[1..], rest);
      assert [items[0]] + items[1..] == items;
    }
  }

  lemma {:induction false} ObjectRoundTrip(members: seq<Member>, rest: string)
    requires forall i | 0 <= i < |members| :: WellFormed(members[i].value)
    ensures ParseObject(RenderMembers(members) + "}" + rest) == Parsed(members, rest)
    decreases members, 2
  {
    var s := RenderMembers(members) + "}" + rest;
    if members == [] {
      assert s == "}" + rest && s[1..] == rest;
    } else {
      assert RenderMember(members[0])[0] == '\"';
      assert s[0] == RenderMember(members[0])[0];
      assert SkipSpace(s) == s;
      MembersRoundTrip(members, rest);
    }
  }

  lemma {:induction false} MemberRoundTrip(m: Member, rest: string)
    requires WellFormed(m.value)
    requires m.value.JNumber? ==> Delimited(rest)
    ensures ParseMember(RenderMember(m) + rest) == Parsed(m, rest)
    decreases m, 0
  {
    var name, v := EscapeAll(m.name), Render(m.value);
    RegroupMember(name, v, rest);
    StringRoundTrip(m.name, ": " + (v + rest));
    ValueRoundTrip(m.value, rest);
    NamedValue(name + "\"" + (": " + (v + rest)), m.name, v + rest);
  }

  lemma {:induction false} MembersRoundTrip(members: seq<Member>, rest: string)
    requires members != []
    requires forall i | 0 <= i < |members| :: WellFormed(members[i].value)
    ensures ParseMembers(RenderMembers(members) + "}" + rest) == Parsed(members, rest)
    decreases members, 1
  {
    hide ParseMembers, ParseMember, RenderMember, ParseValue;
    var s := RenderMembers(members) + "}" + rest;
    if |members| == 1 {
      RegroupList(RenderMember(members[0]), "", "}", rest);
      MemberRoundTrip(members[0], "}" + rest);
      LastMember(s, members[0], rest);
      assert [members[0]] == members;
    } else {
      var tail := RenderMembers(members[1..]) + "}" + rest;
      RegroupList(RenderMember(members[0]), RenderMembers(members[1..]), "}", rest);
      MemberRoundTrip(members[0], ", " + tail);
      MembersRoundTrip(members[1..], rest);
      OneMoreMember(s, members[0], tail, members[1..], rest);
      assert [members[0]] + members[1..] == members;
    }
  }

  /** Parsing a rendered tree gives the tree back. */
  lemma TextRoundTrip(v: Json)
    requires WellFormed(v)
    ensures ParseText(Render(v)) == Some(v)
  {
    ValueRoundTrip(v, "");
    assert Render(v) + "" == Render(v);
  }

  /** Hence two different trees never share a text. */
  lemma RenderInjective(v: Json, w: Json)
    requires WellFormed(v) && WellFormed(w)
    requires Render(v) == Render(w)
    ensures v == w
  {
    TextRoundTrip(v);
    TextRoundTrip(w);
  }
}
