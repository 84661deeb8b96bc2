/** JSON texts: what the printer writes for a value tree, and a reader of the RFC 8259 grammar. */
module Json {
  import opened Text
  import opened Wrappers

  /** A value tree; a number is its text. */
  datatype Json =
    | JNull
    | JBool(b: bool)
    | JNumber(text: string)
    | JString(s: string)
    | JArray(items: seq<Json>)
    | JObject(members: seq<Member>)

  datatype Member = Member(key: string, value: Json)

  // ---- writing -------------------------------------------------------------------

  /** What `json_escape` writes for one character. */
  function EscapeChar(c: char): string {
    if c == '"' then "\\\""
    else if c == '\\' then "\\\\"
    else if c == '\n' then "\\n"
    else if c == '\t' then "\\t"
    else if c == '\r' then "\\r"
    else if c < ' ' then "\\u00" + [LowerHex(c as int / 16), LowerHex(c as int % 16)]
    else [c]
  }

  function EscapeBody(s: string): string {
    if s == "" then "" else EscapeChar(s[0]) + EscapeBody(s[1..])
  }

  function Escape(s: string): string {
    "\"" + EscapeBody(s) + "\""
  }

  function Render(j: Json): string
    decreases j, 0
  {
    match j
    case JNull => "null"
    case JBool(b) => if b then "true" else "false"
    case JNumber(text) => text
    case JString(s) => Escape(s)
    case JArray(items) => "[" + RenderItems(items) + "]"
    case JObject(members) => "{" + RenderMembers(members) + "}"
  }

  function RenderItems(items: seq<Json>): string
    decreases items, 1
  {
    if items == [] then ""
    else if |items| == 1 then Render(items[0])
    else Render(items[0]) + "," + RenderItems(items[1..])
  }

  function RenderMember(m: Member): string
    decreases m, 0
  {
    Escape(m.key) + ":" + Render(m.value)
  }

  function RenderMembers(members: seq<Member>): string
    decreases members, 1
  {
    if members == [] then ""
    else if |members| == 1 then RenderMember(members[0])
    else RenderMember(members[0]) + "," + RenderMembers(members[1..])
  }

  // ---- reading -------------------------------------------------------------------

  datatype Read<T> = Fail | Read(value: T, rest: string)

  predicate IsWs(c: char) {
    c == ' ' || c == '\t' || c == '\n' || c == '\r'
  }

  function SkipWs(s: string): (r: string)
    ensures |r| <= |s|
  {
    if s != "" && IsWs(s[0]) then SkipWs(s[1..]) else s
  }

  /** The character an escape after the backslash stands for; `\u` is read up to 007F. */
  function ReadEscape(s: string): (r: Read<char>)
    ensures r.Read? ==> |r.rest| < |s|
  {
    if s == "" then Fail
    else if s[0] == 'u' then
      if |s| >= 5 && s[1..3] == "00" && 0 <= Hex(s[3]) < 8 && Hex(s[4]) >= 0
      then Read((16 * Hex(s[3]) + Hex(s[4])) as char, s[5..]) else Fail
    else if s[0] == '"' || s[0] == '\\' || s[0] == '/' then Read(s[0], s[1..])
    else if s[0] == 'b' then Read(8 as char, s[1..])
    else if s[0] == 'f' then Read(12 as char, s[1..])
    else if s[0] == 'n' then Read('\n', s[1..])
    else if s[0] == 'r' then Read('\r', s[1..])
    else if s[0] == 't' then Read('\t', s[1..])
    else Fail
  }

  /** A string after its opening quote. */
  function ReadString(s: string): (r: Read<string>)
    ensures r.Read? ==> |r.rest| < |s|
    decreases |s|
  {
    if s == "" || s[0] < ' ' then Fail
    else if s[0] == '"' then Read("", s[1..])
    else
      var c := if s[0] == '\\' then ReadEscape(s[1..]) else Read(s[0], s[1..]);
      if c.Fail? then Fail
      else
        var t := ReadString(c.rest);
        if t.Fail? then Fail else Read([c.value] + t.value, t.rest)
  }

  function AfterDigits(s: string): (r: string)
    ensures |r| <= |s| && (s != "" && IsDigit(s[0]) ==> |r| < |s|)
  {
    if s != "" && IsDigit(s[0]) then AfterDigits(s[1..]) else s
  }

  function AfterInt(s: string): (r: string)
    ensures |r| <= |s|
  {
    if s == "" || !IsDigit(s[0]) then s else if s[0] == '0' then s[1..] else AfterDigits(s)
  }

  function AfterFraction(s: string): (r: string)
    ensures |r| <= |s|
  {
    if |s| >= 2 && s[0] == '.' && IsDigit(s[1]) then AfterDigits(s[1..]) else s
  }

  predicate IsSign(c: char) {
    c == '+' || c == '-'
  }

  function AfterExponent(s: string): (r: string)
    ensures |r| <= |s|
  {
    if |s| < 2 || (s[0] != 'e' && s[0] != 'E') then s
    else
      var k := if IsSign(s[1]) then 2 else 1;
      if k < |s| && IsDigit(s[k]) then AfterDigits(s[k..]) else s
  }

  /** The longest number at the start of s: minus sign, integer, fraction, exponent. */
  function ReadNumber(s: string): (r: Read<Json>)
    ensures r.Read? ==> |r.rest| < |s|
  {
    var m := if s != "" && s[0] == '-' then s[1..] else s;
    if m == "" || !IsDigit(m[0]) then Fail
    else
      var rest := AfterExponent(AfterFraction(AfterInt(m)));
      assert |AfterInt(m)| < |m|;
      Read(JNumber(s[..|s| - |rest|]), rest)
  }

  function ReadValue(s: string): (r: Read<Json>)
    ensures r.Read? ==> |r.rest| < |s|
    decreases |s|, 1
  {
    if "null" <= s then Read(JNull, s[4..])
    else if "true" <= s then Read(JBool(true), s[4..])
    else if "false" <= s then Read(JBool(false), s[5..])
    else if s == "" then Fail
    else if s[0] == '"' then
      var t := ReadString(s[1..]);
      if t.Fail? then Fail else Read(JString(t.value), t.rest)
    else if s[0] == '[' then
      var t := SkipWs(s[1..]);
      if t != "" && t[0] == ']' then Read(JArray([]), t[1..])
      else
        var items := ReadItems(t);
        if items.Fail? then Fail else Read(JArray(items.value), items.rest)
    else if s[0] == '{' then
      var t := SkipWs(s[1..]);
      if t != "" && t[0] == '}' then Read(JObject([]), t[1..])
      else
        var members := ReadMembers(t);
        if members.Fail? then Fail else Read(JObject(members.value), members.rest)
    else ReadNumber(s)
  }

  /** One or more values separated by commas, and the closing bracket. */
  function ReadItems(s: string): (r: Read<seq<Json>>)
    ensures r.Read? ==> |r.rest| < |s|
    decreases |s|, 2
  {
    var v := ReadValue(s);
    if v.Fail? then Fail
    else
      var t := SkipWs(v.rest);
      if t != "" && t[0] == ']' then Read([v.value], t[1..])
      else if t != "" && t[0] == ',' then
        var more := ReadItems(SkipWs(t[1..]));
        if more.Fail? then Fail else Read([v.value] + more.value, more.rest)
      else Fail
  }

  function ReadMember(s: string): (r: Read<Member>)
    ensures r.Read? ==> |r.rest| < |s|
    decreases |s|, 2
  {
    if s == "" || s[0] != '"' then Fail
    else
      var k := ReadString(s[1..]);
      if k.Fail? then Fail
      else
        var t := SkipWs(k.rest);
        if t == "" || t[0] != ':' then Fail
        else
          var v := ReadValue(SkipWs(t[1..]));
          if v.Fail? then Fail else Read(Member(k.value, v.value), v.rest)
  }

  function ReadMembers(s: string): (r: Read<seq<Member>>)
    ensures r.Read? ==> |r.rest| < |s|
    decreases |s|, 3
  {
    var m := ReadMember(s);
    if m.Fail? then Fail
    else
      var t := SkipWs(m.rest);
      if t != "" && t[0] == '}' then Read([m.value], t[1..])
      else if t != "" && t[0] == ',' then
        var more := ReadMembers(SkipWs(t[1..]));
        if more.Fail? then Fail else Read([m.value] + more.value, more.rest)
      else Fail
  }

  /** A JSON text: one value between optional white space. */
  function ReadText(s: string): Option<Json> {
    var v := ReadValue(SkipWs(s));
    if v.Read? && SkipWs(v.rest) == "" then Some(v.value) else None
  }

  // ---- what is written reads back ----------------------------------------------------

  /** A text that is one whole number. */
  predicate IsNumber(t: string) {
    ReadNumber(t) == Read(JNumber(t), "")
  }

  /** Every number of the tree is a JSON number. */
  predicate Proper(j: Json)
    decreases j
  {
    match j
    case JNumber(text) => IsNumber(text)
    case JArray(items) => forall i :: 0 <= i < |items| ==> Proper(items[i])
    case JObject(members) => forall i :: 0 <= i < |members| ==> Proper(members[i].value)
    case _ => true
  }

  /** Nothing, or what may follow a value inside an array or object. */
  predicate Follows(rest: string) {
    rest == "" || rest[0] == ',' || rest[0] == ']' || rest[0] == '}'
  }

  lemma EscapeReads(c: char, rest: string)
    ensures var e := EscapeChar(c);
            && e != "" && e[0] >= ' ' && e[0] != '"'
            && (if e[0] == '\\' then ReadEscape(e[1..] + rest) == Read(c, rest) else e == [c])
  {
    var e := EscapeChar(c);
    if c < ' ' && |e| == 6 {
      var v := c as int;
      assert 16 * (v / 16) + v % 16 == v && v / 16 < 2;
      assert e == ['\\', 'u', '0', '0', e[4], e[5]];
      assert e[1..] + rest == ['u', '0', '0', e[4], e[5]] + rest;
      assert (e[1..] + rest)[1..3] == ['0', '0'] && (e[1..] + rest)[5..] == rest;
    } else if e[0] == '\\' {
      assert e[1..] + rest == [e[1]] + rest;
      assert (e[1..] + rest)[1..] == rest;
    }
  }

  lemma EscapeSplit(s: string, rest: string)
    requires s != ""
    ensures EscapeBody(s) + "\"" + rest == EscapeChar(s[0]) + (EscapeBody(s[1..]) + "\"" + rest)
    ensures s == [s[0]] + s[1..]
  {
    hide EscapeChar;
  }

  lemma ReadsClose(rest: string)
    ensures ReadString(EscapeBody("") + "\"" + rest) == Read("", rest)
  {
    assert (EscapeBody("") + "\"" + rest)[1..] == rest;
  }

  lemma {:induction false} StringReads(s: string, rest: string)
    ensures ReadString(EscapeBody(s) + "\"" + rest) == Read(s, rest)
  {
    hide *;
    if s == "" {
      ReadsClose(rest);
    } else {
      var tail := EscapeBody(s[1..]) + "\"" + rest;
      StringReads(s[1..], rest);
      EscapeReads(s[0], tail);
      EscapeSplit(s, rest);
      ReadOneChar(EscapeChar(s[0]), tail, s[0], s[1..], rest);
    }
  }

  lemma ReadOneChar(e: string, tail: string, c: char, more: string, rest: string)
    requires e != "" && e[0] >= ' ' && e[0] != '"' && ReadString(tail) == Read(more, rest)
    requires if e[0] == '\\' then ReadEscape(e[1..] + tail) == Read(c, tail) else e == [c]
    ensures ReadString(e + tail) == Read([c] + more, rest)
  {
    hide ReadEscape;
    var t := e + tail;
    assert t[0] == e[0] && t[1..] == e[1..] + tail;
    if e[0] != '\\' {
      assert t[1..] == tail;
    }
  }

  lemma {:induction false} DigitsThen(t: string, rest: string)
    requires rest == "" || !IsDigit(rest[0])
    ensures AfterDigits(t + rest) == AfterDigits(t) + rest
  {
    if t != "" && IsDigit(t[0]) {
      DigitsThen(t[1..], rest);
      assert (t + rest)[1..] == t[1..] + rest;
    } else if t == "" {
      assert t + rest == rest;
    }
  }

  lemma IntThen(t: string, rest: string)
    requires Follows(rest)
    ensures AfterInt(t + rest) == AfterInt(t) + rest
  {
    DigitsThen(t, rest);
    if t == "" {
      assert t + rest == rest;
    } else {
      assert (t + rest)[1..] == t[1..] + rest;
    }
  }

  lemma FractionThen(t: string, rest: string)
    requires Follows(rest)
    ensures AfterFraction(t + rest) == AfterFraction(t) + rest
  {
    if t == "" {
      assert t + rest == rest;
    } else {
      assert (t + rest)[1..] == t[1..] + rest;
      DigitsThen(t[1..], rest);
    }
  }

  lemma ExponentThen(t: string, rest: string)
    requires Follows(rest)
    ensures AfterExponent(t + rest) == AfterExponent(t) + rest
  {
    hide AfterDigits;
    if |t| < 2 {
      assert t == "" ==> t + rest == rest;
    } else {
      var k := if IsSign(t[1]) then 2 else 1;
      assert (t + rest)[k..] == t[k..] + rest;
      DigitsThen(t[k..], rest);
    }
  }

  lemma NumberReads(t: string, rest: string)
    requires IsNumber(t) && Follows(rest)
    ensures ReadNumber(t + rest) == Read(JNumber(t), rest)
  {
    hide AfterInt, AfterFraction, AfterExponent;
    var m := if t != "" && t[0] == '-' then t[1..] else t;
    var m' := if t + rest != "" && (t + rest)[0] == '-' then (t + rest)[1..] else t + rest;
    assert m' == m + rest && m != "" && IsDigit(m[0]);
    IntThen(m, rest);
    FractionThen(AfterInt(m), rest);
    ExponentThen(AfterFraction(AfterInt(m)), rest);
    var left := AfterExponent(AfterFraction(AfterInt(m)));
    assert left == "" && left + rest == rest;
    assert (t + rest)[..|t + rest| - |rest|] == t;
  }

  /** No value starts with white space or a closing bracket. */
  predicate Opens(s: string) {
    s != "" && !IsWs(s[0]) && s[0] != ']' && s[0] != '}'
  }

  lemma RenderOpens(j: Json)
    requires Proper(j)
    ensures Opens(Render(j))
  {
  }

  lemma SkipNone(s: string, rest: string)
    requires Opens(s)
    ensures SkipWs(s + rest) == s + rest && (s + rest)[0] == s[0]
  {
  }

  /** Reading what was written gives the value back and stops right after it. */
  lemma {:induction false} ValueReads(j: Json, rest: string)
    requires Proper(j) && Follows(rest)
    ensures ReadValue(Render(j) + rest) == Read(j, rest)
    decreases j, 0
  {
    var t := Render(j) + rest;
    hide ReadValue, EscapeBody, IsNumber, ReadNumber, ReadString, ReadItems, ReadMembers, RenderItems, RenderMembers;
    match j
    case JNull => WordsAreValues(rest);
    case JBool(b) => WordsAreValues(rest);
    case JNumber(text) =>
      NumberReads(text, rest);
      NumberIsValue(text, rest);
    case JString(s) =>
      StringReads(s, rest);
      assert t == "\"" + (EscapeBody(s) + "\"" + rest);
      StringIsValue(EscapeBody(s) + "\"" + rest, s, rest);
    case JArray(items) =>
      if items == [] {
        EmptyAreValues(rest);
        RenderNothing();
        assert t == "[]" + rest;
      } else {
        ItemsRead(items, rest);
        ArrayIsValue(RenderItems(items) + ("]" + rest), items, rest) by { ItemsOpen(items, "]" + rest); }
        assert t == "[" + (RenderItems(items) + ("]" + rest));
      }
    case JObject(members) =>
      if members == [] {
        EmptyAreValues(rest);
        RenderNothing();
        assert t == "{}" + rest;
      } else {
        MembersRead(members, rest);
        ObjectIsValue(RenderMembers(members) + ("}" + rest), members, rest) by { MembersOpen(members, "}" + rest); }
        assert t == "{" + (RenderMembers(members) + ("}" + rest));
      }
  }

  lemma RenderNothing()
    ensures RenderItems([]) == "" && RenderMembers([]) == ""
  {
  }

  lemma WordsAreValues(rest: string)
    ensures ReadValue("null" + rest) == Read(JNull, rest)
    ensures ReadValue("true" + rest) == Read(JBool(true), rest)
    ensures ReadValue("false" + rest) == Read(JBool(false), rest)
  {
    assert ("null" + rest)[4..] == rest && ("true" + rest)[4..] == rest && ("false" + rest)[5..] == rest;
    assert ("true" + rest)[0] == 't' && ("false" + rest)[0] == 'f';
  }

  lemma EmptyAreValues(rest: string)
    ensures ReadValue("[]" + rest) == Read(JArray([]), rest)
    ensures ReadValue("{}" + rest) == Read(JObject([]), rest)
  {
    assert ("[]" + rest)[1..] == "]" + rest && ("{}" + rest)[1..] == "}" + rest;
    assert ("]" + rest)[1..] == rest && ("}" + rest)[1..] == rest;
    assert ("[]" + rest)[0] == '[' && ("{}" + rest)[0] == '{';
  }

  lemma StringIsValue(body: string, s: string, rest: string)
    requires ReadString(body) == Read(s, rest)
    ensures ReadValue("\"" + body) == Read(JString(s), rest)
  {
    assert ("\"" + body)[0] == '"' && ("\"" + body)[1..] == body;
  }

  lemma NumberIsValue(text: string, rest: string)
    requires IsNumber(text)
    ensures ReadValue(text + rest) == ReadNumber(text + rest)
  {
    assert text != "" && (text[0] == '-' || IsDigit(text[0])) && (text + rest)[0] == text[0];
  }

  lemma ArrayIsValue(body: string, items: seq<Json>, rest: string)
    requires ReadItems(body) == Read(items, rest) && Opens(body)
    ensures ReadValue("[" + body) == Read(JArray(items), rest)
  {
    var t := "[" + body;
    assert t[0] == '[' && t[1..] == body;
    SkipNone(body, "");
    assert body + "" == body;
  }

  lemma ObjectIsValue(body: string, members: seq<Member>, rest: string)
    requires ReadMembers(body) == Read(members, rest) && Opens(body)
    ensures ReadValue("{" + body) == Read(JObject(members), rest)
  {
    var t := "{" + body;
    assert t[0] == '{' && t[1..] == body;
    SkipNone(body, "");
    assert body + "" == body;
  }

  lemma ItemsOpen(items: seq<Json>, rest: string)
    requires items != [] && Proper(items[0])
    ensures Opens(RenderItems(items) + rest)
  {
    RenderOpens(items[0]);
  }

  lemma MembersOpen(members: seq<Member>, rest: string)
    requires members != []
    ensures Opens(RenderMembers(members) + rest)
  {
  }

  lemma ItemsText(items: seq<Json>)
    requires items != [] && forall i :: 0 <= i < |items| ==> Proper(items[i])
    ensures RenderItems(items)
            == if |items| == 1 then Render(items[0]) else Render(items[0]) + "," + RenderItems(items[1..])
    ensures items == [items[0]] + items[1..] && (|items| == 1 ==> items == [items[0]])
    ensures Proper(items[0]) && forall i :: 0 <= i < |items[1..]| ==> Proper(items[1..][i])
  {
  }

  lemma MembersText(members: seq<Member>)
    requires members != [] && forall i :: 0 <= i < |members| ==> Proper(members[i].value)
    ensures RenderMembers(members)
            == if |members| == 1 then RenderMember(members[0])
               else RenderMember(members[0]) + "," + RenderMembers(members[1..])
    ensures members == [members[0]] + members[1..] && (|members| == 1 ==> members == [members[0]])
    ensures Proper(members[0].value) && forall i :: 0 <= i < |members[1..]| ==> Proper(members[1..][i].value)
  {
  }

  lemma FollowsAll(rest: string)
    ensures Follows("," + rest) && Follows("]" + rest) && Follows("}" + rest)
  {
  }

  lemma Regroup(a: string, b: string, c: string)
    ensures (a + "," + b) + c == a + ("," + (b + c))
  {
  }

  lemma {:induction false} ItemsRead(items: seq<Json>, rest: string)
    requires items != [] && forall i :: 0 <= i < |items| ==> Proper(items[i])
    ensures ReadItems(RenderItems(items) + ("]" + rest)) == Read(items, rest)
    decreases items, 1
  {
    hide *;
    var head := Render(items[0]);
    ItemsText(items);
    if |items| == 1 {
      FollowsAll(rest);
      ValueReads(items[0], "]" + rest);
      LastItem(head + ("]" + rest), items[0], rest);
    } else {
      var text, tail := RenderItems(items[1..]), RenderItems(items[1..]) + ("]" + rest);
      ItemsRead(items[1..], rest);
      ItemsOpen(items[1..], "]" + rest);
      FollowsAll(tail);
      ValueReads(items[0], "," + tail);
      Regroup(head, text, "]" + rest);
      NextItem(head + ("," + tail), items[0], tail, items[1..], rest);
    }
  }

  lemma LastItem(s: string, v: Json, rest: string)
    requires ReadValue(s) == Read(v, "]" + rest)
    ensures ReadItems(s) == Read([v], rest)
  {
    assert ("]" + rest)[1..] == rest;
  }

  lemma NextItem(s: string, v: Json, tail: string, more: seq<Json>, rest: string)
    requires ReadValue(s) == Read(v, "," + tail) && Opens(tail) && ReadItems(tail) == Read(more, rest)
    ensures ReadItems(s) == Read([v] + more, rest)
  {
    assert ("," + tail)[1..] == tail;
    SkipNone(tail, "");
    assert tail + "" == tail;
  }

  lemma {:induction false} MemberReads(m: Member, rest: string)
    requires Proper(m.value) && Follows(rest)
    ensures ReadMember(RenderMember(m) + rest) == Read(m, rest)
    decreases m, 1
  {
    hide Render, EscapeBody, ReadString, ReadValue, ReadMember, Opens, SkipWs;
    var value := Render(m.value) + rest;
    StringReads(m.key, ":" + value);
    ValueReads(m.value, rest);
    RenderOpens(m.value);
    SkipNone(Render(m.value), rest);
    MemberIs(EscapeBody(m.key) + "\"" + (":" + value), m.key, value, m.value, rest);
    MemberText(EscapeBody(m.key), Render(m.value), rest);
  }

  lemma MemberText(body: string, value: string, rest: string)
    ensures ("\"" + body + "\"") + ":" + value + rest == "\"" + (body + "\"" + (":" + (value + rest)))
  {
  }

  lemma MemberIs(body: string, key: string, value: string, v: Json, rest: string)
    requires ReadString(body) == Read(key, ":" + value) && ReadValue(value) == Read(v, rest) && SkipWs(value) == value
    ensures ReadMember("\"" + body) == Read(Member(key, v), rest)
  {
    hide ReadString, ReadValue;
    assert ("\"" + body)[0] == '"' && ("\"" + body)[1..] == body;
    assert (":" + value)[1..] == value && SkipWs(":" + value) == ":" + value;
  }

  lemma {:induction false} MembersRead(members: seq<Member>, rest: string)
    requires members != [] && forall i :: 0 <= i < |members| ==> Proper(members[i].value)
    ensures ReadMembers(RenderMembers(members) + ("}" + rest)) == Read(members, rest)
    decreases members, 2
  {
    hide *;
    var head := RenderMember(members[0]);
    MembersText(members);
    if |members| == 1 {
      FollowsAll(rest);
      MemberReads(members[0], "}" + rest);
      LastMember(head + ("}" + rest), members[0], rest);
    } else {
      var text, tail := RenderMembers(members[1..]), RenderMembers(members[1..]) + ("}" + rest);
      MembersRead(members[1..], rest);
      MembersOpen(members[1..], "}" + rest);
      FollowsAll(tail);
      MemberReads(members[0], "," + tail);
      Regroup(head, text, "}" + rest);
      NextMember(head + ("," + tail), members[0], tail, members[1..], rest);
    }
  }

  lemma LastMember(s: string, m: Member, rest: string)
    requires ReadMember(s) == Read(m, "}" + rest)
    ensures ReadMembers(s) == Read([m], rest)
  {
    assert ("}" + rest)[1..] == rest;
  }

  lemma NextMember(s: string, m: Member, tail: string, more: seq<Member>, rest: string)
    requires ReadMember(s) == Read(m, "," + tail) && Opens(tail) && ReadMembers(tail) == Read(more, rest)
    ensures ReadMembers(s) == Read([m] + more, rest)
  {
    assert ("," + tail)[1..] == tail;
    SkipNone(tail, "");
    assert tail + "" == tail;
  }

  /** Every rendered value is a JSON text, and reading it gives the value back. */
  lemma RenderReadsBack(j: Json)
    requires Proper(j)
    ensures ReadText(Render(j)) == Some(j)
  {
    RenderOpens(j);
    SkipNone(Render(j), "");
    ValueReads(j, "");
    assert Render(j) + "" == Render(j);
  }

  /** The escapes of section 7 of RFC 8259 that are written, and the marks between values. */
  lemma EscapesWritten(s: string)
    ensures EscapeBody("\"" + s) == "\\\"" + EscapeBody(s) && EscapeBody("\\" + s) == "\\\\" + EscapeBody(s)
    ensures EscapeBody("\n" + s) == "\\n" + EscapeBody(s) && EscapeBody("\t" + s) == "\\t" + EscapeBody(s)
    ensures EscapeBody("\r" + s) == "\\r" + EscapeBody(s) && EscapeBody("/" + s) == "/" + EscapeBody(s)
    ensures EscapeBody([31 as char] + s) == "\\u001f" + EscapeBody(s)
  {
    hide EscapeBody;
    EscapeFirst('"', s);
    EscapeFirst('\\', s);
    EscapeFirst('\n', s);
    EscapeFirst('\t', s);
    EscapeFirst('\r', s);
    EscapeFirst('/', s);
    EscapeFirst(31 as char, s);
  }

  lemma EscapeFirst(c: char, s: string)
    ensures EscapeBody([c] + s) == EscapeChar(c) + EscapeBody(s)
  {
    assert ([c] + s)[1..] == s;
  }

  lemma MarksWritten(a: Json, b: Json, k: string, l: string)
    ensures Render(JArray([a, b])) == "[" + (Render(a) + "," + Render(b)) + "]" && Render(JArray([])) == "[]"
    ensures Render(JObject([Member(k, a), Member(l, b)]))
            == "{" + (Escape(k) + ":" + Render(a) + "," + (Escape(l) + ":" + Render(b))) + "}"
    ensures Render(JObject([])) == "{}"
  {
    hide *;
    TwoItems(a, b);
    TwoMembers(Member(k, a), Member(l, b));
    NoItems();
    Bracketed([a, b], [Member(k, a), Member(l, b)]);
    Bracketed([], []);
    assert "[" + "" + "]" == "[]" && "{" + "" + "}" == "{}";
  }

  lemma Bracketed(items: seq<Json>, members: seq<Member>)
    ensures Render(JArray(items)) == "[" + RenderItems(items) + "]"
    ensures Render(JObject(members)) == "{" + RenderMembers(members) + "}"
  {
  }

  lemma NoItems()
    ensures RenderItems([]) == "" && RenderMembers([]) == ""
  {
  }

  lemma TwoItems(a: Json, b: Json)
    ensures RenderItems([a, b]) == Render(a) + "," + Render(b)
  {
    var items := [a, b];
    assert items[1..] == [b] && RenderItems([b]) == Render(b);
    assert RenderItems(items) == Render(a) + "," + RenderItems(items[1..]);
  }

  lemma TwoMembers(m: Member, n: Member)
    ensures RenderMembers([m, n])
            == Escape(m.key) + ":" + Render(m.value) + "," + (Escape(n.key) + ":" + Render(n.value))
  {
    hide Escape;
    var members := [m, n];
    assert members[1..] == [n] && RenderMembers([n]) == RenderMember(n);
    assert RenderMembers(members) == RenderMember(m) + "," + RenderMembers(members[1..]);
  }
}
