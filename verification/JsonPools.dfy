/** Values kept in pools, and their JSON printer.  Arrays and maps hold already printed texts. */
module JsonPools {
  import opened Text
  import opened Wrappers
  import opened Json

  // ---- the escape buffer -----------------------------------------------------------

  /** The escaped text and its NUL fit the `2 * len + 3` bytes allocated for them. */
  predicate EscapeFits(s: string) {
    |Escape(s)| + 1 <= 2 * |s| + 3
  }

  predicate Spelled(c: char) {
    c == '"' || c == '\\' || c == '\n' || c == '\t' || c == '\r'
  }

  function Controls(s: string): nat {
    if s == "" then 0 else (if s[0] < ' ' && !Spelled(s[0]) then 1 else 0) + Controls(s[1..])
  }

  function Copied(s: string): nat {
    if s == "" then 0 else (if s[0] >= ' ' && !Spelled(s[0]) then 1 else 0) + Copied(s[1..])
  }

  lemma {:induction false} EscapedLength(s: string)
    ensures |EscapeBody(s)| == 2 * |s| + 4 * Controls(s) - Copied(s)
  {
    if s != "" {
      EscapedLength(s[1..]);
    }
  }

  /** A control character takes six bytes and a plain one takes one, so the buffer is large
      enough exactly when there are at least four plain characters for every control character. */
  lemma EscapeFitsIff(s: string)
    ensures EscapeFits(s) <==> 4 * Controls(s) <= Copied(s)
  {
    EscapedLength(s);
  }

  /** One control character alone needs nine bytes of a five-byte buffer. */
  lemma EscapeOverflows()
    ensures !EscapeFits([1 as char]) && |Escape([1 as char])| + 1 == 9
  {
    var s := [1 as char];
    EscapedLength(s);
    assert s[1..] == "";
  }

  lemma {:induction false} EscapeConcat(s: string, t: string)
    ensures EscapeBody(s + t) == EscapeBody(s) + EscapeBody(t)
  {
    if s == "" {
      assert s + t == t;
    } else {
      assert (s + t)[1..] == s[1..] + t;
      EscapeConcat(s[1..], t);
    }
  }

  lemma EscapeStep(s: string, i: nat)
    requires i < |s|
    ensures EscapeBody(s[..i + 1]) == EscapeBody(s[..i]) + EscapeChar(s[i])
    ensures |EscapeBody(s[..i + 1])| <= |EscapeBody(s)|
  {
    EscapeConcat(s[..i], [s[i]]);
    assert s[..i + 1] == s[..i] + [s[i]] && [s[i]][1..] == "";
    EscapeConcat(s[..i + 1], s[i + 1..]);
    assert s == s[..i + 1] + s[i + 1..];
  }

  /** No control characters: such a text always fits. */
  predicate Plain(s: string) {
    forall i :: 0 <= i < |s| ==> s[i] >= ' '
  }

  lemma {:induction false} PlainFits(s: string)
    requires Plain(s)
    ensures EscapeFits(s) && Controls(s) == 0
  {
    EscapedLength(s);
    if s != "" {
      PlainFits(s[1..]);
    }
  }

  lemma {:induction false} EscapedPlain(s: string)
    ensures Plain(EscapeBody(s))
  {
    if s != "" {
      EscapedPlain(s[1..]);
      assert forall i :: 0 <= i < |EscapeChar(s[0])| ==> EscapeChar(s[0])[i] >= ' ';
    }
  }

  // What a reader of numbers steps over is plain.
  predicate StepsOver(s: string, rest: string) {
    |rest| <= |s| && rest == s[|s| - |rest|..] && Plain(s[..|s| - |rest|])
  }

  lemma StepJoin(s: string, k: nat, rest: string)
    requires k <= |s| && Plain(s[..k]) && StepsOver(s[k..], rest)
    ensures StepsOver(s, rest)
  {
    var n := |s| - |rest|;
    assert s[..n] == s[..k] + s[k..][..n - k];
  }

  lemma StepNone(s: string)
    ensures StepsOver(s, s)
  {
  }

  lemma {:induction false} DigitsStep(s: string)
    ensures StepsOver(s, AfterDigits(s))
  {
    StepNone(s);
    hide StepsOver, Plain;
    if s != "" && IsDigit(s[0]) {
      DigitsStep(s[1..]);
      assert Plain(s[..1]) by { DigitPlain(s); }
      StepJoin(s, 1, AfterDigits(s[1..]));
    }
  }

  lemma DigitPlain(s: string)
    requires s != "" && IsDigit(s[0])
    ensures Plain(s[..1])
  {
  }

  lemma StepsChain(s: string, a: string, b: string)
    requires StepsOver(s, a) && StepsOver(a, b)
    ensures StepsOver(s, b)
  {
    StepJoin(s, |s| - |a|, b);
  }

  lemma StepInt(m: string)
    ensures StepsOver(m, AfterInt(m))
  {
    StepNone(m);
    DigitsStep(m);
    if m != "" && m[0] == '0' {
      StepNone(m[1..]);
      StepJoin(m, 1, m[1..]);
    }
    hide StepsOver;
  }

  lemma StepFraction(a: string)
    ensures StepsOver(a, AfterFraction(a))
  {
    StepNone(a);
    if |a| >= 2 && a[0] == '.' {
      DigitsStep(a[1..]);
      assert Plain(a[..1]);
      hide StepsOver, AfterDigits, Plain;
      StepJoin(a, 1, AfterDigits(a[1..]));
    }
  }

  lemma StepExponent(b: string)
    ensures StepsOver(b, AfterExponent(b))
  {
    StepNone(b);
    hide StepsOver, AfterDigits, Plain;
    if |b| >= 2 && (b[0] == 'e' || b[0] == 'E') {
      var k := if IsSign(b[1]) then 2 else 1;
      DigitsStep(b[k..]);
      SignPlain(b, k);
      StepJoin(b, k, AfterDigits(b[k..]));
    }
  }

  lemma SignPlain(b: string, k: nat)
    requires k <= 2 <= |b| && (b[0] == 'e' || b[0] == 'E') && (k == 2 ==> IsSign(b[1]))
    ensures Plain(b[..k])
  {
  }

  lemma NumberPlain(t: string)
    requires IsNumber(t)
    ensures Plain(t)
  {
    hide AfterInt, AfterFraction, AfterExponent, IsNumber, StepsOver;
    var m := if t != "" && t[0] == '-' then t[1..] else t;
    var a := AfterInt(m);
    var b := AfterFraction(a);
    NumberEnds(t, m);
    StepInt(m);
    StepFraction(a);
    StepExponent(b);
    StepsChain(m, a, b);
    StepsChain(m, b, "");
    StepsAll(m);
    assert t == "-" + m || t == m;
  }

  lemma NumberEnds(t: string, m: string)
    requires IsNumber(t) && m == if t != "" && t[0] == '-' then t[1..] else t
    ensures AfterExponent(AfterFraction(AfterInt(m))) == ""
  {
    hide AfterInt, AfterFraction, AfterExponent;
  }

  lemma StepsAll(m: string)
    requires StepsOver(m, "")
    ensures Plain(m)
  {
    assert m[..|m| - |""|] == m;
  }

  /** A printed value holds no control character, so it can be escaped again. */
  lemma {:induction false} RenderPlain(j: Json)
    requires Proper(j)
    ensures Plain(Render(j))
    decreases j, 0
  {
    match j
    case JNumber(text) => NumberPlain(text);
    case JString(s) => EscapedPlain(s);
    case JArray(items) => ItemsPlain(items);
    case JObject(members) => MembersPlain(members);
    case _ =>
  }

  lemma {:induction false} ItemsPlain(items: seq<Json>)
    requires forall i :: 0 <= i < |items| ==> Proper(items[i])
    ensures Plain(RenderItems(items))
    decreases items, 1
  {
    if items != [] {
      ItemsText(items);
      RenderPlain(items[0]);
      ItemsPlain(items[1..]);
    }
  }

  lemma {:induction false} MembersPlain(members: seq<Member>)
    requires forall i :: 0 <= i < |members| ==> Proper(members[i].value)
    ensures Plain(RenderMembers(members))
    decreases members, 1
  {
    if members != [] {
      MembersText(members);
      EscapedPlain(members[0].key);
      RenderPlain(members[0].value);
      assert Plain(RenderMember(members[0]));
      MembersPlain(members[1..]);
    }
  }

  /** Copy a text into a buffer that has room for it. */
  method CopyInto(buf: array<char>, at: nat, text: string)
    requires at + |text| <= buf.Length
    modifies buf
    ensures buf[..at + |text|] == old(buf[..at]) + text
  {
    for k := 0 to |text|
      invariant buf[..at + k] == old(buf[..at]) + text[..k]
    {
      buf[at + k] := text[k];
    }
    assert text[..|text|] == text;
  }

  /** The escaped form of the first i characters, after the opening quote. */
  function Escaping(s: string, i: nat): string
    requires i <= |s|
  {
    "\"" + EscapeBody(s[..i])
  }

  lemma EscapingSteps(s: string, i: nat)
    requires EscapeFits(s) && i <= |s|
    ensures |Escaping(s, i)| + 2 <= 2 * |s| + 3
    ensures i < |s| ==> Escaping(s, i + 1) == Escaping(s, i) + EscapeChar(s[i])
                        && |Escaping(s, i + 1)| + 2 <= 2 * |s| + 3
    ensures i == 0 ==> Escaping(s, i) == "\""
    ensures i == |s| ==> Escape(s) == Escaping(s, i) + "\""
  {
    EmptyBody();
    hide EscapeBody, EscapeChar;
    if i < |s| {
      EscapeStep(s, i);
    }
    if i > 0 {
      EscapeStep(s, i - 1);
    } else {
      assert s[..0] == "";
    }
    assert i == |s| ==> s[..i] == s;
  }

  lemma EmptyBody()
    ensures EscapeBody("") == ""
  {
  }

  /** `json_escape`. */
  method JsonEscape(s: string) returns (text: string)
    requires EscapeFits(s)
    ensures text == Escape(s)
  {
    hide *;
    var out := new char[2 * |s| + 3](_ => '\0');
    EscapingSteps(s, 0);
    CopyInto(out, 0, "\"");
    var j := 1;
    for i := 0 to |s|
      invariant j == |Escaping(s, i)| && j + 2 <= out.Length == 2 * |s| + 3 && out[..j] == Escaping(s, i)
    {
      EscapingSteps(s, i);
      CopyInto(out, j, EscapeChar(s[i]));
      j := j + |EscapeChar(s[i])|;
    }
    EscapingSteps(s, |s|);
    CopyInto(out, j, "\"");
    text := out[..j + 1];
    out[j + 1] := '\0';
  }

  // ---- growing buffers ----------------------------------------------------------------

  /** `realloc` to twice the size until `need` more bytes and a NUL fit. */
  method Reserve(buf: array<char>, len: nat, need: nat) returns (out: array<char>)
    requires len <= buf.Length && 0 < buf.Length
    ensures len + need + 1 < out.Length && out[..len] == buf[..len]
    ensures out == buf || fresh(out)
  {
    out := buf;
    var cap := buf.Length;
    while len + need + 1 >= cap
      invariant 0 < cap == out.Length && len <= cap && out[..len] == buf[..len]
      invariant out == buf || fresh(out)
      decreases len + need + 1 - cap
    {
      ghost var before := out[..len];
      cap := cap * 2;
      var bigger := new char[cap](_ => '\0');
      CopyInto(bigger, 0, out[..len]);
      out := bigger;
      assert out[..len] == before;
    }
  }

  /** The comma before every element but the first. */
  method AppendComma(buf: array<char>, len: nat, first: bool) returns (out: array<char>, n: nat)
    requires len <= buf.Length && 0 < buf.Length
    modifies buf
    ensures n <= out.Length && 0 < out.Length && out[..n] == old(buf[..len]) + (if first then "" else ",")
    ensures n == len + if first then 0 else 1
    ensures out == buf || fresh(out)
  {
    out, n := buf, len;
    if !first {
      if len + 1 >= out.Length {
        out := new char[buf.Length * 2](_ => '\0');
        CopyInto(out, 0, buf[..len]);
      }
      CopyInto(out, len, ",");
      n := len + 1;
    }
  }

  /** Append an array element, growing the buffer first. */
  method AppendItem(buf: array<char>, len: nat, first: bool, text: string) returns (out: array<char>, n: nat)
    requires len <= buf.Length && 0 < buf.Length
    modifies buf
    ensures n + 1 < out.Length && out[..n] == old(buf[..len]) + (if first then "" else ",") + text
    ensures out == buf || fresh(out)
  {
    out, n := AppendComma(buf, len, first);
    out := Reserve(out, n, |text|);
    CopyInto(out, n, text);
    n := n + |text|;
  }

  /** Append an object member: its escaped name, a colon, its printed value. */
  method AppendPair(buf: array<char>, len: nat, first: bool, name: string, text: string)
    returns (out: array<char>, n: nat)
    requires len <= buf.Length && 0 < buf.Length
    modifies buf
    ensures n + 1 < out.Length && out[..n] == old(buf[..len]) + (if first then "" else ",") + (name + ":" + text)
    ensures out == buf || fresh(out)
  {
    out, n := AppendComma(buf, len, first);
    ghost var before := out[..n];
    out := Reserve(out, n, |name| + |text| + 2);
    CopyInto(out, n, name);
    CopyInto(out, n + |name|, ":");
    CopyInto(out, n + |name| + 1, text);
    n := n + |name| + 1 + |text|;
    assert out[..n] == before + name + ":" + text;
    assert before + name + ":" + text == before + (name + ":" + text);
  }

  // ---- joining printed parts -------------------------------------------------------------

  lemma {:induction false} ItemsSnoc(items: seq<Json>, last: Json)
    ensures RenderItems(items + [last])
            == RenderItems(items) + (if items == [] then "" else ",") + Render(last)
  {
    hide Render;
    if items != [] {
      ItemsSnoc(items[1..], last);
      assert (items + [last])[1..] == items[1..] + [last];
    } else {
      assert items + [last] == [last];
    }
  }

  lemma {:induction false} MembersSnoc(members: seq<Member>, last: Member)
    ensures RenderMembers(members + [last])
            == RenderMembers(members) + (if members == [] then "" else ",") + RenderMember(last)
  {
    hide RenderMember;
    if members != [] {
      MembersSnoc(members[1..], last);
      assert (members + [last])[1..] == members[1..] + [last];
    } else {
      assert members + [last] == [last];
    }
  }

  // ---- values and pools ------------------------------------------------------------------

  /** A value: inline, or a handle into a pool.  A float is the text `%g` gives it. */
  datatype Value =
    | VNull
    | VBool(b: bool)
    | VInt(i: int)
    | VFloat(text: string)
    | VString(id: nat)
    | VArray(id: nat)
    | VMap(id: nat)

  lemma {:induction false} AllDigitsRead(t: string)
    requires AllDigits(t)
    ensures AfterDigits(t) == ""
  {
    if t != "" {
      AllDigitsRead(t[1..]);
    }
  }

  /** Printed integers are JSON numbers. */
  lemma IntTextIsNumber(i: int)
    ensures IsNumber(IntText(i))
  {
    var n := if i < 0 then -i else i;
    ValOfDigits(n);
    AllDigitsRead(Digits(n));
    assert Digits(n)[0] == '0' ==> Digits(n) == "0";
    hide Digits, AfterDigits;
    NumeralIsNumber(IntText(i), Digits(n));
  }

  lemma NumeralIsNumber(t: string, d: string)
    requires d != "" && AllDigits(d) && AfterDigits(d) == "" && (d[0] == '0' ==> d == "0")
    requires t == d || t == "-" + d
    ensures IsNumber(t)
  {
    hide AfterDigits;
    assert t[0] == '-' ==> t[1..] == d;
    assert AfterInt(d) == "";
    assert t[..|t| - 0] == t;
  }

  type Texts = map<string, seq<string>>
  datatype Slot = Slot(key: string, text: string)

  /** The three pools; `maps` is in iteration order. */
  datatype Pools = Pools(strings: map<nat, string>, arrays: Texts, maps: seq<Slot>)

  /** What the pooled texts stand for. */
  datatype Trees = Trees(arrays: map<string, seq<Json>>, maps: map<string, Json>)

  function Prefix(id: nat): string {
    Digits(id) + "."
  }

  function MapKey(id: nat, field: string): string {
    Prefix(id) + field
  }

  const UINT32 := 0x1_0000_0000
  const KEY_SIZE := 256

  /** `map_key` into its 256-byte buffer. */
  function CutKey(id: nat, field: string): string {
    MapKey(id, field)[..Min(|MapKey(id, field)|, KEY_SIZE - 1)]
  }

  /** The name a field is stored under. */
  function CutName(id: nat, field: string): string {
    field[..Min(|field|, NameRoom(id))]
  }

  /** The bytes of a field name that the key buffer has room for. */
  function NameRoom(id: nat): nat {
    if |Prefix(id)| < KEY_SIZE then KEY_SIZE - 1 - |Prefix(id)| else 0
  }

  lemma PrefixShort(id: nat)
    requires id < UINT32
    ensures |Prefix(id)| <= 11 && NameRoom(id) >= 244
  {
    assert Pow10(5) == 100_000 && Pow10(10) == 10_000_000_000;
    DigitsAtMost(id, 10);
    hide Digits;
  }

  /** Cutting the key cuts the name only, and exactly the names without room. */
  lemma CutKeyIs(id: nat, field: string)
    requires id < UINT32
    ensures CutKey(id, field) == MapKey(id, CutName(id, field))
    ensures CutName(id, field) == field <==> |field| <= NameRoom(id)
  {
    PrefixShort(id);
    hide Digits;
  }

  /** The first dot of a key ends its id. */
  lemma KeyDot(id: nat, field: string)
    ensures IndexOf(MapKey(id, field), '.') == |Digits(id)| && MapKey(id, field)[..|Digits(id)|] == Digits(id)
    ensures MapKey(id, field)[|Prefix(id)|..] == field && Prefix(id) <= MapKey(id, field)
  {
    ValOfDigits(id);
    hide Digits, Val;
    var key, d := MapKey(id, field), Digits(id);
    assert forall i :: 0 <= i < |d| ==> key[i] == d[i] && IsDigit(d[i]);
    assert key[|d|] == '.';
  }

  /** A key starts with the prefix of its own map only. */
  lemma PrefixDecides(id: nat, other: nat, field: string)
    ensures Prefix(id) <= MapKey(other, field) <==> id == other
    ensures MapKey(other, field)[|Prefix(other)|..] == field
    ensures Digits(id) == Digits(other) <==> id == other
  {
    ValOfDigits(id);
    ValOfDigits(other);
    KeyDot(other, field);
    hide Digits, Val, IndexOf;
    var key := MapKey(other, field);
    if Prefix(id) <= key {
      assert key == MapKey(id, key[|Prefix(id)|..]);
      KeyDot(id, key[|Prefix(id)|..]);
    }
  }

  /** Two fields are stored under one key exactly when they are fields of one map, and equal or alike
      in as many bytes as there is room for. */
  lemma KeysMeetIff(id: nat, f: string, other: nat, g: string)
    requires id < UINT32 && other < UINT32
    ensures var m := NameRoom(id);
            CutKey(id, f) == CutKey(other, g)
            <==> id == other && (f == g || (|f| >= m && |g| >= m && f[..m] == g[..m]))
  {
    CutKeyIs(id, f);
    CutKeyIs(other, g);
    PrefixShort(id);
    PrefixDecides(id, other, CutName(other, g));
    KeyDot(id, CutName(id, f));
    hide Prefix, IndexOf, CutKey, MapKey;
    if id == other {
      NamesMeetIff(id, f, g);
    }
  }

  lemma NamesMeetIff(id: nat, f: string, g: string)
    ensures var m := NameRoom(id);
            CutName(id, f) == CutName(id, g) <==> f == g || (|f| >= m && |g| >= m && f[..m] == g[..m])
  {
    hide Prefix;
  }

  /** A name has the bytes that a key of 255 leaves beside the id and the dot. */
  lemma RoomIs(id: nat)
    requires id < UINT32
    ensures NameRoom(id) == 254 - |Digits(id)| && NameRoom(0) == 253
  {
    PrefixShort(id);
    assert Digits(0) == "0";
    hide Digits;
  }

  predicate KeysIn(maps: seq<Slot>, trees: map<string, Json>) {
    forall i :: 0 <= i < |maps| ==> maps[i].key in trees
  }

  /** The members of a map: the pool entries under its prefix, in pool order. */
  function Members(maps: seq<Slot>, trees: map<string, Json>, id: nat): seq<Member>
    requires KeysIn(maps, trees)
  {
    if maps == [] then []
    else
      var before, s := Members(maps[..|maps| - 1], trees, id), maps[|maps| - 1];
      if Prefix(id) <= s.key then before + [Member(s.key[|Prefix(id)|..], trees[s.key])] else before
  }

  ghost predicate Printed(p: Pools, t: Trees) {
    && p.arrays.Keys == t.arrays.Keys
    && (forall k :: k in p.arrays ==> PrintedAll(p.arrays[k], t.arrays[k]))
    && (forall i :: 0 <= i < |p.maps| ==>
          p.maps[i].key in t.maps && p.maps[i].text == Render(t.maps[p.maps[i].key]) && Proper(t.maps[p.maps[i].key]))
    && (forall i, j :: 0 <= i < j < |p.maps| ==> p.maps[i].key != p.maps[j].key)
  }

  ghost predicate PrintedAll(texts: seq<string>, trees: seq<Json>) {
    |texts| == |trees| && forall i :: 0 <= i < |texts| ==> texts[i] == Render(trees[i]) && Proper(trees[i])
  }

  /** What printing this value escapes fits its buffer: a string, or the field names of a map. */
  ghost predicate Escapable(p: Pools, v: Value) {
    match v
    case VString(id) => id in p.strings ==> EscapeFits(p.strings[id])
    case VMap(id) => NamesEscapable(p.maps, id)
    case _ => true
  }

  ghost predicate NamesEscapable(maps: seq<Slot>, id: nat) {
    forall i :: 0 <= i < |maps| && Prefix(id) <= maps[i].key ==> EscapeFits(maps[i].key[|Prefix(id)|..])
  }

  ghost function Tree(p: Pools, t: Trees, v: Value): Json
    requires Printed(p, t)
  {
    match v
    case VNull => JNull
    case VBool(b) => JBool(b)
    case VInt(i) => JNumber(IntText(i))
    case VFloat(text) => JNumber(text)
    case VString(id) => if id in p.strings then JString(p.strings[id]) else JNull
    case VArray(id) => JArray(if Digits(id) in t.arrays then t.arrays[Digits(id)] else [])
    case VMap(id) => JObject(Members(p.maps, t.maps, id))
  }

  /** The text of a value that is not an array or a map. */
  ghost predicate ScalarText(p: Pools, v: Value, text: string) {
    match v
    case VNull => text == "null"
    case VBool(b) => text == if b then "true" else "false"
    case VInt(i) => Denotes(text, i)
    case VFloat(t) => text == t
    case VString(id) => if id in p.strings then ReadText(text) == Some(JString(p.strings[id])) else text == "null"
    case _ => true
  }

  /** As an element such a value stays what it is. */
  lemma ScalarTree(p: Pools, t: Trees, v: Value)
    requires Printed(p, t)
    ensures match v
            case VNull => Tree(p, t, v) == JNull
            case VBool(b) => Tree(p, t, v) == JBool(b)
            case VInt(i) => Tree(p, t, v).JNumber? && Denotes(Tree(p, t, v).text, i)
            case VFloat(text) => Tree(p, t, v) == JNumber(text)
            case VString(id) => id in p.strings ==> Tree(p, t, v) == JString(p.strings[id])
            case _ => true
  {
    if v.VInt? {
      IntTextDenotes(v.i);
    }
    hide Printed, IntText, Denotes, Members;
  }

  lemma WordExamples()
    ensures ReadText("null") == Some(JNull) && ReadText("true") == Some(JBool(true))
    ensures ReadText("false") == Some(JBool(false))
  {
    hide ReadNumber, ReadItems, ReadMembers, ReadString;
  }

  /** A float must print as a JSON number, which infinities and NaN do not. */
  predicate Printable(v: Value) {
    v.VFloat? ==> IsNumber(v.text)
  }

  lemma TreeInOrder(p: Pools, t: Trees, id: nat)
    requires Printed(p, t) && InKeyOrder(p.maps)
    ensures NamesInOrder(Tree(p, t, VMap(id)))
  {
    hide Members, Less, InKeyOrder, Prefix;
    assert KeysIn(p.maps, t.maps);
    MembersInOrder(p.maps, t.maps, id);
    assert Tree(p, t, VMap(id)).members == Members(p.maps, t.maps, id);
  }

  lemma TreeIsProper(p: Pools, t: Trees, v: Value)
    requires Printed(p, t) && Printable(v)
    ensures Proper(Tree(p, t, v))
  {
    match v
    case VInt(i) => IntTextIsNumber(i);
    case VMap(id) => MembersProper(p.maps, t.maps, id);
    case _ =>
  }

  lemma {:induction false} MembersProper(maps: seq<Slot>, trees: map<string, Json>, id: nat)
    requires forall i :: 0 <= i < |maps| ==> maps[i].key in trees && Proper(trees[maps[i].key])
    ensures forall m :: m in Members(maps, trees, id) ==> Proper(m.value)
  {
    hide Proper, Prefix;
    if maps != [] {
      MembersProper(maps[..|maps| - 1], trees, id);
    }
  }

  /** An object in which no name occurs twice. */
  predicate UniqueNames(j: Json) {
    j.JObject? && forall i, k :: 0 <= i < k < |j.members| ==> j.members[i].key != j.members[k].key
  }

  /** And its names are in byte order. */
  predicate NamesInOrder(j: Json) {
    j.JObject? && forall i, k :: 0 <= i < k < |j.members| ==> Less(j.members[i].key, j.members[k].key)
  }

  // ---- putting into the map pool -----------------------------------------------------------

  /** `strcmp(a, b) < 0`. */
  predicate Less(a: string, b: string) {
    b != "" && (a == "" || a[0] < b[0] || (a[0] == b[0] && Less(a[1..], b[1..])))
  }

  /** A text is less than another that it begins, or that has the greater byte where they first differ. */
  lemma {:induction false} LessIff(a: string, b: string)
    ensures Less(a, b) <==> exists k :: LessAt(a, b, k)
  {
    if a == "" || b == "" || a[0] != b[0] {
      if Less(a, b) {
        assert LessAt(a, b, 0);
      }
      assert forall k :: LessAt(a, b, k) ==> k == 0;
    } else {
      LessIff(a[1..], b[1..]);
      if k :| LessAt(a, b, k) {
        assert LessAt(a[1..], b[1..], k - 1);
      }
      if k :| LessAt(a[1..], b[1..], k) {
        assert forall i :: 1 <= i <= k ==> a[i] == a[1..][i - 1] && b[i] == b[1..][i - 1];
        assert LessAt(a, b, k + 1);
      }
    }
  }

  predicate LessAt(a: string, b: string, k: int) {
    0 <= k <= |a| && k < |b| && (forall i :: 0 <= i < k ==> a[i] == b[i]) && (k < |a| ==> a[k] < b[k])
  }

  predicate HasKey(maps: seq<Slot>, key: string) {
    exists i :: 0 <= i < |maps| && maps[i].key == key
  }

  function FindKey(maps: seq<Slot>, key: string): (i: nat)
    ensures i <= |maps| && (i < |maps| <==> HasKey(maps, key)) && (i < |maps| ==> maps[i].key == key)
  {
    if maps == [] then 0 else if maps[0].key == key then 0
    else
      assert forall i :: 0 < i < |maps| ==> maps[i] == maps[1..][i - 1];
      1 + FindKey(maps[1..], key)
  }

  function PlaceFor(maps: seq<Slot>, key: string): (i: nat)
    ensures i <= |maps|
  {
    if maps == [] || Less(key, maps[0].key) then 0 else 1 + PlaceFor(maps[1..], key)
  }

  /** `corm_put` on the sorted pool: replace the text of a known key, or add a slot. */
  function PutSlot(maps: seq<Slot>, key: string, text: string): seq<Slot> {
    var i := FindKey(maps, key);
    if i < |maps| then maps[i := Slot(key, text)]
    else maps[..PlaceFor(maps, key)] + [Slot(key, text)] + maps[PlaceFor(maps, key)..]
  }

  /** The pool is sorted by key. */
  ghost predicate InKeyOrder(maps: seq<Slot>) {
    forall i, j :: 0 <= i < j < |maps| ==> Less(maps[i].key, maps[j].key)
  }

  lemma {:induction false} LessTrans(a: string, b: string, c: string)
    requires Less(a, b) && Less(b, c)
    ensures Less(a, c)
  {
    if a != "" && a[0] == b[0] == c[0] {
      LessTrans(a[1..], b[1..], c[1..]);
    }
  }

  lemma {:induction false} LessTotal(a: string, b: string)
    ensures Less(a, b) || a == b || Less(b, a)
  {
    if a != "" && b != "" && a[0] == b[0] {
      LessTotal(a[1..], b[1..]);
      assert a == [a[0]] + a[1..] && b == [b[0]] + b[1..];
    }
  }

  lemma {:induction false} PlaceSplits(maps: seq<Slot>, key: string)
    requires InKeyOrder(maps) && !HasKey(maps, key)
    ensures forall i :: 0 <= i < PlaceFor(maps, key) ==> Less(maps[i].key, key)
    ensures forall i :: PlaceFor(maps, key) <= i < |maps| ==> Less(key, maps[i].key)
  {
    if maps == [] {
    } else if Less(key, maps[0].key) {
      forall i | 0 < i < |maps| ensures Less(key, maps[i].key) {
        LessTrans(key, maps[0].key, maps[i].key);
      }
    } else {
      LessTotal(maps[0].key, key);
      assert forall i :: 1 <= i < |maps| ==> maps[i] == maps[1..][i - 1];
      PlaceSplits(maps[1..], key);
    }
  }

  /** A put keeps the pool sorted. */
  lemma PutKeepsOrder(maps: seq<Slot>, key: string, text: string)
    requires InKeyOrder(maps)
    ensures InKeyOrder(PutSlot(maps, key, text))
  {
    var i := FindKey(maps, key);
    if i < |maps| {
      hide Less;
      var n := maps[i := Slot(key, text)];
      assert forall j :: 0 <= j < |maps| ==> n[j].key == maps[j].key;
    } else {
      PlaceSplits(maps, key);
      hide Less, PlaceFor, HasKey;
      SplitOrder(maps, PlaceFor(maps, key), Slot(key, text));
    }
  }

  lemma SplitOrder(maps: seq<Slot>, at: nat, s: Slot)
    requires InKeyOrder(maps) && at <= |maps|
    requires (forall i :: 0 <= i < at ==> Less(maps[i].key, s.key))
    requires forall i :: at <= i < |maps| ==> Less(s.key, maps[i].key)
    ensures InKeyOrder(maps[..at] + [s] + maps[at..])
  {
    hide Less;
    var n := maps[..at] + [s] + maps[at..];
    assert n[at] == s && forall i :: 0 <= i < |n| && i != at ==> n[i] == maps[if i < at then i else i - 1];
  }

  lemma {:induction false} PrefixLess(p: string, a: string, b: string)
    ensures Less(p + a, p + b) <==> Less(a, b)
  {
    if p == "" {
      assert p + a == a && p + b == b;
    } else {
      PrefixLess(p[1..], a, b);
      assert (p + a)[1..] == p[1..] + a && (p + b)[1..] == p[1..] + b;
    }
  }

  /** So an object is printed with its names in order. */
  lemma {:induction false} MembersInOrder(maps: seq<Slot>, trees: map<string, Json>, id: nat)
    requires InKeyOrder(maps) && KeysIn(maps, trees)
    ensures forall i, j :: 0 <= i < j < |Members(maps, trees, id)| ==>
              Less(Members(maps, trees, id)[i].key, Members(maps, trees, id)[j].key)
  {
    hide Less, Prefix;
    if maps != [] {
      var front, s := maps[..|maps| - 1], maps[|maps| - 1];
      MembersInOrder(front, trees, id);
      var before, ms := Members(front, trees, id), Members(maps, trees, id);
      if Prefix(id) <= s.key {
        var name := s.key[|Prefix(id)|..];
        assert s.key == Prefix(id) + name && ms == before + [Member(name, trees[s.key])];
        forall i | 0 <= i < |before| ensures Less(before[i].key, name) {
          MembersIff(front, trees, id, before[i]);
          var k :| 0 <= k < |front| && front[k].key == MapKey(id, before[i].key);
          assert Less(maps[k].key, s.key);
          PrefixLess(Prefix(id), before[i].key, name);
        }
      }
    }
  }

  lemma PutSlotKeys(maps: seq<Slot>, key: string, text: string)
    requires forall i, j :: 0 <= i < j < |maps| ==> maps[i].key != maps[j].key
    ensures var n := PutSlot(maps, key, text);
            && (forall i, j :: 0 <= i < j < |n| ==> n[i].key != n[j].key)
            && (forall i :: 0 <= i < |n| ==> n[i] == Slot(key, text) || (n[i] in maps && n[i].key != key))
            && (forall k :: HasKey(n, k) <==> k == key || HasKey(maps, k))
  {
    hide Less, FindKey, PlaceFor;
    var i := FindKey(maps, key);
    if i < |maps| {
      ReplaceKeys(maps, i, Slot(key, text));
    } else {
      assert !HasKey(maps, key);
      InsertKeys(maps, PlaceFor(maps, key), Slot(key, text));
    }
  }

  lemma ReplaceKeys(maps: seq<Slot>, i: nat, s: Slot)
    requires forall i, j :: 0 <= i < j < |maps| ==> maps[i].key != maps[j].key
    requires i < |maps| && maps[i].key == s.key
    ensures var n := maps[i := s];
            && (forall i, j :: 0 <= i < j < |n| ==> n[i].key != n[j].key)
            && (forall i :: 0 <= i < |n| ==> n[i] == s || (n[i] in maps && n[i].key != s.key))
            && (forall k :: HasKey(n, k) <==> k == s.key || HasKey(maps, k))
  {
    var n := maps[i := s];
    assert n[i].key == s.key && forall j :: 0 <= j < |maps| ==> n[j].key == maps[j].key;
  }

  lemma InsertKeys(maps: seq<Slot>, at: nat, s: Slot)
    requires forall i, j :: 0 <= i < j < |maps| ==> maps[i].key != maps[j].key
    requires at <= |maps| && !HasKey(maps, s.key)
    ensures var n := maps[..at] + [s] + maps[at..];
            && (forall i, j :: 0 <= i < j < |n| ==> n[i].key != n[j].key)
            && (forall i :: 0 <= i < |n| ==> n[i] == s || (n[i] in maps && n[i].key != s.key))
            && (forall k :: HasKey(n, k) <==> k == s.key || HasKey(maps, k))
  {
    var n := maps[..at] + [s] + maps[at..];
    assert n[at] == s;
    forall i | 0 <= i < |n| && i != at ensures n[i] == maps[if i < at then i else i - 1] && n[i].key != s.key {
    }
    forall i, j | 0 <= i < j < |n| ensures n[i].key != n[j].key {
      if i != at && j != at {
        assert n[i] == maps[if i < at then i else i - 1] && n[j] == maps[if j < at then j else j - 1];
      }
    }
    forall k ensures HasKey(n, k) <==> k == s.key || HasKey(maps, k) {
      if i :| 0 <= i < |maps| && maps[i].key == k {
        assert n[if i < at then i else i + 1].key == k;
      }
    }
  }

  /** The members of a map are the keys of the pool under its prefix. */
  lemma {:induction false} MembersIff(maps: seq<Slot>, trees: map<string, Json>, id: nat, m: Member)
    requires KeysIn(maps, trees)
    ensures m in Members(maps, trees, id)
            <==> HasKey(maps, MapKey(id, m.key)) && trees[MapKey(id, m.key)] == m.value
  {
    if maps != [] {
      var front, s := maps[..|maps| - 1], maps[|maps| - 1];
      MembersIff(front, trees, id, m);
      assert HasKey(maps, MapKey(id, m.key)) <==> HasKey(front, MapKey(id, m.key)) || s.key == MapKey(id, m.key) by {
        assert forall i :: 0 <= i < |front| ==> maps[i] == front[i];
      }
      hide HasKey;
      KeyDot(id, m.key);
      assert Prefix(id) <= s.key ==> s.key == MapKey(id, s.key[|Prefix(id)|..]);
    }
  }

  /** No two members of a map have the same name. */
  lemma {:induction false} MembersUnique(maps: seq<Slot>, trees: map<string, Json>, id: nat)
    requires KeysIn(maps, trees)
    requires forall i, j :: 0 <= i < j < |maps| ==> maps[i].key != maps[j].key
    ensures UniqueNames(JObject(Members(maps, trees, id)))
  {
    if maps != [] {
      var front, s := maps[..|maps| - 1], maps[|maps| - 1];
      MembersUnique(front, trees, id);
      if Prefix(id) <= s.key {
        assert s.key == MapKey(id, s.key[|Prefix(id)|..]);
        var before := Members(front, trees, id);
        forall i | 0 <= i < |before| ensures before[i].key != s.key[|Prefix(id)|..] {
          MembersIff(front, trees, id, before[i]);
        }
      }
    }
  }

  lemma {:induction false} MembersConcat(a: seq<Slot>, b: seq<Slot>, trees: map<string, Json>, id: nat)
    requires KeysIn(a, trees)
    requires KeysIn(b, trees)
    ensures Members(a + b, trees, id) == Members(a, trees, id) + Members(b, trees, id)
  {
    hide Prefix;
    if b == [] {
      assert a + b == a;
    } else {
      MembersConcat(a, b[..|b| - 1], trees, id);
      assert (a + b)[..|a + b| - 1] == a + b[..|b| - 1];
    }
  }

  lemma {:induction false} MembersDepend(maps: seq<Slot>, n: seq<Slot>, trees: map<string, Json>,
                                         more: map<string, Json>, id: nat)
    requires |n| == |maps|
    requires forall i :: 0 <= i < |maps| ==>
               maps[i].key == n[i].key && maps[i].key in trees && maps[i].key in more
    requires forall k :: k in trees && k in more && Prefix(id) <= k ==> more[k] == trees[k]
    ensures Members(n, more, id) == Members(maps, trees, id)
  {
    hide Prefix;
    if maps != [] {
      MembersDepend(maps[..|maps| - 1], n[..|n| - 1], trees, more, id);
    }
  }

  lemma KeysPut(maps: seq<Slot>, trees: map<string, Json>, key: string, text: string, tree: Json)
    requires KeysIn(maps, trees)
    ensures KeysIn(PutSlot(maps, key, text), trees[key := tree]) && KeysIn(maps, trees[key := tree])
  {
    hide Less, FindKey, PlaceFor;
  }

  lemma KeysParts(a: seq<Slot>, b: seq<Slot>, trees: map<string, Json>)
    requires KeysIn(a, trees) && KeysIn(b, trees)
    ensures KeysIn(a + b, trees)
  {
  }

  lemma OtherInserted(a: seq<Slot>, s: Slot, b: seq<Slot>, trees: map<string, Json>, id: nat)
    requires KeysIn(a, trees) && KeysIn(b, trees) && s.key in trees && !(Prefix(id) <= s.key)
    ensures KeysIn(a + [s] + b, trees) && KeysIn(a + b, trees)
    ensures Members(a + [s] + b, trees, id) == Members(a + b, trees, id)
  {
    assert KeysIn([s], trees);
    assert [s][..0] == [] && Members([s], trees, id) == [];
    hide Prefix, KeysIn, Members;
    KeysParts(a, [s], trees);
    KeysParts(a, b, trees);
    KeysParts(a + [s], b, trees);
    MembersConcat(a, [s], trees, id);
    MembersConcat(a + [s], b, trees, id);
    MembersConcat(a, b, trees, id);
  }

  lemma KeysSlices(maps: seq<Slot>, at: nat, trees: map<string, Json>)
    requires KeysIn(maps, trees) && at <= |maps|
    ensures KeysIn(maps[..at], trees) && KeysIn(maps[at..], trees)
  {
  }

  /** A put under another map's key leaves this map's members as they were. */
  lemma OtherMembers(maps: seq<Slot>, trees: map<string, Json>, key: string, text: string, tree: Json, id: nat)
    requires KeysIn(maps, trees)
    requires !(Prefix(id) <= key)
    ensures KeysIn(PutSlot(maps, key, text), trees[key := tree])
    ensures Members(PutSlot(maps, key, text), trees[key := tree], id) == Members(maps, trees, id)
  {
    hide Prefix, Less, FindKey, PlaceFor, Members;
    var more := trees[key := tree];
    KeysPut(maps, trees, key, text, tree);
    var i := FindKey(maps, key);
    if i < |maps| {
      MembersDepend(maps, maps[i := Slot(key, text)], trees, more, id);
    } else {
      hide KeysIn;
      var at := PlaceFor(maps, key);
      assert maps == maps[..at] + maps[at..];
      MembersDepend(maps, maps, trees, more, id) by { KeysSame(maps, trees, more); }
      KeysSlices(maps, at, more);
      OtherInserted(maps[..at], Slot(key, text), maps[at..], more, id);
    }
  }

  lemma KeysSame(maps: seq<Slot>, trees: map<string, Json>, more: map<string, Json>)
    requires KeysIn(maps, trees) && KeysIn(maps, more)
    ensures forall i :: 0 <= i < |maps| ==> maps[i].key in trees && maps[i].key in more
  {
  }

  // ---- what the operations leave ---------------------------------------------------------------

  function PushText<T>(pool: map<string, seq<T>>, key: string, x: T): map<string, seq<T>> {
    pool[key := (if key in pool then pool[key] else []) + [x]]
  }

  lemma PushPrinted(p: Pools, t: Trees, id: nat, text: string, tree: Json)
    requires Printed(p, t) && text == Render(tree) && Proper(tree)
    ensures var key := Digits(id);
            var p' := p.(arrays := PushText(p.arrays, key, text));
            var t' := t.(arrays := PushText(t.arrays, key, tree));
            && Printed(p', t')
            && Tree(p', t', VArray(id)) == JArray(Tree(p, t, VArray(id)).items + [tree])
            && forall v: Value :: v != VArray(id) ==> Tree(p', t', v) == Tree(p, t, v)
  {
    hide *;
    var key := Digits(id);
    PushValid(p, t, key, text, tree);
    PushHere(p, t, id, text, tree);
    forall v: Value | v != VArray(id)
      ensures Tree(p.(arrays := PushText(p.arrays, key, text)), t.(arrays := PushText(t.arrays, key, tree)), v)
              == Tree(p, t, v)
    {
      PushOther(p, t, id, text, tree, v);
    }
  }

  lemma PushValid(p: Pools, t: Trees, key: string, text: string, tree: Json)
    requires Printed(p, t) && text == Render(tree) && Proper(tree)
    ensures Printed(p.(arrays := PushText(p.arrays, key, text)), t.(arrays := PushText(t.arrays, key, tree)))
  {
    assert PrintedAll([], []);
    hide Render, Proper, PrintedAll;
    if key in p.arrays {
      PrintedSnoc(p.arrays[key], t.arrays[key], text, tree);
    } else {
      PrintedSnoc([], [], text, tree);
    }
  }

  lemma PrintedSnoc(texts: seq<string>, trees: seq<Json>, text: string, tree: Json)
    requires text == Render(tree) && Proper(tree) && PrintedAll(texts, trees)
    ensures PrintedAll(texts + [text], trees + [tree])
  {
    hide Render, Proper;
  }

  lemma PushHere(p: Pools, t: Trees, id: nat, text: string, tree: Json)
    requires var key := Digits(id);
             && Printed(p, t)
             && Printed(p.(arrays := PushText(p.arrays, key, text)), t.(arrays := PushText(t.arrays, key, tree)))
    ensures var key := Digits(id);
            Tree(p.(arrays := PushText(p.arrays, key, text)), t.(arrays := PushText(t.arrays, key, tree)), VArray(id))
            == JArray(Tree(p, t, VArray(id)).items + [tree])
    ensures Tree(p, t, VArray(id)).JArray?
  {
    hide Render, Proper, Printed, Digits;
  }

  lemma PushOther(p: Pools, t: Trees, id: nat, text: string, tree: Json, v: Value)
    requires var key := Digits(id);
             && Printed(p, t)
             && Printed(p.(arrays := PushText(p.arrays, key, text)), t.(arrays := PushText(t.arrays, key, tree)))
    requires v != VArray(id)
    ensures var key := Digits(id);
            Tree(p.(arrays := PushText(p.arrays, key, text)), t.(arrays := PushText(t.arrays, key, tree)), v)
            == Tree(p, t, v)
  {
    hide Render, Proper, Digits, IntText, Members, Prefix;
    if v.VArray? {
      PrefixDecides(v.id, id, "");
    }
  }

  lemma SetPrinted(p: Pools, t: Trees, id: nat, field: string, text: string, tree: Json)
    requires Printed(p, t) && text == Render(tree) && Proper(tree)
    ensures var key := MapKey(id, field);
            var p' := p.(maps := PutSlot(p.maps, key, text));
            var t' := t.(maps := t.maps[key := tree]);
            && Printed(p', t') && Tree(p', t', VMap(id)).JObject? && Tree(p, t, VMap(id)).JObject?
            && (forall v: Value :: v != VMap(id) ==> Tree(p', t', v) == Tree(p, t, v))
            && forall m: Member :: m in Tree(p', t', VMap(id)).members
                 <==> if m.key == field then m.value == tree else m in Tree(p, t, VMap(id)).members
  {
    hide *;
    SetValid(p, t, id, field, text, tree);
    forall v: Value | v != VMap(id)
      ensures var key := MapKey(id, field);
              Tree(p.(maps := PutSlot(p.maps, key, text)), t.(maps := t.maps[key := tree]), v) == Tree(p, t, v)
    {
      SetOther(p, t, id, field, text, tree, v);
    }
    forall m: Member
      ensures var key := MapKey(id, field);
              m in Tree(p.(maps := PutSlot(p.maps, key, text)), t.(maps := t.maps[key := tree]), VMap(id)).members
              <==> if m.key == field then m.value == tree else m in Tree(p, t, VMap(id)).members
    {
      SetMember(p, t, id, field, text, tree, m);
    }
  }

  lemma SetValid(p: Pools, t: Trees, id: nat, field: string, text: string, tree: Json)
    requires Printed(p, t) && text == Render(tree) && Proper(tree)
    ensures Tree(p, t, VMap(id)).JObject?
    ensures var key := MapKey(id, field);
            var p', t' := p.(maps := PutSlot(p.maps, key, text)), t.(maps := t.maps[key := tree]);
            Printed(p', t') && Tree(p', t', VMap(id)).JObject?
  {
    assert Printed(p, t) ==> forall i, j :: 0 <= i < j < |p.maps| ==> p.maps[i].key != p.maps[j].key;
    hide Render, Proper, PutSlot, HasKey, MapKey, Prefix, Members, Printed;
    PutSlotKeys(p.maps, MapKey(id, field), text);
    SetPrintedAt(p, t, PutSlot(p.maps, MapKey(id, field), text), MapKey(id, field), text, tree);
  }

  lemma SetPrintedAt(p: Pools, t: Trees, n: seq<Slot>, key: string, text: string, tree: Json)
    requires Printed(p, t) && text == Render(tree) && Proper(tree)
    requires forall i, j :: 0 <= i < j < |n| ==> n[i].key != n[j].key
    requires forall i :: 0 <= i < |n| ==> n[i] == Slot(key, text) || (n[i] in p.maps && n[i].key != key)
    ensures Printed(p.(maps := n), t.(maps := t.maps[key := tree]))
  {
    hide Render, Proper, PrintedAll;
  }

  lemma SetOther(p: Pools, t: Trees, id: nat, field: string, text: string, tree: Json, v: Value)
    requires var key := MapKey(id, field);
             Printed(p, t) && Printed(p.(maps := PutSlot(p.maps, key, text)), t.(maps := t.maps[key := tree]))
    requires v != VMap(id)
    ensures var key := MapKey(id, field);
            Tree(p.(maps := PutSlot(p.maps, key, text)), t.(maps := t.maps[key := tree]), v) == Tree(p, t, v)
  {
    hide Render, Proper, PutSlot, MapKey, Prefix, IntText, Digits;
    if v.VMap? {
      PrefixDecides(v.id, id, field);
      OtherMembers(p.maps, t.maps, MapKey(id, field), text, tree, v.id);
    }
  }

  lemma SetMember(p: Pools, t: Trees, id: nat, field: string, text: string, tree: Json, m: Member)
    requires var key := MapKey(id, field);
             Printed(p, t) && Printed(p.(maps := PutSlot(p.maps, key, text)), t.(maps := t.maps[key := tree]))
    ensures var key := MapKey(id, field);
            m in Tree(p.(maps := PutSlot(p.maps, key, text)), t.(maps := t.maps[key := tree]), VMap(id)).members
            <==> if m.key == field then m.value == tree else m in Tree(p, t, VMap(id)).members
  {
    hide Render, Proper, PutSlot, HasKey, MapKey, Prefix, IntText, Digits;
    var key := MapKey(id, field);
    PutSlotKeys(p.maps, key, text);
    MembersIff(p.maps, t.maps, id, m);
    MembersIff(PutSlot(p.maps, key, text), t.maps[key := tree], id, m);
    KeyDot(id, field);
    KeyDot(id, m.key);
  }

  // ---- the context -------------------------------------------------------------------------------

  lemma EmptyBrackets()
    ensures Render(JArray([])) == "[]"
  {
  }

  // The array text after i elements, before its closing bracket.
  ghost function JoinedItems(items: seq<Json>, i: nat): string
    requires i <= |items|
  {
    "[" + RenderItems(items[..i])
  }

  lemma JoinStart(items: seq<Json>)
    ensures JoinedItems(items, 0) == "["
  {
    assert items[..0] == [];
  }

  lemma BracketRegroup(a: string, b: string, c: string)
    ensures "[" + (a + b + c) == ("[" + a) + b + c
  {
  }

  lemma JoinStep(items: seq<Json>, i: nat)
    requires i < |items|
    ensures JoinedItems(items, i + 1) == JoinedItems(items, i) + (if i == 0 then "" else ",") + Render(items[i])
  {
    hide Render, RenderItems;
    ItemsSnoc(items[..i], items[i]);
    assert items[..i + 1] == items[..i] + [items[i]];
    assert i == 0 <==> items[..i] == [];
    BracketRegroup(RenderItems(items[..i]), if i == 0 then "" else ",", Render(items[i]));
  }

  lemma JoinEnd(items: seq<Json>)
    ensures Render(JArray(items)) == JoinedItems(items, |items|) + "]"
  {
    assert items[..|items|] == items;
  }

  lemma PrintedAt(texts: seq<string>, items: seq<Json>, i: nat)
    requires PrintedAll(texts, items) && i < |texts|
    ensures texts[i] == Render(items[i])
  {
  }

  ghost predicate InMaps(maps: seq<Slot>, trees: map<string, Json>) {
    forall i :: 0 <= i < |maps| ==> maps[i].key in trees && maps[i].text == Render(trees[maps[i].key])
  }

  // The object text after i pool entries, before its closing brace.
  ghost function JoinedPairs(maps: seq<Slot>, trees: map<string, Json>, id: nat, i: nat): string
    requires InMaps(maps, trees) && i <= |maps|
  {
    "{" + RenderMembers(Members(maps[..i], trees, id))
  }

  ghost predicate NoPairs(maps: seq<Slot>, trees: map<string, Json>, id: nat, i: nat)
    requires InMaps(maps, trees) && i <= |maps|
  {
    Members(maps[..i], trees, id) == []
  }

  lemma PairStart(maps: seq<Slot>, trees: map<string, Json>, id: nat)
    requires InMaps(maps, trees)
    ensures JoinedPairs(maps, trees, id, 0) == "{" && NoPairs(maps, trees, id, 0)
  {
    assert maps[..0] == [];
  }

  // A pool entry under the prefix of map id, as it is printed.
  ghost function PairText(s: Slot, id: nat): string
    requires Prefix(id) <= s.key
  {
    Escape(s.key[|Prefix(id)|..]) + ":" + s.text
  }

  lemma PairSkipped(maps: seq<Slot>, trees: map<string, Json>, id: nat, i: nat)
    requires InMaps(maps, trees) && i < |maps| && !(Prefix(id) <= maps[i].key)
    ensures JoinedPairs(maps, trees, id, i + 1) == JoinedPairs(maps, trees, id, i)
    ensures NoPairs(maps, trees, id, i + 1) <==> NoPairs(maps, trees, id, i)
  {
    hide RenderMembers, Prefix, Render, EscapeFits;
    assert maps[..i + 1][..i] == maps[..i];
  }

  lemma PairTaken(maps: seq<Slot>, trees: map<string, Json>, id: nat, i: nat, first: bool)
    requires InMaps(maps, trees) && i < |maps| && Prefix(id) <= maps[i].key && (first <==> NoPairs(maps, trees, id, i))
    ensures !NoPairs(maps, trees, id, i + 1)
    ensures JoinedPairs(maps, trees, id, i + 1)
            == JoinedPairs(maps, trees, id, i) + (if first then "" else ",") + PairText(maps[i], id)
  {
    var before := Members(maps[..i], trees, id);
    var m := Member(maps[i].key[|Prefix(id)|..], trees[maps[i].key]);
    assert RenderMember(m) == PairText(maps[i], id);
    assert maps[..i + 1][..i] == maps[..i];
    hide RenderMembers, RenderMember, Prefix, Render, EscapeFits, PairText;
    MembersSnoc(before, m);
    assert Members(maps[..i + 1], trees, id) == before + [m];
    hide Members;
    BraceRegroup(RenderMembers(before), if first then "" else ",", RenderMember(m));
  }

  lemma NameAt(maps: seq<Slot>, id: nat, i: nat)
    requires NamesEscapable(maps, id) && i < |maps| && Prefix(id) <= maps[i].key
    ensures EscapeFits(maps[i].key[|Prefix(id)|..])
  {
  }

  lemma PairTextIs(s: Slot, id: nat, name: string)
    requires Prefix(id) <= s.key && name == Escape(s.key[|Prefix(id)|..])
    ensures PairText(s, id) == name + ":" + s.text
  {
  }

  lemma BraceRegroup(a: string, b: string, c: string)
    ensures "{" + (a + b + c) == ("{" + a) + b + c
  {
  }

  lemma PairEnd(maps: seq<Slot>, trees: map<string, Json>, id: nat)
    requires InMaps(maps, trees)
    ensures Render(JObject(Members(maps, trees, id))) == JoinedPairs(maps, trees, id, |maps|) + "}"
  {
    assert maps[..|maps|] == maps;
  }

  lemma EmptySound()
    ensures Printed(Pools(map[], map[], []), Trees(map[], map[])) && OnlyHanded(Pools(map[], map[], []), 0)
  {
  }

  // ---- handing out ids -------------------------------------------------------------------

  /** The id is one of the first n that a 32-bit counter hands out. */
  predicate Handed(n: nat, id: nat) {
    id < n && id < UINT32
  }

  /** An id not handed out has nothing in the pools. */
  ghost predicate OnlyHanded(p: Pools, n: nat) {
    forall id: nat :: !Handed(n, id) ==>
      && id !in p.strings && Digits(id) !in p.arrays
      && forall i :: 0 <= i < |p.maps| ==> !(Prefix(id) <= p.maps[i].key)
  }

  lemma NextHanded(n: nat)
    ensures !Handed(n, n % UINT32) <==> n < UINT32
    ensures Handed(n + 1, n % UINT32) && forall id: nat :: Handed(n, id) ==> Handed(n + 1, id)
    ensures (n % UINT32 + 1) % UINT32 == (n + 1) % UINT32
  {
  }

  /** The first n handles are different exactly while the counter has not come round. */
  lemma HandlesDifferIff(n: nat)
    ensures (forall i, j :: 0 <= i < j < n ==> i % UINT32 != j % UINT32) <==> n <= UINT32
  {
    if n > UINT32 {
      assert 0 % UINT32 == UINT32 % UINT32;
    }
  }

  lemma HandedMore(p: Pools, n: nat)
    requires OnlyHanded(p, n)
    ensures OnlyHanded(p, n + 1)
  {
    NextHanded(n);
    hide Handed, Digits, Prefix;
  }

  lemma HandedString(p: Pools, n: nat, s: string)
    requires OnlyHanded(p, n)
    ensures OnlyHanded(p.(strings := p.strings[n % UINT32 := s]), n + 1)
  {
    NextHanded(n);
    hide Handed, Digits, Prefix;
  }

  lemma HandedPush(p: Pools, n: nat, id: nat, text: string)
    requires OnlyHanded(p, n) && Handed(n, id)
    ensures OnlyHanded(p.(arrays := PushText(p.arrays, Digits(id), text)), n)
  {
    forall other: nat | !Handed(n, other) ensures Digits(other) != Digits(id) {
      PrefixDecides(other, id, "");
    }
    hide Handed, Digits, Prefix;
  }

  lemma HandedSet(p: Pools, t: Trees, n: nat, id: nat, field: string, text: string)
    requires OnlyHanded(p, n) && Handed(n, id) && Printed(p, t)
    ensures OnlyHanded(p.(maps := PutSlot(p.maps, MapKey(id, field), text)), n)
  {
    var key := MapKey(id, field);
    PutSlotKeys(p.maps, key, text);
    forall other: nat | !Handed(n, other) ensures !(Prefix(other) <= key) {
      PrefixDecides(other, id, field);
    }
    hide Handed, Digits, Prefix, PutSlot, HasKey, Printed, MapKey;
    var maps := PutSlot(p.maps, key, text);
    forall other: nat, i | !Handed(n, other) && 0 <= i < |maps| ensures !(Prefix(other) <= maps[i].key) {
      if maps[i] != Slot(key, text) {
        var j :| 0 <= j < |p.maps| && p.maps[j] == maps[i];
      }
    }
  }

  /** So an id that was not handed out stands for nothing, an empty array and an empty map. */
  lemma UnusedId(p: Pools, t: Trees, n: nat, id: nat)
    requires Printed(p, t) && OnlyHanded(p, n)
    ensures !Handed(n, id) ==>
              && Tree(p, t, VString(id)) == JNull && Tree(p, t, VArray(id)) == JArray([])
              && Tree(p, t, VMap(id)) == JObject([])
  {
    hide Handed, Digits, Prefix, Members, IntText;
    if !Handed(n, id) {
      NoMembers(p.maps, t.maps, id);
    }
  }

  lemma {:induction false} NoMembers(maps: seq<Slot>, trees: map<string, Json>, id: nat)
    requires KeysIn(maps, trees) && forall i :: 0 <= i < |maps| ==> !(Prefix(id) <= maps[i].key)
    ensures Members(maps, trees, id) == []
  {
    hide Prefix;
    if maps != [] {
      NoMembers(maps[..|maps| - 1], trees, id);
    }
  }

  lemma NewString(p: Pools, t: Trees, id: nat, s: string)
    requires Printed(p, t)
    ensures var p' := p.(strings := p.strings[id := s]);
            && Printed(p', t) && Tree(p', t, VString(id)) == JString(s)
            && forall v: Value :: v != VString(id) ==> Tree(p', t, v) == Tree(p, t, v)
  {
    hide EscapeFits, Prefix, Proper, Members, Digits, IntText;
  }

  lemma MemberSlot(p: Pools, t: Trees, id: nat, field: string) returns (j: nat)
    requires Printed(p, t)
    ensures Tree(p, t, VMap(id)).JObject?
    ensures var i, members := FindKey(p.maps, MapKey(id, field)), Tree(p, t, VMap(id)).members;
            if i < |p.maps| then
              j < |members| && members[j].key == field
              && p.maps[i].text == Render(members[j].value) && Proper(members[j].value)
            else forall k :: 0 <= k < |members| ==> members[k].key != field
  {
    hide FindKey, MapKey, EscapeFits, Prefix, Render, Proper, Members;
    var key := MapKey(id, field);
    var i := FindKey(p.maps, key);
    var members := Members(p.maps, t.maps, id);
    if i < |p.maps| {
      var m := Member(field, t.maps[key]);
      MembersIff(p.maps, t.maps, id, m);
      j :| 0 <= j < |members| && members[j] == m;
    } else {
      j := 0;
      forall k | 0 <= k < |members| ensures members[k].key != field {
        MembersIff(p.maps, t.maps, id, members[k]);
      }
    }
  }

  lemma ValidUnique(p: Pools, t: Trees, id: nat)
    requires Printed(p, t)
    ensures UniqueNames(Tree(p, t, VMap(id)))
  {
    hide Members, UniqueNames;
    MembersUnique(p.maps, t.maps, id);
  }

  lemma ReadsBack(p: Pools, t: Trees, v: Value)
    requires Printed(p, t) && Printable(v)
    ensures ReadText(Render(Tree(p, t, v))) == Some(Tree(p, t, v)) && Proper(Tree(p, t, v))
  {
    TreeIsProper(p, t, v);
    RenderReadsBack(Tree(p, t, v));
  }

  /** Every text in the pools is a JSON text, and reads as the value put there. */
  lemma PoolTextsAreJson(p: Pools, t: Trees)
    requires Printed(p, t)
    ensures forall k, i :: k in p.arrays && 0 <= i < |p.arrays[k]| ==>
              k in t.arrays && i < |t.arrays[k]| && ReadText(p.arrays[k][i]) == Some(t.arrays[k][i])
    ensures forall i :: 0 <= i < |p.maps| ==>
              p.maps[i].key in t.maps && ReadText(p.maps[i].text) == Some(t.maps[p.maps[i].key])
  {
    hide ReadText, Render, Proper, EscapeFits, Prefix;
    forall k, i | k in p.arrays && 0 <= i < |p.arrays[k]|
      ensures k in t.arrays && i < |t.arrays[k]| && ReadText(p.arrays[k][i]) == Some(t.arrays[k][i])
    {
      assert PrintedAll(p.arrays[k], t.arrays[k]);
      RenderReadsBack(t.arrays[k][i]);
    }
    forall i | 0 <= i < |p.maps|
      ensures p.maps[i].key in t.maps && ReadText(p.maps[i].text) == Some(t.maps[p.maps[i].key])
    {
      RenderReadsBack(t.maps[p.maps[i].key]);
    }
  }

  /** `hyle_ctx_t` with its pools.  `trees` says what the pooled texts stand for. */
  class Context {
    var strings: map<nat, string>
    var arrays: Texts
    var maps: seq<Slot>
    var nextId: nat
    ghost var issued: nat    // how many ids were handed out
    ghost var trees: Trees

    ghost function Now(): Pools
      reads this
    {
      Pools(strings, arrays, maps)
    }

    ghost predicate Sound()
      reads this
    {
      Printed(Now(), trees) && nextId == issued % UINT32 && OnlyHanded(Now(), issued) && InKeyOrder(maps)
    }

    /** The value tree of v: arrays and maps hold their elements as they were when put. */
    ghost function TreeOf(v: Value): Json
      requires Sound()
      reads this
    {
      Tree(Now(), trees, v)
    }

    constructor ()
      ensures Sound() && issued == 0 && strings == map[] && arrays == map[] && maps == []
    {
      strings, arrays, maps, nextId, issued := map[], map[], [], 0, 0;
      trees := Trees(map[], map[]);
      new;
      EmptySound();
    }

    /** `hyle_val_string`: the handle is new exactly while fewer than 2^32 ids were handed out. */
    method StringVal(s: string) returns (v: Value)
      requires Sound()
      modifies this
      ensures Sound() && v == VString(old(issued) % UINT32) && TreeOf(v) == JString(s)
      ensures issued == old(issued) + 1
      ensures !Handed(old(issued), v.id) <==> old(issued) < UINT32
      ensures forall w :: w != v ==> TreeOf(w) == old(TreeOf(w))
    {
      NextHanded(issued);
      HandedString(Now(), issued, s);
      NewString(Now(), trees, nextId, s);
      hide Printed, OnlyHanded, Tree;
      strings := strings[nextId := s];
      v := VString(nextId);
      nextId := (nextId + 1) % UINT32;
      issued := issued + 1;
    }

    /** `hyle_val_array`: while the handle is new the array is empty; later it has what its id has. */
    method NewArray() returns (v: Value)
      requires Sound()
      modifies this`nextId, this`issued
      ensures Sound() && v == VArray(old(issued) % UINT32) && issued == old(issued) + 1
      ensures !Handed(old(issued), v.id) <==> old(issued) < UINT32
      ensures old(issued) < UINT32 ==> TreeOf(v) == JArray([])
      ensures forall w :: TreeOf(w) == old(TreeOf(w))
    {
      NextHanded(issued);
      UnusedId(Now(), trees, issued, nextId);
      HandedMore(Now(), issued);
      hide Printed, OnlyHanded, Tree;
      v := VArray(nextId);
      nextId := (nextId + 1) % UINT32;
      issued := issued + 1;
    }

    /** `hyle_val_map`. */
    method NewMap() returns (v: Value)
      requires Sound()
      modifies this`nextId, this`issued
      ensures Sound() && v == VMap(old(issued) % UINT32) && issued == old(issued) + 1
      ensures !Handed(old(issued), v.id) <==> old(issued) < UINT32
      ensures old(issued) < UINT32 ==> TreeOf(v) == JObject([])
      ensures forall w :: TreeOf(w) == old(TreeOf(w))
    {
      NextHanded(issued);
      UnusedId(Now(), trees, issued, nextId);
      HandedMore(Now(), issued);
      hide Printed, OnlyHanded, Tree;
      v := VMap(nextId);
      nextId := (nextId + 1) % UINT32;
      issued := issued + 1;
    }

    /** `hyle_val_array_push`: the element as it prints now goes to the end. */
    method ArrayPush(id: nat, elem: Value)
      requires Sound() && Handed(issued, id) && Printable(elem) && Escapable(Now(), elem)
      modifies this
      ensures Sound()
      ensures TreeOf(VArray(id)) == JArray(old(TreeOf(VArray(id))).items + [old(TreeOf(elem))])
      ensures forall w :: w != VArray(id) ==> TreeOf(w) == old(TreeOf(w))
      ensures issued == old(issued)
    {
      hide EscapeFits, Prefix, Render, Proper, Members, Printable, ReadText, Printed, Tree, Escapable, PushText;
      var json := ToJson(elem);
      ghost var tree := TreeOf(elem);
      ReadsBack(Now(), trees, elem);
      PushPrinted(Now(), trees, id, json, tree);
      HandedPush(Now(), issued, id, json);
      hide OnlyHanded, Handed;
      arrays := PushText(arrays, Digits(id), json);
      trees := trees.(arrays := PushText(trees.arrays, Digits(id), tree));
    }

    /** `hyle_val_array_get`: a new string holding the printed element, or null.
        Printed texts can be escaped again. */
    method ArrayGet(id: nat, idx: nat) returns (v: Value)
      requires Sound()
      modifies this
      ensures Sound()
      ensures var items := old(TreeOf(VArray(id))).items;
              if idx < |items| then
                v == VString(old(issued) % UINT32) && TreeOf(v).JString? && ReadText(TreeOf(v).s) == Some(items[idx])
              else v == VNull
      ensures Escapable(Now(), v)
      ensures forall w :: w != v ==> TreeOf(w) == old(TreeOf(w))
    {
      hide EscapeFits, Render, Proper, Members, Digits, ReadText;
      var key := Digits(id);
      if key !in arrays {
        return VNull;
      }
      var texts := arrays[key];
      ghost var items := trees.arrays[key];
      assert PrintedAll(texts, items);
      for i := 0 to |texts|
        invariant i <= idx
      {
        if i == idx {
          RenderReadsBack(items[i]);
          RenderPlain(items[i]);
          PlainFits(texts[i]);
          v := StringVal(texts[i]);
          return;
        }
      }
      v := VNull;
    }

    /** `hyle_val_array_len`. */
    method ArrayLen(id: nat) returns (n: nat)
      requires Sound()
      ensures n == |TreeOf(VArray(id)).items|
    {
      var key := Digits(id);
      n := if key in arrays then |arrays[key]| else 0;
      assert key in arrays ==> PrintedAll(arrays[key], trees.arrays[key]);
    }

    /** `hyle_val_map_set`: the field, its name cut to the key buffer, holds the value as it prints
        now; other fields stay. */
    method MapSet(id: nat, field: string, val: Value)
      requires Sound() && Handed(issued, id) && Printable(val) && Escapable(Now(), val)
      modifies this
      ensures Sound() && TreeOf(VMap(id)).JObject? && old(TreeOf(VMap(id))).JObject?
      ensures forall m: Member :: m in TreeOf(VMap(id)).members
                <==> if m.key == CutName(id, field) then m.value == old(TreeOf(val))
                     else m in old(TreeOf(VMap(id))).members
      ensures UniqueNames(TreeOf(VMap(id))) && NamesInOrder(TreeOf(VMap(id)))
      ensures forall w :: w != VMap(id) ==> TreeOf(w) == old(TreeOf(w))
      ensures issued == old(issued)
    {
      hide EscapeFits, Prefix, MapKey, Render, Proper, Members, PutSlot, UniqueNames, Printable, ReadText, Printed;
      hide Tree, Escapable, CutKey, CutName;
      var json := ToJson(val);
      ghost var tree := TreeOf(val);
      ReadsBack(Now(), trees, val);
      CutKeyIs(id, field);
      SetPrinted(Now(), trees, id, CutName(id, field), json, tree);
      HandedSet(Now(), trees, issued, id, CutName(id, field), json);
      hide OnlyHanded, Handed;
      var key := CutKey(id, field);
      PutKeepsOrder(maps, key, json);
      hide InKeyOrder;
      maps := PutSlot(maps, key, json);
      trees := trees.(maps := trees.maps[key := tree]);
      ValidUnique(Now(), trees, id);
      TreeInOrder(Now(), trees, id);
    }

    /** `hyle_val_map_get`: a new string holding the printed value of the field, or null. */
    method MapGet(id: nat, field: string) returns (v: Value)
      requires Sound() && id < UINT32
      modifies this
      ensures Sound() && old(TreeOf(VMap(id))).JObject?
      ensures var members := old(TreeOf(VMap(id))).members;
              if exists j :: 0 <= j < |members| && members[j].key == CutName(id, field) then
                && v == VString(old(issued) % UINT32) && TreeOf(v).JString?
                && exists m :: m in members && m.key == CutName(id, field) && ReadText(TreeOf(v).s) == Some(m.value)
              else v == VNull
      ensures Escapable(Now(), v)
      ensures forall w :: w != v ==> TreeOf(w) == old(TreeOf(w))
    {
      hide EscapeFits, Prefix, MapKey, Render, Proper, Members, FindKey, ReadText, CutKey, CutName;
      CutKeyIs(id, field);
      var i := FindKey(maps, CutKey(id, field));
      ghost var j := MemberSlot(Now(), trees, id, CutName(id, field));
      if i == |maps| {
        return VNull;
      }
      ghost var members := TreeOf(VMap(id)).members;
      RenderReadsBack(members[j].value);
      RenderPlain(members[j].value);
      PlainFits(maps[i].text);
      v := StringVal(maps[i].text);
    }

    /** `hyle_val_to_json`: the printed text of the value's tree, a JSON text that reads back as it. */
    method ToJson(v: Value) returns (text: string)
      requires Sound() && Escapable(Now(), v)
      ensures text == Render(TreeOf(v))
      ensures Printable(v) ==> ReadText(text) == Some(TreeOf(v))
      ensures ScalarText(Now(), v, text)
    {
      hide ReadText, IsNumber, EscapeFits, Members, IntText, Digits;
      if Printable(v) {
        ReadsBack(Now(), trees, v);
      }
      if v.VInt? {
        IntTextDenotes(v.i);
      }
      match v {
        case VNull => text := "null";
        case VBool(b) => text := if b then "true" else "false";
        case VInt(i) => text := IntText(i);
        case VFloat(t) => text := t;
        case VString(id) =>
          if id in strings {
            text := JsonEscape(strings[id]);
          } else {
            text := "null";
          }
        case VArray(id) => text := ArrayToJson(id);
        case VMap(id) => text := MapToJson(id);
      }
    }

    method ArrayToJson(id: nat) returns (text: string)
      requires Sound()
      ensures text == Render(TreeOf(VArray(id)))
    {
      var key := Digits(id);
      if key !in arrays {
        EmptyBrackets();
        return "[]";
      }
      ghost var items := trees.arrays[key];
      var texts := arrays[key];
      assert PrintedAll(texts, items) && |texts| == |items|;
      assert TreeOf(VArray(id)) == JArray(items);
      hide *;
      JoinEnd(items);
      text := PrintArray(texts, items);
    }

    method MapToJson(id: nat) returns (text: string)
      requires Sound() && NamesEscapable(maps, id)
      ensures text == Render(TreeOf(VMap(id)))
    {
      assert TreeOf(VMap(id)) == JObject(Members(maps, trees.maps, id));
      assert InMaps(maps, trees.maps);
      hide *;
      PairEnd(maps, trees.maps, id);
      text := PrintMap(maps, trees.maps, id);
    }
  }

  /** The element loop of `hyle_val_to_json` over an array. */
  method PrintArray(texts: seq<string>, ghost items: seq<Json>) returns (text: string)
    requires PrintedAll(texts, items) && |texts| == |items|
    ensures text == JoinedItems(items, |items|) + "]"
  {
    hide *;
    var json := new char[256](_ => '\0');
    json[0] := '[';
    var len: nat := 1;
    JoinStart(items);
    for i := 0 to |texts|
      invariant len + 1 < json.Length && json[..len] == JoinedItems(items, i) && fresh(json)
    {
      PrintedAt(texts, items, i);
      JoinStep(items, i);
      json, len := AppendItem(json, len, i == 0, texts[i]);
    }
    json[len] := ']';
    json[len + 1] := '\0';
    text := json[..len + 1];
  }

  /** The loop of `hyle_val_to_json` over the map pool. */
  method PrintMap(maps: seq<Slot>, ghost trees: map<string, Json>, id: nat) returns (text: string)
    requires InMaps(maps, trees) && NamesEscapable(maps, id)
    ensures text == JoinedPairs(maps, trees, id, |maps|) + "}"
  {
    hide *;
    var json := new char[256](_ => '\0');
    json[0] := '{';
    var len: nat := 1;
    var prefix := Prefix(id);
    var first := true;
    PairStart(maps, trees, id);
    for i := 0 to |maps|
      invariant len + 1 < json.Length && json[..len] == JoinedPairs(maps, trees, id, i) && fresh(json)
      invariant first <==> NoPairs(maps, trees, id, i)
    {
      if prefix <= maps[i].key {
        PairTaken(maps, trees, id, i, first);
        NameAt(maps, id, i);
        var name := JsonEscape(maps[i].key[|prefix|..]);
        PairTextIs(maps[i], id, name);
        json, len := AppendPair(json, len, first, name, maps[i].text);
        first := false;
      } else {
        PairSkipped(maps, trees, id, i);
      }
    }
    json[len] := '}';
    json[len + 1] := '\0';
    text := json[..len + 1];
  }

  // ---- handles that meet -------------------------------------------------------------------

  /** The counter comes round; nothing changes meanwhile. */
  method GoRound(ctx: Context)
    requires ctx.Sound() && ctx.issued == 1
    modifies ctx
    ensures ctx.Sound() && ctx.issued == UINT32 && forall w :: ctx.TreeOf(w) == old(ctx.TreeOf(w))
  {
    assert UINT32 == 0x1_0000_0000;
    hide *;
    for k := 1 to UINT32
      invariant ctx.Sound() && ctx.issued == k && forall w :: ctx.TreeOf(w) == old(ctx.TreeOf(w))
    {
      var _ := ctx.NewArray();
    }
  }

  /** After 2^32 more ids a new string replaces one in use. */
  method StringReplaced(a: string, b: string) returns (ctx: Context, first: Value, second: Value)
    ensures fresh(ctx) && ctx.Sound() && ctx.issued == UINT32 + 1
    ensures first == second && ctx.TreeOf(first) == JString(b)
  {
    assert UINT32 % UINT32 == 0 == 0 % UINT32;
    ctx := new Context();
    hide *;
    first := ctx.StringVal(a);
    GoRound(ctx);
    second := ctx.StringVal(b);
  }

  /** And a new array is one that has an element. */
  method ArrayNotEmpty(i: int) returns (ctx: Context, first: Value, second: Value)
    ensures fresh(ctx) && ctx.Sound() && ctx.issued == UINT32 + 1
    ensures first == second && ctx.TreeOf(second) == JArray([JNumber(IntText(i))])
  {
    assert UINT32 % UINT32 == 0 == 0 % UINT32 && Handed(1, 0);
    ctx := new Context();
    hide *;
    first := ctx.NewArray();
    IntReady(ctx, i);
    ctx.ArrayPush(0, VInt(i));
    assert [] + [JNumber(IntText(i))] == [JNumber(IntText(i))];
    GoRound(ctx);
    second := ctx.NewArray();
  }

  lemma IntReady(ctx: Context, i: int)
    requires ctx.Sound()
    ensures Printable(VInt(i)) && Escapable(ctx.Now(), VInt(i)) && ctx.TreeOf(VInt(i)) == JNumber(IntText(i))
  {
    hide Printed, OnlyHanded, IntText;
  }

  /** Two names alike in the bytes there is room for: the map has one member, with the second value. */
  method NamesMeet(f: string, g: string, i: int, k: int) returns (ctx: Context, v: Value)
    requires var m := NameRoom(0); m <= |f| && m <= |g| && f[..m] == g[..m]
    ensures fresh(ctx) && ctx.Sound() && v == VMap(0)
    ensures ctx.TreeOf(v) == JObject([Member(CutName(0, f), JNumber(IntText(k)))])
  {
    ctx := new Context();
    NamesMeetIff(0, f, g);
    assert Handed(1, 0) && 0 % UINT32 == 0;
    hide *;
    v := ctx.NewMap();
    ghost var none := ctx.TreeOf(v);
    IntReady(ctx, i);
    ctx.MapSet(0, f, VInt(i));
    ghost var one := ctx.TreeOf(v);
    IntReady(ctx, k);
    ctx.MapSet(0, g, VInt(k));
    SetTwice(none, one, ctx.TreeOf(v), CutName(0, f), JNumber(IntText(i)), JNumber(IntText(k)));
  }

  lemma SetTwice(none: Json, one: Json, two: Json, key: string, x: Json, y: Json)
    requires none == JObject([]) && one.JObject? && two.JObject? && UniqueNames(two)
    requires forall m: Member :: m in one.members <==> if m.key == key then m.value == x else m in none.members
    requires forall m: Member :: m in two.members <==> if m.key == key then m.value == y else m in one.members
    ensures two == JObject([Member(key, y)])
  {
    hide UniqueNames;
    assert forall m :: m in two.members ==> m.key == key;
    assert Member(key, y) in two.members;
    KeysAlike(two.members, key);
    FirstTwoDiffer(two);
  }

  lemma KeysAlike(members: seq<Member>, key: string)
    requires forall m :: m in members ==> m.key == key
    ensures |members| <= 1 || members[0].key == members[1].key
  {
    assert |members| <= 1 || (members[0] in members && members[1] in members);
  }

  lemma FirstTwoDiffer(j: Json)
    requires UniqueNames(j)
    ensures |j.members| <= 1 || j.members[0].key != j.members[1].key
  {
  }
}
