/** Writing queries as query strings: every query that can be written parses back to itself, and
    each parameter at the end of a string changes its own part of the query only. */
module QueryFormat {
  import opened Text
  import opened Wrappers
  import opened Decoders
  import opened QueryParser
  import opened QueryLaws

  // ---- writing --------------------------------------------------------------------------

  /** A parameter before it is percent-encoded. */
  datatype Written = Written(name: string, text: string)

  /** A name and a text that can be written. */
  predicate Writable(w: Written) {
    '&' !in w.name && '=' !in w.name && ByteText(w.text)
  }

  predicate AllWritable(ws: seq<Written>) {
    forall i :: 0 <= i < |ws| ==> Writable(ws[i])
  }

  function WriteOne(w: Written): string
    requires Writable(w)
  {
    w.name + "=" + Encode(w.text)
  }

  /** `name=text&...`, the texts percent-encoded. */
  function Write(ws: seq<Written>): string
    requires AllWritable(ws)
  {
    if ws == [] then ""
    else
      var front, last := ws[..|ws| - 1], WriteOne(ws[|ws| - 1]);
      if front == [] then last else Joined(Write(front), last)
  }

  function Optional(name: string, text: Option<string>): seq<Written> {
    if text.Some? then [Written(name, text.value)] else []
  }

  function Number(name: string, n: nat): seq<Written> {
    if n == 0 then [] else [Written(name, Digits(n))]
  }

  function Commaed(pieces: seq<string>): string
    requires pieces != []
  {
    if |pieces| == 1 then pieces[0] else pieces[0] + "," + Commaed(pieces[1..])
  }

  /** The items of an include list, which are decoded twice. */
  function Encoded(items: seq<string>): (r: seq<string>)
    requires forall t :: t in items ==> ByteText(t)
    ensures |r| == |items|
  {
    seq(|items|, i requires 0 <= i < |items| => assert items[i] in items && ByteText(items[i]); Encode(items[i]))
  }

  function IncludePart(items: seq<string>): seq<Written>
    requires forall t :: t in items ==> ByteText(t)
  {
    if items == [] then [] else [Written("include", Commaed(Encoded(items)))]
  }

  function FilterParts(fs: seq<Filter>): (r: seq<Written>)
    ensures |r| == |fs|
  {
    seq(|fs|, i requires 0 <= i < |fs| => Written(fs[i].field, fs[i].value))
  }

  /** The operators of the filters, once for each field. */
  function OpParts(fs: seq<Filter>): seq<Written> {
    if fs == [] then []
    else
      var before, f := OpParts(fs[..|fs| - 1]), fs[|fs| - 1];
      if f.op.Some? && Written(f.field + "_op", f.op.value) !in before
      then before + [Written(f.field + "_op", f.op.value)] else before
  }

  function SortPart(q: Query): seq<Written> {
    Optional("sort", if q.sort.Some? then Some(q.sort.value + ":" + if q.asc then "asc" else "desc") else None)
  }

  function ScalarParts(q: Query): seq<Written> {
    SortPart(q) + Number("page", q.page) + Number("per_page", q.perPage) + Optional("q", q.q)
  }

  /** All parts of a query. */
  function PartsOf(q: Query): seq<Written>
    requires forall t :: t in q.includes ==> ByteText(t)
  {
    ScalarParts(q) + IncludePart(q.includes) + FilterParts(q.filters) + OpParts(q.filters)
  }

  /** A filter that can be written: an operator needs a name that its buffer holds. */
  predicate WritableFilter(f: Filter) {
    && FieldName(f.field) && ByteText(f.value) && f.value != ""
    && (f.op.Some? ==> f.op.value in ["and", "or"] && 0 < |f.field| < 64)
  }

  /** A query that can be written: a sort field has no colon, numbers have 32 bits, and the filters
      of a field have one operator, of at most 64 in all. */
  predicate WritableQuery(q: Query) {
    && WritableScalars(q) && (forall i :: 0 <= i < |q.filters| ==> WritableFilter(q.filters[i]))
    && (forall i, j :: 0 <= i < |q.filters| && 0 <= j < |q.filters| && q.filters[i].field == q.filters[j].field ==>
          q.filters[i].op == q.filters[j].op)
    && |OpParts(q.filters)| <= MAX_OPS
  }

  predicate WritableScalars(q: Query) {
    && (if q.sort.Some? then ByteText(q.sort.value) && ':' !in q.sort.value else q.asc)
    && q.page < 0x1_0000_0000 && q.perPage < 0x1_0000_0000
    && (q.q.Some? ==> ByteText(q.q.value)) && (forall t :: t in q.includes ==> ByteText(t))
  }

  // ---- what a written string collects -----------------------------------------------------

  /** The parse after these parts. */
  function Taken(st: Parse, ws: seq<Written>): Parse {
    if ws == [] then st else Take(Taken(st, ws[..|ws| - 1]), ws[|ws| - 1].name, ws[|ws| - 1].text)
  }

  lemma {:induction false} TakenConcat(st: Parse, a: seq<Written>, b: seq<Written>)
    ensures Taken(st, a + b) == Taken(Taken(st, a), b)
  {
    hide Take;
    if b == [] {
      assert a + b == a;
    } else {
      assert (a + b)[..|a + b| - 1] == a + b[..|b| - 1];
      TakenConcat(st, a, b[..|b| - 1]);
    }
  }

  lemma WrittenChars(w: Written)
    requires Writable(w)
    ensures forall i :: 0 <= i < |Encode(w.text)| ==> Encode(w.text)[i] !in ['&', '=', ',', NUL]
    ensures '&' !in w.name && '=' !in w.name && WriteOne(w) != "" && WriteOne(w)[|WriteOne(w)| - 1] != '&'
  {
    EncodedChars(w.text);
    hide Encode;
  }

  lemma WriteSnoc(ws: seq<Written>)
    requires AllWritable(ws) && ws != []
    ensures AllWritable(ws[..|ws| - 1]) && Writable(ws[|ws| - 1])
    ensures Write(ws) == if |ws| == 1 then WriteOne(ws[|ws| - 1])
                         else Joined(Write(ws[..|ws| - 1]), WriteOne(ws[|ws| - 1]))
  {
    hide Writable, WriteOne;
  }

  lemma WriteOneParam(w: Written)
    requires Writable(w)
    ensures Params(WriteOne(w)) == [Param(w.name, Some(Encode(w.text)))]
  {
    WrittenChars(w);
    hide Encode, Params;
    OneParam(w.name, Encode(w.text));
  }

  /** A part at the end is taken last. */
  lemma CollectLast(s: string, w: Written)
    requires Writable(w) && s != "" && s[|s| - 1] != '&'
    ensures Collect(Params(Joined(s, WriteOne(w)))) == Take(Collect(Params(s)), w.name, w.text)
  {
    hide Params, Collect, Take, Encode, WriteOne, Joined;
    ParamsJoin(s, WriteOne(w));
    WriteOneParam(w);
    CollectMore(Params(s), w);
  }

  lemma CollectMore(ps: seq<Param>, w: Written)
    requires Writable(w)
    ensures Collect(ps + [Param(w.name, Some(Encode(w.text)))]) == Take(Collect(ps), w.name, w.text)
  {
    DecodeInvertsEncode(w.text);
    CutNulFree(w.text);
    var all := ps + [Param(w.name, Some(Encode(w.text)))];
    assert all[..|ps|] == ps;
    hide Encode, Decode, Cut, Take;
  }

  lemma {:induction false} WrittenCollected(ws: seq<Written>)
    requires AllWritable(ws)
    ensures Collect(Params(Write(ws))) == Taken(Parse(EMPTY_QUERY, []), ws)
    ensures ws != [] ==> Write(ws) != "" && Write(ws)[|Write(ws)| - 1] != '&'
  {
    if ws != [] {
      hide *;
      WriteSnoc(ws);
      var front, last := ws[..|ws| - 1], ws[|ws| - 1];
      WrittenChars(last);
      WrittenCollected(front);
      TakenSnoc(ws);
      if front == [] {
        WriteOneParam(last);
        CollectMore([], last);
        NoParams();
        assert [] + [Param(last.name, Some(Encode(last.text)))] == [Param(last.name, Some(Encode(last.text)))];
        NothingWritten();
      } else {
        CollectLast(Write(front), last);
        JoinedEnd(Write(front), WriteOne(last));
      }
    } else {
      NothingWritten();
    }
  }

  lemma NothingWritten()
    ensures AllWritable([]) && Write([]) == "" && Collect([]) == Parse(EMPTY_QUERY, []) && Params("") == []
    ensures Taken(Parse(EMPTY_QUERY, []), []) == Parse(EMPTY_QUERY, [])
  {
  }

  lemma TakenSnoc(ws: seq<Written>)
    requires ws != []
    ensures forall st :: Taken(st, ws) == Take(Taken(st, ws[..|ws| - 1]), ws[|ws| - 1].name, ws[|ws| - 1].text)
  {
    hide Take;
  }

  lemma JoinedEnd(s: string, t: string)
    requires t != "" && t[|t| - 1] != '&'
    ensures Joined(s, t) != "" && Joined(s, t)[|Joined(s, t)| - 1] != '&'
  {
  }

  // ---- numbers ------------------------------------------------------------------------------

  lemma {:induction false} LeadingDigits(d: string, n: nat, rest: string)
    requires AllDigits(d) && (rest == "" || !IsDigit(rest[0]))
    ensures LeadingNumber(d + rest, n) == LeadingNumber(d, n)
    decreases |d|
  {
    if d == "" {
      assert d + rest == rest;
    } else {
      assert (d + rest)[0] == d[0] && (d + rest)[1..] == d[1..] + rest;
      LeadingDigits(d[1..], 10 * n + (d[0] as int - '0' as int), rest);
    }
  }

  lemma {:induction false} LeadingSnoc(d: string, n: nat, c: char)
    requires AllDigits(d) && IsDigit(c)
    ensures LeadingNumber(d + [c], n) == 10 * LeadingNumber(d, n) + (c as int - '0' as int)
    decreases |d|
  {
    if d == "" {
      assert (d + [c])[1..] == "";
    } else {
      assert (d + [c])[0] == d[0] && (d + [c])[1..] == d[1..] + [c];
      LeadingSnoc(d[1..], 10 * n + (d[0] as int - '0' as int), c);
    }
  }

  lemma {:induction false} LeadingOfDigits(n: nat)
    ensures AllDigits(Digits(n)) && Digits(n) != "" && LeadingNumber(Digits(n), 0) == n
    decreases n
  {
    ValOfDigits(n);
    if n < 10 {
      assert Digits(n)[1..] == "";
    } else {
      LeadingOfDigits(n / 10);
      LeadingSnoc(Digits(n / 10), 0, DigitChar(n % 10));
    }
  }

  lemma AtolIs(n: nat, rest: string)
    requires rest == "" || !IsDigit(rest[0])
    ensures var v := if n < 0x8000_0000_0000_0000 then n else 0x7fff_ffff_ffff_ffff;
            Atol(Digits(n) + rest) == v && Atol("+" + Digits(n) + rest) == v
    ensures Atol("-" + Digits(n) + rest) == 0 - if n < 0x8000_0000_0000_0000 then n else 0x8000_0000_0000_0000
  {
    hide Digits, LeadingNumber;
    LeadingOfDigits(n);
    LeadingDigits(Digits(n), 0, rest);
    var d := Digits(n) + rest;
    assert IsDigit(d[0]);
    assert "+" + Digits(n) + rest == "+" + d && "-" + Digits(n) + rest == "-" + d;
    AtolSigned(d);
  }

  lemma AtolSigned(d: string)
    requires d != "" && IsDigit(d[0])
    ensures Atol(d) == Atol("+" + d) == Min(LeadingNumber(d, 0), LONG_MAX)
    ensures Atol("-" + d) == 0 - Min(LeadingNumber(d, 0), LONG_MAX + 1)
  {
    assert ("+" + d)[1..] == d && ("-" + d)[1..] == d;
    hide LeadingNumber;
  }

  /** A numeral gives its number modulo 2^32, whatever follows it; it is held to 64 bits first. */
  lemma PageNumberIs(n: nat, rest: string)
    requires rest == "" || !IsDigit(rest[0])
    ensures var v := if n < 0x8000_0000_0000_0000 then n else 0x7fff_ffff_ffff_ffff;
            PageNumber(Digits(n) + rest) == v % 0x1_0000_0000 && PageNumber("+" + Digits(n) + rest) == v % 0x1_0000_0000
    ensures var v := if n < 0x8000_0000_0000_0000 then n else 0x8000_0000_0000_0000;
            PageNumber("-" + Digits(n) + rest) == (0 - v) % 0x1_0000_0000
  {
    AtolIs(n, rest);
    hide Digits, Atol;
  }

  /** Blanks before a number do not count, and without a number it is 0. */
  lemma PageNumberBlank(s: string)
    ensures s != "" && IsSpace(s[0]) ==> PageNumber(s) == PageNumber(s[1..])
    ensures s == "" || (!IsSpace(s[0]) && !IsDigit(s[0]) && s[0] != '+' && s[0] != '-') ==> PageNumber(s) == 0
  {
  }

  lemma {:induction false} DigitsWritable(n: nat, name: string)
    requires '&' !in name && '=' !in name
    ensures Writable(Written(name, Digits(n))) && Encode(Digits(n)) == Digits(n)
  {
    ValOfDigits(n);
    assert forall c :: c in Digits(n) ==> IsDigit(c);
    EncodeDigits(Digits(n));
    hide Digits;
  }

  lemma {:induction false} EncodeDigits(d: string)
    requires AllDigits(d) && forall c :: c in d ==> IsByte(c)
    ensures Encode(d) == d
  {
    if d != "" {
      assert forall c :: c in d[1..] ==> c in d;
      EncodeDigits(d[1..]);
      assert IsDigit(d[0]) && d == [d[0]] + d[1..];
    }
  }

  // ---- each part ----------------------------------------------------------------------------

  lemma SortTaken(st: Parse, f: string, order: string)
    requires ':' !in f
    ensures Take(st, "sort", f + ":" + order) == st.(query := st.query.(sort := Some(f), asc := order != "desc"))
  {
    var v := f + ":" + order;
    assert v[|f|] == ':' && forall i :: 0 <= i < |f| ==> v[i] == f[i] && v[i] in f;
    assert IndexOf(v, ':') == |f|;
    assert v[..|f|] == f && v[|f| + 1..] == order;
    hide IndexOf;
  }

  lemma NumberRead(n: nat)
    requires n < 0x1_0000_0000
    ensures PageNumber(Digits(n)) == n
  {
    hide Digits, PageNumber;
    PageNumberIs(n, "");
    assert Digits(n) + "" == Digits(n);
  }

  lemma NumberTaken(st: Parse, n: nat)
    requires n < 0x1_0000_0000
    ensures Take(st, "page", Digits(n)) == st.(query := st.query.(page := n))
    ensures Take(st, "per_page", Digits(n)) == st.(query := st.query.(perPage := n))
  {
    hide Digits, PageNumber, IndexOf, Split, IncludeList;
    NumberRead(n);
  }

  lemma PlainTaken(st: Parse, t: string)
    ensures Take(st, "q", t) == st.(query := st.query.(q := Some(t)))
    ensures Take(st, "custom", t) == Take(st, "mode", t) == Take(st, "search_mode", t) == st
  {
    hide PageNumber, IndexOf, Split, IncludeList;
  }

  lemma CommaFirst(p: string, rest: string)
    requires ',' !in p
    ensures var s := p + "," + rest;
            IndexOf(s, ',') == |p| < |s| && s[..|p|] == p && s[|p| + 1..] == rest
  {
    var s := p + "," + rest;
    assert s[|p|] == ',' && forall i :: 0 <= i < |p| ==> s[i] == p[i] && p[i] in p;
  }

  lemma NoComma(p: string)
    requires ',' !in p
    ensures Split(p, ',') == [p]
  {
    assert forall i :: 0 <= i < |p| ==> p[i] in p;
    assert IndexOf(p, ',') == |p|;
  }

  lemma SplitOnce(s: string)
    ensures IndexOf(s, ',') < |s| ==> Split(s, ',') == [s[..IndexOf(s, ',')]] + Split(s[IndexOf(s, ',') + 1..], ',')
  {
    hide IndexOf;
  }

  lemma {:induction false} SplitCommaed(pieces: seq<string>)
    requires pieces != [] && forall p :: p in pieces ==> ',' !in p
    ensures Split(Commaed(pieces), ',') == pieces
  {
    hide Split, IndexOf;
    var p := pieces[0];
    assert p in pieces && forall q :: q in pieces[1..] ==> q in pieces;
    if |pieces| == 1 {
      NoComma(p);
    } else {
      SplitCommaed(pieces[1..]);
      CommaFirst(p, Commaed(pieces[1..]));
      SplitOnce(Commaed(pieces));
      assert pieces == [p] + pieces[1..];
    }
  }

  lemma {:induction false} CommaedChars(pieces: seq<string>)
    requires pieces != [] && forall p :: p in pieces ==> ByteText(p)
    ensures ByteText(Commaed(pieces))
  {
    assert pieces[0] in pieces && forall q :: q in pieces[1..] ==> q in pieces;
    if |pieces| > 1 {
      CommaedChars(pieces[1..]);
      var a, b := pieces[0], Commaed(pieces[1..]);
      assert forall i :: 0 <= i < |a + "," + b| ==>
                         (a + "," + b)[i] == if i < |a| then a[i] else if i == |a| then ',' else b[i - |a| - 1];
      hide Commaed;
    }
  }

  lemma EncodedItem(t: string)
    requires ByteText(t)
    ensures ByteText(Encode(t)) && ',' !in Encode(t) && Decoded1(Encode(t)) == t
  {
    EncodedChars(t);
    DecodeInvertsEncode(t);
    CutNulFree(t);
    hide Encode, Decode;
  }

  lemma EncodedItems(items: seq<string>)
    requires forall t :: t in items ==> ByteText(t)
    ensures forall p :: p in Encoded(items) ==> ByteText(p) && ',' !in p
  {
    hide Encode, ByteText;
    forall p | p in Encoded(items) ensures ByteText(p) && ',' !in p {
      var i :| 0 <= i < |items| && Encoded(items)[i] == p;
      assert items[i] in items;
      EncodedItem(items[i]);
    }
  }

  lemma {:induction false} DecodedItems(items: seq<string>)
    requires forall t :: t in items ==> ByteText(t)
    ensures IncludeList(Encoded(items)) == items
  {
    hide Decoded1, Encode, ByteText;
    if items != [] {
      assert items[0] in items && forall t :: t in items[1..] ==> t in items;
      EncodedItem(items[0]);
      DecodedItems(items[1..]);
      assert Encoded(items)[1..] == Encoded(items[1..]);
    }
  }

  lemma IncludesBack(items: seq<string>)
    requires forall t :: t in items ==> ByteText(t)
    ensures IncludeList(Encoded(items)) == items
    ensures forall p :: p in Encoded(items) ==> ByteText(p) && ',' !in p
  {
    EncodedItems(items);
    DecodedItems(items);
    hide *;
  }

  /** The list as written, decoded once, is cut at its commas and each item decoded again. */
  lemma IncludeTaken(st: Parse, items: seq<string>)
    requires items != [] && forall t :: t in items ==> ByteText(t)
    ensures ByteText(Commaed(Encoded(items)))
    ensures Take(st, "include", Commaed(Encoded(items)))
            == st.(query := st.query.(includes := st.query.includes + items))
  {
    IncludesBack(items);
    SplitCommaed(Encoded(items));
    CommaedChars(Encoded(items));
    hide Encoded, Commaed, Split, IncludeList, PageNumber, IndexOf, ByteText;
  }

  lemma FieldTaken(st: Parse, f: string, v: string)
    requires FieldName(f) && v != ""
    ensures Take(st, f, v) == st.(query := st.query.(filters := st.query.filters + [Filter(f, v, None)]))
  {
    hide PageNumber, IncludeList, IndexOf, IsOp, Split;
  }

  lemma OpTaken(st: Parse, f: string, op: string)
    requires 0 < |f| < 64 && op in ["and", "or"] && |st.ops| < MAX_OPS
    ensures Take(st, f + "_op", op) == st.(ops := st.ops + [Override(f, op)])
  {
    assert (f + "_op")[|f|..] == "_op" && (f + "_op")[..|f|] == f;
    hide PageNumber, IncludeList, IndexOf, Split;
  }

  // ---- parsing inverts writing ------------------------------------------------------------------

  lemma {:induction false} FiltersTaken(st: Parse, fs: seq<Filter>)
    requires forall i :: 0 <= i < |fs| ==> WritableFilter(fs[i])
    ensures Taken(st, FilterParts(fs))
            == st.(query := st.query.(filters := st.query.filters + Bare(fs)))
  {
    if fs != [] {
      hide Take, FieldName, ByteText;
      var front, f := fs[..|fs| - 1], fs[|fs| - 1];
      assert WritableFilter(fs[|fs| - 1]);
      hide WritableFilter;
      FiltersTaken(st, front);
      PartsSnoc(fs);
      FieldTaken(Taken(st, FilterParts(front)), f.field, f.value);
      hide FilterParts, Bare;
      TakenSnoc(FilterParts(fs));
    }
  }

  lemma PartsSnoc(fs: seq<Filter>)
    requires fs != []
    ensures var front, f := fs[..|fs| - 1], fs[|fs| - 1];
            && FilterParts(fs) == FilterParts(front) + [Written(f.field, f.value)]
            && FilterParts(fs)[..|fs| - 1] == FilterParts(front)
            && Bare(fs) == Bare(front) + [Filter(f.field, f.value, None)]
  {
  }

  /** The filters without their operators. */
  function Bare(fs: seq<Filter>): (r: seq<Filter>)
    ensures |r| == |fs|
  {
    seq(|fs|, i requires 0 <= i < |fs| => fs[i].(op := None))
  }

  /** The overrides that the operators are written as. */
  function OpsOf(ws: seq<Written>): (r: seq<Override>)
    requires forall i :: 0 <= i < |ws| ==> |ws[i].name| > 3
    ensures |r| == |ws|
  {
    seq(|ws|, i requires 0 <= i < |ws| => Override(ws[i].name[..|ws[i].name| - 3], ws[i].text))
  }

  lemma OpPartsSnoc(fs: seq<Filter>)
    requires fs != []
    ensures var g := fs[|fs| - 1];
            && |OpParts(fs)| <= |OpParts(fs[..|fs| - 1])| + 1
            && forall w :: w in OpParts(fs)
                 <==> w in OpParts(fs[..|fs| - 1]) || (g.op.Some? && w == Written(g.field + "_op", g.op.value))
  {
  }

  lemma OpNamed(f: string, g: string)
    ensures f + "_op" == g + "_op" <==> f == g
  {
    assert (f + "_op")[..|f|] == f && (g + "_op")[..|g|] == g;
  }

  lemma WrittenOp(g: Filter)
    requires WritableFilter(g) && g.op.Some?
    ensures IsOpPart(Written(g.field + "_op", g.op.value))
  {
    hide FieldName, ByteText;
  }

  ghost predicate Operated(fs: seq<Filter>, f: string, op: string) {
    exists i :: 0 <= i < |fs| && fs[i].field == f && fs[i].op == Some(op)
  }

  lemma OperatedSnoc(fs: seq<Filter>, f: string, op: string)
    requires fs != []
    ensures Operated(fs, f, op) <==>
              Operated(fs[..|fs| - 1], f, op) || (fs[|fs| - 1].field == f && fs[|fs| - 1].op == Some(op))
  {
    assert forall i :: 0 <= i < |fs| - 1 ==> fs[i] == fs[..|fs| - 1][i];
  }

  lemma {:induction false} OpPartsAre(fs: seq<Filter>)
    requires forall i :: 0 <= i < |fs| ==> WritableFilter(fs[i])
    ensures forall w :: w in OpParts(fs) ==> IsOpPart(w)
    ensures forall f, op :: Written(f + "_op", op) in OpParts(fs) <==> Operated(fs, f, op)
  {
    if fs != [] {
      hide WritableFilter, OpParts, Operated, IsOpPart;
      var front, g := fs[..|fs| - 1], fs[|fs| - 1];
      OpPartsAre(front);
      OpPartsSnoc(fs);
      if g.op.Some? {
        WrittenOp(g);
      }
      forall f, op ensures Written(f + "_op", op) in OpParts(fs) <==> Operated(fs, f, op) {
        OpNamed(f, g.field);
        OperatedSnoc(fs, f, op);
      }
    }
  }

  lemma OpPartsAll(fs: seq<Filter>)
    requires forall i :: 0 <= i < |fs| ==> WritableFilter(fs[i])
    ensures forall i :: 0 <= i < |OpParts(fs)| ==> IsOpPart(OpParts(fs)[i]) && |OpParts(fs)[i].name| > 3
  {
    OpPartsAre(fs);
    hide WritableFilter, OpParts;
    forall i | 0 <= i < |OpParts(fs)| ensures IsOpPart(OpParts(fs)[i]) && |OpParts(fs)[i].name| > 3 {
      assert OpParts(fs)[i] in OpParts(fs);
    }
  }

  predicate IsOpPart(w: Written) {
    3 < |w.name| < 67 && w.name[|w.name| - 3..] == "_op" && w.text in ["and", "or"]
  }

  lemma {:induction false} OpsTaken(st: Parse, ws: seq<Written>)
    requires forall i :: 0 <= i < |ws| ==> IsOpPart(ws[i]) && |ws[i].name| > 3
    requires st.ops == [] && |ws| <= MAX_OPS
    ensures Taken(st, ws) == st.(ops := OpsOf(ws))
  {
    if ws != [] {
      var front, w := ws[..|ws| - 1], ws[|ws| - 1];
      OpsTaken(st, front);
      var f := w.name[..|w.name| - 3];
      assert w.name == f + "_op";
      OpTaken(Taken(st, front), f, w.text);
      assert OpsOf(ws) == OpsOf(front) + [Override(f, w.text)];
      hide Take;
    }
  }

  lemma WritableJoin(a: seq<Written>, b: seq<Written>)
    requires AllWritable(a) && AllWritable(b)
    ensures AllWritable(a + b)
  {
    hide Writable;
  }

  lemma SortWritable(q: Query)
    requires WritableQuery(q)
    ensures AllWritable(SortPart(q)) && AllWritable(Optional("q", q.q))
  {
    OrderTexts();
    hide WritableFilter, OpParts, ByteText;
    if q.sort.Some? {
      BytesJoin(q.sort.value, if q.asc then "asc" else "desc");
    }
  }

  lemma OrderTexts()
    ensures ByteText("asc") && ByteText("desc")
  {
  }

  lemma BytesJoin(a: string, b: string)
    requires ByteText(a) && ByteText(b)
    ensures ByteText(a + ":" + b)
  {
    var s := a + ":" + b;
    assert forall i :: 0 <= i < |s| ==> s[i] == if i < |a| then a[i] else if i == |a| then ':' else b[i - |a| - 1];
    assert forall c :: c in s ==> c in a || c == ':' || c in b;
  }

  lemma NumberWritable(name: string, n: nat)
    requires '&' !in name && '=' !in name
    ensures AllWritable(Number(name, n))
  {
    DigitsWritable(n, name);
    hide Digits, Writable;
  }

  lemma IncludeWritable(items: seq<string>)
    requires forall t :: t in items ==> ByteText(t)
    ensures AllWritable(IncludePart(items))
  {
    hide ByteText, Commaed, Encoded;
    if items != [] {
      IncludesBack(items);
      CommaedChars(Encoded(items));
    }
  }

  lemma FiltersWritable(fs: seq<Filter>)
    requires forall i :: 0 <= i < |fs| ==> WritableFilter(fs[i])
    ensures AllWritable(FilterParts(fs))
  {
    forall i | 0 <= i < |fs| ensures Writable(FilterParts(fs)[i]) {
      assert WritableFilter(fs[i]);
      hide IsOp, Reserved, ByteText;
    }
  }

  lemma {:induction false} OpsWritable(fs: seq<Filter>)
    requires forall i :: 0 <= i < |fs| ==> WritableFilter(fs[i])
    ensures AllWritable(OpParts(fs))
  {
    if fs != [] {
      OpsWritable(fs[..|fs| - 1]);
      assert WritableFilter(fs[|fs| - 1]);
      var f := fs[|fs| - 1];
      if f.op.Some? {
        assert forall c :: c in f.field + "_op" ==> c in f.field || c in "_op";
        assert ByteText(f.op.value);
      }
      hide IsOp, Reserved, ByteText;
    }
  }

  lemma PartsWritable(q: Query)
    requires WritableQuery(q)
    ensures AllWritable(PartsOf(q))
  {
    SortWritable(q);
    NumberWritable("page", q.page);
    NumberWritable("per_page", q.perPage);
    IncludeWritable(q.includes);
    FiltersWritable(q.filters);
    OpsWritable(q.filters);
    hide AllWritable, SortPart, Optional, Number, IncludePart, FilterParts, OpParts, WritableFilter;
    WritableJoin(SortPart(q), Number("page", q.page));
    WritableJoin(SortPart(q) + Number("page", q.page), Number("per_page", q.perPage));
    WritableJoin(SortPart(q) + Number("page", q.page) + Number("per_page", q.perPage), Optional("q", q.q));
    WritableJoin(ScalarParts(q), IncludePart(q.includes));
    WritableJoin(ScalarParts(q) + IncludePart(q.includes), FilterParts(q.filters));
    WritableJoin(ScalarParts(q) + IncludePart(q.includes) + FilterParts(q.filters), OpParts(q.filters));
  }

  lemma TakenOne(st: Parse, w: Written)
    ensures Taken(st, [w]) == Take(st, w.name, w.text) && Taken(st, []) == st
  {
    assert [w][..0] == [];
    hide Take;
  }

  lemma SortStage(q: Query)
    requires WritableQuery(q)
    ensures Taken(Parse(EMPTY_QUERY, []), SortPart(q)) == Parse(EMPTY_QUERY.(sort := q.sort, asc := q.asc), [])
  {
    hide Take, WritableFilter, OpParts;
    var st := Parse(EMPTY_QUERY, []);
    if q.sort.Some? {
      TakenOne(st, SortPart(q)[0]);
      SortTaken(st, q.sort.value, if q.asc then "asc" else "desc");
    }
  }

  lemma NumberStage(st: Parse, n: nat)
    requires n < 0x1_0000_0000
    ensures st.query.page == 0 ==> Taken(st, Number("page", n)) == st.(query := st.query.(page := n))
    ensures st.query.perPage == 0 ==> Taken(st, Number("per_page", n)) == st.(query := st.query.(perPage := n))
  {
    hide Take, Digits;
    TakenOne(st, Written("page", Digits(n)));
    TakenOne(st, Written("per_page", Digits(n)));
    NumberTaken(st, n);
  }

  lemma PlainStage(st: Parse, t: Option<string>)
    requires st.query.q == None
    ensures Taken(st, Optional("q", t)) == st.(query := st.query.(q := t))
  {
    hide Take;
    if t.Some? {
      TakenOne(st, Written("q", t.value));
      PlainTaken(st, t.value);
    }
  }

  lemma IncludeStage(st: Parse, items: seq<string>)
    requires st.query.includes == [] && forall t :: t in items ==> ByteText(t)
    ensures Taken(st, IncludePart(items)) == st.(query := st.query.(includes := items))
  {
    hide Take, Commaed, Encoded, ByteText;
    if items != [] {
      TakenOne(st, Written("include", Commaed(Encoded(items))));
      IncludeTaken(st, items);
    }
  }

  lemma ScalarsTaken(q: Query)
    requires WritableQuery(q)
    ensures Taken(Parse(EMPTY_QUERY, []), ScalarParts(q)) == Parse(q.(filters := [], includes := []), [])
  {
    hide Taken, SortPart, Optional, Number, OpParts, WritableFilter, ByteText;
    var st := Parse(EMPTY_QUERY, []);
    var a := SortPart(q);
    SortStage(q);
    TakenConcat(st, a, Number("page", q.page));
    NumberStage(Taken(st, a), q.page);
    var b := a + Number("page", q.page);
    TakenConcat(st, b, Number("per_page", q.perPage));
    NumberStage(Taken(st, b), q.perPage);
    var c := b + Number("per_page", q.perPage);
    TakenConcat(st, c, Optional("q", q.q));
    PlainStage(Taken(st, c), q.q);
  }

  lemma PartsTaken(q: Query)
    requires WritableQuery(q)
    ensures forall i :: 0 <= i < |OpParts(q.filters)| ==> |OpParts(q.filters)[i].name| > 3
    ensures Taken(Parse(EMPTY_QUERY, []), PartsOf(q))
            == Parse(q.(filters := Bare(q.filters)), OpsOf(OpParts(q.filters)))
  {
    OpPartsAll(q.filters);
    hide Taken, ScalarParts, IncludePart, FilterParts, OpParts, WritableFilter, Plain, OpsOf, ByteText, IsOpPart;
    var st, a := Parse(EMPTY_QUERY, []), ScalarParts(q);
    ScalarsTaken(q);
    TakenConcat(st, a, IncludePart(q.includes));
    IncludeStage(Taken(st, a), q.includes);
    var b := a + IncludePart(q.includes);
    TakenConcat(st, b, FilterParts(q.filters));
    FiltersTaken(Taken(st, b), q.filters);
    TakenConcat(st, b + FilterParts(q.filters), OpParts(q.filters));
    OpsTaken(Taken(st, b + FilterParts(q.filters)), OpParts(q.filters));
    assert [] + Bare(q.filters) == Bare(q.filters);
  }

  lemma OpPartNamed(fs: seq<Filter>, k: nat, f: string)
    requires forall i :: 0 <= i < |fs| ==> WritableFilter(fs[i])
    requires k < |OpParts(fs)| && 3 < |OpParts(fs)[k].name| && OpParts(fs)[k].name[..|OpParts(fs)[k].name| - 3] == f
    ensures exists i :: 0 <= i < |fs| && fs[i].field == f && fs[i].op == Some(OpParts(fs)[k].text)
  {
    OpPartsAre(fs);
    hide OpParts, WritableFilter;
    var w := OpParts(fs)[k];
    assert w in OpParts(fs) && IsOpPart(w);
    assert w.name == f + "_op";
    assert Written(f + "_op", w.text) == w;
  }

  lemma OpPartFor(fs: seq<Filter>, i: nat)
    requires forall i :: 0 <= i < |fs| ==> WritableFilter(fs[i])
    requires i < |fs| && fs[i].op.Some?
    ensures exists k :: 0 <= k < |OpParts(fs)| && 3 < |OpParts(fs)[k].name|
              && OpParts(fs)[k].name[..|OpParts(fs)[k].name| - 3] == fs[i].field
  {
    OpPartsAre(fs);
    hide OpParts, WritableFilter;
    var f := fs[i].field;
    assert Written(f + "_op", fs[i].op.value) in OpParts(fs);
    var k :| 0 <= k < |OpParts(fs)| && OpParts(fs)[k] == Written(f + "_op", fs[i].op.value);
    assert (f + "_op")[..|f|] == f;
  }

  lemma {:induction false} OneOp(ops: seq<Override>, field: string, op: Option<string>)
    requires forall k :: 0 <= k < |ops| && ops[k].field == field ==> Some(ops[k].op) == op
    ensures OpFor(ops, field) == if exists k :: 0 <= k < |ops| && ops[k].field == field then op else None
  {
    if ops != [] {
      OneOp(ops[..|ops| - 1], field, op);
      assert forall k :: 0 <= k < |ops| - 1 ==> ops[k] == ops[..|ops| - 1][k];
    }
  }

  /** The operators written come back to the filters of their fields. */
  lemma OpsBack(fs: seq<Filter>)
    requires forall i :: 0 <= i < |fs| ==> WritableFilter(fs[i])
    requires forall i, j :: 0 <= i < |fs| && 0 <= j < |fs| && fs[i].field == fs[j].field ==> fs[i].op == fs[j].op
    requires forall i :: 0 <= i < |OpParts(fs)| ==> |OpParts(fs)[i].name| > 3
    ensures WithOps(Bare(fs), OpsOf(OpParts(fs))) == fs
  {
    var ops := OpsOf(OpParts(fs));
    hide WritableFilter, OpParts;
    forall i | 0 <= i < |fs| ensures OpFor(ops, fs[i].field) == fs[i].op {
      forall k | 0 <= k < |ops| && ops[k].field == fs[i].field ensures Some(ops[k].op) == fs[i].op {
        OpPartNamed(fs, k, fs[i].field);
      }
      OneOp(ops, fs[i].field, fs[i].op);
      if fs[i].op.Some? {
        OpPartFor(fs, i);
        var k :| 0 <= k < |ops| && OpParts(fs)[k].name[..|OpParts(fs)[k].name| - 3] == fs[i].field;
        assert ops[k].field == fs[i].field;
      }
    }
  }

  /** Parsing inverts writing: every query that can be written comes back as it was. */
  lemma ParseInvertsWrite(q: Query)
    requires WritableQuery(q)
    ensures AllWritable(PartsOf(q)) && Meaning(Write(PartsOf(q))) == q
  {
    PartsWritable(q);
    WrittenCollected(PartsOf(q));
    PartsTaken(q);
    OpsBack(q.filters);
    hide Taken, Write, PartsOf, WritableFilter, WithOps, Plain, OpsOf, OpParts, Collect, Params, AllWritable;
  }

  // ---- one part at the end ----------------------------------------------------------------------

  /** A query string that goes on with one part more. */
  function With(s: string, name: string, text: string): string
    requires Writable(Written(name, text))
  {
    Joined(s, WriteOne(Written(name, text)))
  }

  lemma LastTaken(s: string, w: Written)
    requires Writable(w) && s != "" && s[|s| - 1] != '&'
    ensures var st := Take(Collect(Params(s)), w.name, w.text);
            Meaning(Joined(s, WriteOne(w))) == st.query.(filters := WithOps(st.query.filters, st.ops))
  {
    hide Take, WriteOne, Params, Collect, WithOps;
    CollectLast(s, w);
  }

  /** The last page and the last page size decide, and leave the rest as it is. */
  lemma LastNumberDecides(s: string, n: nat)
    requires s != "" && s[|s| - 1] != '&' && n < 0x1_0000_0000
    ensures Meaning(Joined(s, "page" + "=" + Digits(n))) == Meaning(s).(page := n)
    ensures Meaning(Joined(s, "per_page" + "=" + Digits(n))) == Meaning(s).(perPage := n)
  {
    DigitsWritable(n, "page");
    DigitsWritable(n, "per_page");
    hide Take, Digits, Params, Collect, WithOps, Encode, Joined;
    LastTaken(s, Written("page", Digits(n)));
    LastTaken(s, Written("per_page", Digits(n)));
    NumberTaken(Collect(Params(s)), n);
  }

  /** So does the last search text. */
  lemma LastTextDecides(s: string, t: string)
    requires s != "" && s[|s| - 1] != '&' && ByteText(t)
    ensures Writable(Written("q", t)) && Meaning(With(s, "q", t)) == Meaning(s).(q := Some(t))
  {
    hide Take, Params, Collect, WithOps, WriteOne, Joined, ByteText;
    LastTaken(s, Written("q", t));
    PlainTaken(Collect(Params(s)), t);
  }

  /** And the last sort field with an order, which is ascending unless it is "desc". */
  lemma LastSortDecides(s: string, t: string, order: string)
    requires s != "" && s[|s| - 1] != '&' && ByteText(t) && ByteText(order) && ':' !in t
    ensures Writable(Written("sort", t + ":" + order))
    ensures Meaning(With(s, "sort", t + ":" + order)) == Meaning(s).(sort := Some(t), asc := order != "desc")
  {
    hide Take, Params, Collect, WithOps, WriteOne, Joined, ByteText;
    BytesJoin(t, order);
    LastTaken(s, Written("sort", t + ":" + order));
    SortTaken(Collect(Params(s)), t, order);
  }

  /** A sort field without an order keeps the order there was, as the code leaves it. */
  lemma LastSortKeepsOrder(s: string, t: string)
    requires s != "" && s[|s| - 1] != '&' && ByteText(t) && ':' !in t
    ensures Writable(Written("sort", t)) && Meaning(With(s, "sort", t)) == Meaning(s).(sort := Some(t))
  {
    assert Take(Collect(Params(s)), "sort", t)
           == Collect(Params(s)).(query := Collect(Params(s)).query.(sort := Some(t))) by {
      assert IndexOf(t, ':') == |t|;
      hide IndexOf, Collect, Params;
    }
    hide Take, Params, Collect, WithOps, WriteOne, Joined, ByteText;
    LastTaken(s, Written("sort", t));
  }

  /** An include list at the end adds its items. */
  lemma LastIncludeAdds(s: string, items: seq<string>)
    requires s != "" && s[|s| - 1] != '&' && (forall t :: t in items ==> ByteText(t)) && items != []
    ensures AllWritable(IncludePart(items))
    ensures Meaning(Joined(s, WriteOne(IncludePart(items)[0]))) == Meaning(s).(includes := Meaning(s).includes + items)
  {
    IncludeWritable(items);
    hide Take, Params, Collect, WithOps, WriteOne, Joined, ByteText, Commaed, Encoded, Writable;
    LastTaken(s, IncludePart(items)[0]);
    IncludeTaken(Collect(Params(s)), items);
  }

  /** A filter at the end is added, with the operator that its field has; one without a text is not. */
  lemma LastFilterAdds(s: string, f: string, v: string)
    requires s != "" && s[|s| - 1] != '&' && FieldName(f) && ByteText(v)
    ensures Writable(Written(f, v)) && (v == "" ==> Meaning(With(s, f, v)) == Meaning(s))
    ensures v != "" ==>
              var before, after := Meaning(s), Meaning(With(s, f, v));
              && |after.filters| == |before.filters| + 1 && after == before.(filters := after.filters)
              && after.filters[..|before.filters|] == before.filters
              && var last := after.filters[|before.filters|];
                 && last.field == f && last.value == v
                 && forall g :: g in before.filters && g.field == f ==> g.op == last.op
  {
    hide Params, Collect, WriteOne, Joined, ByteText, IsOp, IndexOf, Split, IncludeList, PageNumber, OpFor;
    LastTaken(s, Written(f, v));
    if v != "" {
      FieldTaken(Collect(Params(s)), f, v);
    }
  }

  /** Three names are passed over. */
  lemma PassedOver(s: string, name: string, v: string)
    requires s != "" && s[|s| - 1] != '&' && name in ["custom", "mode", "search_mode"] && ByteText(v)
    ensures Writable(Written(name, v)) && Meaning(With(s, name, v)) == Meaning(s)
  {
    hide Take, Params, Collect, WithOps, WriteOne, Joined, ByteText;
    LastTaken(s, Written(name, v));
    PlainTaken(Collect(Params(s)), v);
  }

  lemma NameIsField()
    ensures FieldName("name") && ByteText("x") && Encode("x") == "x"
  {
    assert "x"[1..] == "" && Encode("") == "";
  }

  lemma NamedX()
    ensures Meaning("name=x") == EMPTY_QUERY.(filters := [Filter("name", "x", None)])
  {
    NameIsField();
    hide *;
    var fs := [Filter("name", "x", None)];
    FormatHead(fs);
    ParseInvertsFormat(fs);
    assert "name" + "=" + "x" + "" == "name=x";
  }

  lemma ExampleText()
    ensures Joined("name=x", "page" + "=" + Digits(2)) == "name=x&page=2"
    ensures Joined("name=x&page=2", "per_page" + "=" + Digits(10)) == "name=x&page=2&per_page=10"
  {
    assert Digits(2) == "2" && Digits(10) == "10";
    hide Digits;
  }

  lemma PagedExample()
    ensures Meaning("name=x&page=2&per_page=10") == Query(None, true, 2, 10, None, [Filter("name", "x", None)], [])
  {
    hide Meaning, Joined, Digits;
    NamedX();
    ExampleText();
    LastNumberDecides("name=x", 2);
    LastNumberDecides("name=x&page=2", 10);
  }

  // ---- what the parser returns can be written --------------------------------------------------

  lemma {:induction false} DecodedBytes(s: string)
    requires forall c :: c in s ==> IsByte(c)
    ensures forall c :: c in Decode(s) ==> IsByte(c)
    decreases |s|
  {
    hide Strtol, ToByte, IsByte;
    if s != "" {
      var k := if s[0] == '%' && |s| >= 3 then 3 else 1;
      assert forall c :: c in s[k..] ==> c in s;
      DecodedBytes(s[k..]);
      FirstByte(s);
    }
  }

  lemma FirstByte(s: string)
    requires s != "" && forall c :: c in s ==> IsByte(c)
    ensures IsByte(Plain(s[0])) && (|s| >= 3 ==> IsByte(ToByte(Strtol(s[1], s[2]))))
  {
    assert s[0] in s;
    hide Strtol;
  }

  lemma DecodedText(s: string)
    requires forall c :: c in s ==> IsByte(c)
    ensures ByteText(Decoded1(s))
  {
    DecodedBytes(s);
    hide Decode, IsByte;
    var d := Decode(s);
    assert forall i :: 0 <= i < |Cut(d)| ==> Cut(d)[i] == d[i] && d[i] in d;
  }

  /** Which names are those of fields, and which of operators. */
  lemma NamesAre(name: string)
    ensures IsOp(name) <==> exists f :: f != "" && name == f + "_op"
    ensures FieldName(name) <==>
              && '&' !in name && '=' !in name && NUL !in name
              && name !in ["sort", "page", "per_page", "q", "include", "custom", "mode", "search_mode"]
              && forall f :: f != "" ==> name != f + "_op"
  {
    if IsOp(name) {
      assert name == name[..|name| - 3] + "_op";
    }
    if f :| f != "" && name == f + "_op" {
      assert name[|f|..] == "_op";
    }
    assert NulFree(name) <==> NUL !in name;
  }

  predicate Bytes(s: string) {
    forall c :: c in s ==> IsByte(c)
  }

  /** A parameter cut out of a C string of bytes. */
  predicate ByteParam(p: Param) {
    && '&' !in p.name && '=' !in p.name && NulFree(p.name) && (p.value.Some? ==> Bytes(p.value.value))
  }

  lemma SliceBytes(s: string, i: nat, j: nat)
    requires Bytes(s) && NulFree(s) && i <= j <= |s|
    ensures Bytes(s[i..j]) && NulFree(s[i..j])
  {
    var t := s[i..j];
    assert forall k :: 0 <= k < |t| ==> t[k] == s[i + k] && t[k] in s;
  }

  lemma NotBefore(s: string, c: char)
    ensures c !in s[..IndexOf(s, c)]
  {
    hide IndexFrom;
  }

  lemma StaysOut(s: string, i: nat, c: char)
    requires c !in s && i <= |s|
    ensures c !in s[..i]
  {
  }

  lemma PieceParam(s: string)
    requires Bytes(s) && NulFree(s)
    ensures ByteParam(ParamOf(Part(s))) && Bytes(AfterPart(s)) && NulFree(AfterPart(s))
  {
    var part, amp := Part(s), IndexOf(s, '&');
    var eq := IndexOf(part, '=');
    SliceBytes(s, 0, amp);
    SliceBytes(s, |s|, |s|);
    if amp < |s| {
      SliceBytes(s, amp + 1, |s|);
    }
    SliceBytes(part, 0, eq);
    if eq < |part| {
      SliceBytes(part, eq + 1, |part|);
    }
    NotBefore(s, '&');
    NotBefore(part, '=');
    StaysOut(part, eq, '&');
    hide IndexOf, Bytes, NulFree;
    assert s[0..amp] == s[..amp] && part[0..eq] == part[..eq] && part[..|part|] == part;
    assert s[|s|..|s|] == "" && s[amp + if amp < |s| then 1 else 0..|s|] == s[amp + if amp < |s| then 1 else 0..];
    assert eq < |part| ==> part[eq + 1..|part|] == part[eq + 1..];
  }

  lemma {:induction false} ParamsBytes(s: string)
    requires Bytes(s) && NulFree(s)
    ensures forall p :: p in Params(s) ==> ByteParam(p)
    decreases |s|
  {
    hide ByteParam, ParamOf, Part, AfterPart, Bytes, NulFree;
    if s != "" {
      PieceParam(s);
      ParamsBytes(AfterPart(s));
    }
  }

  /** What a parse holds can be written; its operators are still apart. */
  ghost predicate Writing(st: Parse) {
    && WritableScalars(st.query) && |st.ops| <= MAX_OPS
    && (forall f :: f in st.query.filters ==> WritableFilter(f) && f.op == None)
    && (forall o :: o in st.ops ==> 0 < |o.field| < 64 && o.op in ["and", "or"])
  }

  lemma TakenValue(p: Param)
    requires ByteParam(p) && p.value.Some?
    ensures ByteText(Decoded1(p.value.value))
  {
    hide NulFree;
    DecodedText(p.value.value);
  }

  lemma {:induction false} IncludesBytes(pieces: seq<string>)
    requires forall p :: p in pieces ==> Bytes(p)
    ensures forall t :: t in IncludeList(pieces) ==> ByteText(t)
  {
    if pieces != [] {
      assert pieces[0] in pieces && forall p :: p in pieces[1..] ==> p in pieces;
      DecodedText(pieces[0]);
      IncludesBytes(pieces[1..]);
      hide ByteText, Decoded1, Bytes;
    }
  }

  lemma {:induction false} SplitBytes(s: string, c: char)
    requires Bytes(s)
    ensures forall p :: p in Split(s, c) ==> Bytes(p)
    decreases |s|
  {
    var i := IndexOf(s, c);
    assert forall k :: 0 <= k < i ==> s[..i][k] == s[k] && s[k] in s;
    if i < |s| {
      var rest := s[i + 1..];
      assert forall k :: 0 <= k < |rest| ==> rest[k] == s[i + 1 + k] && rest[k] in s;
      SplitBytes(rest, c);
    }
  }

  lemma PrefixText(v: string, k: nat)
    requires ByteText(v) && k <= |v|
    ensures ByteText(v[..k])
  {
    assert forall i :: 0 <= i < k ==> v[..k][i] == v[i] && v[i] in v;
  }

  lemma OpWrites(st: Parse, name: string, v: string)
    requires Writing(st) && IsOp(name)
    ensures Writing(Take(st, name, v))
  {
    hide WritableScalars, WritableFilter;
  }

  lemma SortWrites(st: Parse, v: string)
    requires Writing(st) && ByteText(v)
    ensures Writing(Take(st, "sort", v))
  {
    hide WritableFilter, ByteText;
    PrefixText(v, IndexOf(v, ':'));
    assert ':' !in v[..IndexOf(v, ':')];
    assert v[..|v|] == v;
  }

  lemma IncludeWrites(st: Parse, v: string)
    requires Writing(st) && ByteText(v)
    ensures Writing(Take(st, "include", v))
  {
    SplitBytes(v, ',');
    IncludesBytes(Split(v, ','));
    hide WritableFilter, ByteText, Split, IncludeList, IndexOf;
  }

  lemma NumberFits(v: string)
    ensures PageNumber(v) < 0x1_0000_0000
  {
    hide Atol;
  }

  lemma ScalarWrites(st: Parse, name: string, v: string)
    requires Writing(st) && ByteText(v) && name in ["page", "per_page", "q", "custom", "mode", "search_mode"]
    ensures Writing(Take(st, name, v))
  {
    NumberFits(v);
    ScalarTake(st, name, v);
    hide WritableFilter, ByteText, PageNumber, Take;
  }

  lemma ScalarTake(st: Parse, name: string, v: string)
    requires name in ["page", "per_page", "q", "custom", "mode", "search_mode"]
    ensures var q := st.query;
            Take(st, name, v) == st.(query := if name == "page" then q.(page := PageNumber(v))
                                              else if name == "per_page" then q.(perPage := PageNumber(v))
                                              else if name == "q" then q.(q := Some(v)) else q)
  {
    hide PageNumber, Split, IncludeList, IndexOf;
  }

  lemma FilterWrites(st: Parse, name: string, v: string)
    requires Writing(st) && ByteText(v) && FieldName(name)
    ensures Writing(Take(st, name, v))
  {
    if v != "" {
      FieldTaken(st, name, v);
      assert WritableFilter(Filter(name, v, None));
    }
    hide ByteText, Split, IncludeList, IndexOf, PageNumber, IsOp, WritableScalars, WritableFilter;
  }

  /** Each parameter keeps what is parsed writable. */
  lemma TakeWrites(st: Parse, p: Param)
    requires Writing(st) && ByteParam(p) && p.value.Some?
    ensures Writing(Take(st, p.name, Decoded1(p.value.value)))
  {
    hide Writing, IsOp, Take, Decoded1, ByteText;
    var name, v := p.name, Decoded1(p.value.value);
    TakenValue(p);
    if IsOp(name) {
      OpWrites(st, name, v);
    } else if name == "sort" {
      SortWrites(st, v);
    } else if name == "include" {
      IncludeWrites(st, v);
    } else if Reserved(name) {
      ScalarWrites(st, name, v);
    } else {
      FilterWrites(st, name, v);
    }
  }

  lemma {:induction false} CollectWrites(ps: seq<Param>)
    requires forall p :: p in ps ==> ByteParam(p)
    ensures Writing(Collect(ps))
  {
    if ps != [] {
      var front, p := ps[..|ps| - 1], ps[|ps| - 1];
      CollectWrites(front);
      if p.value.Some? {
        TakeWrites(Collect(front), p);
      }
      hide Writing, Take, Decoded1, ByteParam;
    }
  }

  /** Each operator written stems from an override, and each is written once. */
  lemma {:induction false} OpPartsDiffer(fs: seq<Filter>)
    ensures forall i, j :: 0 <= i < j < |OpParts(fs)| ==> OpParts(fs)[i] != OpParts(fs)[j]
    ensures forall w :: w in OpParts(fs) ==>
              exists f :: f in fs && f.op.Some? && w == Written(f.field + "_op", f.op.value)
  {
    if fs != [] {
      OpPartsDiffer(fs[..|fs| - 1]);
      assert fs[|fs| - 1] in fs && forall f :: f in fs[..|fs| - 1] ==> f in fs;
    }
  }

  lemma {:induction false} NoMoreThan(ws: seq<Written>, ops: seq<Override>)
    requires forall i, j :: 0 <= i < j < |ws| ==> ws[i] != ws[j]
    requires forall w :: w in ws ==> exists o :: o in ops && w == Written(o.field + "_op", o.op)
    ensures |ws| <= |ops|
  {
    if ws != [] {
      var w := ws[0];
      assert w in ws;
      var k :| 0 <= k < |ops| && w == Written(ops[k].field + "_op", ops[k].op);
      var rest := ops[..k] + ops[k + 1..];
      forall x | x in ws[1..] ensures exists o :: o in rest && x == Written(o.field + "_op", o.op) {
        assert x in ws && x != w;
        var o :| o in ops && x == Written(o.field + "_op", o.op);
        assert o != ops[k];
      }
      NoMoreThan(ws[1..], rest);
    }
  }

  lemma {:induction false} FoundOp(ops: seq<Override>, field: string)
    ensures OpFor(ops, field).Some? ==> exists o :: o in ops && o.field == field && OpFor(ops, field) == Some(o.op)
  {
    if ops != [] {
      FoundOp(ops[..|ops| - 1], field);
      assert ops[|ops| - 1] in ops && forall o :: o in ops[..|ops| - 1] ==> o in ops;
    }
  }

  lemma MeaningOps(st: Parse)
    requires Writing(st)
    ensures var fs := WithOps(st.query.filters, st.ops);
            && (forall i :: 0 <= i < |fs| ==> WritableFilter(fs[i]))
            && |OpParts(fs)| <= MAX_OPS
  {
    var fs := WithOps(st.query.filters, st.ops);
    forall i | 0 <= i < |fs|
      ensures WritableFilter(fs[i])
      ensures fs[i].op.Some? ==> exists o :: o in st.ops && fs[i].field == o.field && fs[i].op.value == o.op
    {
      FoundOp(st.ops, fs[i].field);
      assert WritableFilter(st.query.filters[i]);
    }
    OpPartsDiffer(fs);
    hide WritableFilter, OpParts;
    NoMoreThan(OpParts(fs), st.ops);
  }

  /** Whatever the parser returns for a string of bytes can be written, and parses back to itself. */
  lemma MeaningWritable(s: string)
    requires Bytes(s) && NulFree(s)
    ensures var q := Meaning(s);
            WritableQuery(q) && AllWritable(PartsOf(q)) && Meaning(Write(PartsOf(q))) == q
  {
    ParamsBytes(s);
    CollectWrites(Params(s));
    MeaningOps(Collect(Params(s)));
    hide Params, Collect, WritableFilter, OpParts, AllWritable, PartsOf, Write;
    assert WritableQuery(Meaning(s));
    hide Meaning;
    ParseInvertsWrite(Meaning(s));
  }
}
