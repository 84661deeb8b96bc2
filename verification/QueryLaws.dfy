/** Laws of the query-string meaning: overrides, formatting, and the include list. */
module QueryLaws {
  import opened Text
  import opened Wrappers
  import opened Decoders
  import opened QueryParser

  // ---- operator overrides -------------------------------------------------------

  predicate Reserved(name: string) {
    name in ["sort", "page", "per_page", "q", "custom", "mode", "search_mode", "include"]
  }

  /** The filters of a parameter list, in order and before overrides. */
  function FiltersOf(ps: seq<Param>): seq<Filter> {
    if ps == [] then []
    else
      var before, p := FiltersOf(ps[..|ps| - 1]), ps[|ps| - 1];
      if p.value.Some? && !IsOp(p.name) && !Reserved(p.name) && Decoded1(p.value.value) != ""
      then before + [Filter(p.name, Decoded1(p.value.value), None)] else before
  }

  /** Its valid overrides, in order. */
  function OverridesOf(ps: seq<Param>): seq<Override> {
    if ps == [] then []
    else
      var before, p := OverridesOf(ps[..|ps| - 1]), ps[|ps| - 1];
      if p.value.Some? && IsOp(p.name) && Decoded1(p.value.value) in ["and", "or"]
      then before + [Override(p.name[..Min(|p.name| - 3, 63)], Decoded1(p.value.value))] else before
  }

  lemma {:induction false} CollectSplits(ps: seq<Param>)
    ensures Collect(ps).query.filters == FiltersOf(ps)
    ensures Collect(ps).ops == OverridesOf(ps)[..Min(|OverridesOf(ps)|, MAX_OPS)]
  {
    if ps != [] {
      var before, p := ps[..|ps| - 1], ps[|ps| - 1];
      CollectSplits(before);
      if p.value.Some? {
        TakeSplits(Collect(before), p.name, Decoded1(p.value.value));
      }
      hide Decoded1, Take, IsOp, Reserved;
    }
  }

  lemma TakeSplits(st: Parse, name: string, v: string)
    ensures var r := Take(st, name, v);
            && r.query.filters == (if !IsOp(name) && !Reserved(name) && v != ""
                                   then st.query.filters + [Filter(name, v, None)] else st.query.filters)
            && r.ops == (if IsOp(name) && v in ["and", "or"] && |st.ops| < MAX_OPS
                         then st.ops + [Override(name[..Min(|name| - 3, 63)], v)] else st.ops)
  {
    hide PageNumber, IncludeList, IndexOf, IsOp, Split;
  }

  /** The filters and their operators depend only on the filter parameters and the override
      parameters, each in order, and not on how the two are interleaved. */
  lemma OverridesIndependent(s: string, t: string)
    requires FiltersOf(Params(s)) == FiltersOf(Params(t)) && OverridesOf(Params(s)) == OverridesOf(Params(t))
    ensures Meaning(s).filters == Meaning(t).filters
  {
    CollectSplits(Params(s));
    CollectSplits(Params(t));
  }

  /** The last of the first 64 overrides naming a field decides it, for all its filters. */
  lemma {:induction false} LastOverrideWins(ops: seq<Override>, field: string)
    ensures OpFor(ops, field) == None <==> forall o :: o in ops ==> o.field != field
    ensures forall i :: 0 <= i < |ops| && ops[i].field == field
                        && (forall j :: i < j < |ops| ==> ops[j].field != field)
                        ==> OpFor(ops, field) == Some(ops[i].op)
  {
    if ops != [] {
      LastOverrideWins(ops[..|ops| - 1], field);
      assert ops == ops[..|ops| - 1] + [ops[|ops| - 1]];
    }
  }

  /** All filters of one field carry the same operator. */
  lemma SameFieldSameOp(s: string, i: nat, j: nat)
    requires i < |Meaning(s).filters| && j < |Meaning(s).filters|
    requires Meaning(s).filters[i].field == Meaning(s).filters[j].field
    ensures Meaning(s).filters[i].op == Meaning(s).filters[j].op
  {
  }

  // ---- formatting and parsing back ------------------------------------------------

  /** A name that can be written as it is and names a field. */
  predicate FieldName(name: string) {
    '&' !in name && '=' !in name && NulFree(name) && !IsOp(name) && !Reserved(name)
  }

  predicate ByteText(t: string) {
    NulFree(t) && forall c :: c in t ==> IsByte(c)
  }

  /** `name=value&...` with percent-encoded values. */
  function Format(fs: seq<Filter>): string
    requires forall f :: f in fs ==> ByteText(f.value)
  {
    if fs == [] then ""
    else
      assert fs[0] in fs && ByteText(fs[0].value);
      fs[0].field + "=" + Encode(fs[0].value) + (if |fs| == 1 then "" else "&" + Format(fs[1..]))
  }

  lemma {:induction false} EncodedChars(t: string)
    requires forall c :: c in t ==> IsByte(c)
    ensures forall i :: 0 <= i < |Encode(t)| ==> Encode(t)[i] !in ['&', '=', ',', NUL] && IsByte(Encode(t)[i])
  {
    if t != "" {
      assert t[0] in t && forall c :: c in t[1..] ==> c in t;
      EncodedChars(t[1..]);
      var v := t[0] as int;
      assert IsByte(t[0]);
      HexCharPlain(v / 16);
      HexCharPlain(v % 16);
    }
  }

  lemma HexCharPlain(v: nat)
    requires v < 16
    ensures HexChar(v) !in ['&', '=', ',', NUL] && IsByte(HexChar(v))
  {
  }

  lemma CutNulFree(s: string)
    requires NulFree(s)
    ensures Cut(s) == s
  {
  }

  /** The first parameter of `name=value&rest`. */
  lemma FirstParam(name: string, value: string, rest: string, more: bool)
    requires '&' !in name && '=' !in name && (forall i :: 0 <= i < |value| ==> value[i] !in ['&', '=', NUL])
    requires rest == "" || more
    ensures var s := name + "=" + value + if more then "&" + rest else "";
            && s != "" && Part(s) == name + "=" + value && AfterPart(s) == rest
            && ParamOf(name + "=" + value) == Param(name, Some(value))
  {
    var part := name + "=" + value;
    var s := part + if more then "&" + rest else "";
    assert forall i :: 0 <= i < |name| ==> name[i] in name;
    assert forall i :: 0 <= i < |part| ==> part[i] != '&';
    assert forall i :: 0 <= i < |part| ==> s[i] == part[i];
    assert if more then s[|part|] == '&' else |s| == |part|;
    assert IndexOf(s, '&') == |part|;
    assert s[..|part|] == part;
    assert part[|name|] == '=' && forall i :: 0 <= i < |name| ==> part[i] == name[i];
    assert IndexOf(part, '=') == |name|;
    assert part[..|name|] == name && part[|name| + 1..] == value;
    if more {
      assert s[|part| + 1..] == rest;
    }
  }

  /** Parsing inverts formatting: any list of filters on fields comes back as it was, with no
      operator and nothing else set. */
  lemma ParseInvertsFormat(fs: seq<Filter>)
    requires forall f :: f in fs ==> FieldName(f.field) && ByteText(f.value) && f.value != "" && f.op == None
    ensures Meaning(Format(fs)) == EMPTY_QUERY.(filters := fs)
  {
    FormattedParams(fs);
    CollectFormatted(fs, |fs|);
    assert RawParams(fs)[..|fs|] == RawParams(fs) && fs[..|fs|] == fs;
  }

  function RawParams(fs: seq<Filter>): (ps: seq<Param>)
    requires forall f :: f in fs ==> ByteText(f.value)
    ensures |ps| == |fs|
  {
    seq(|fs|, i requires 0 <= i < |fs| =>
      assert fs[i] in fs && ByteText(fs[i].value);
      Param(fs[i].field, Some(Encode(fs[i].value))))
  }

  lemma TailNamed(fs: seq<Filter>)
    requires fs != [] && forall f :: f in fs ==> FieldName(f.field) && ByteText(f.value)
    ensures FieldName(fs[0].field) && ByteText(fs[0].value)
    ensures forall g :: g in fs[1..] ==> FieldName(g.field) && ByteText(g.value)
    ensures |fs| == 1 ==> fs[1..] == []
  {
    assert fs[0] in fs && forall g :: g in fs[1..] ==> g in fs;
    hide FieldName, ByteText;
  }

  lemma FormatHead(fs: seq<Filter>)
    requires fs != [] && ByteText(fs[0].value) && forall f :: f in fs ==> ByteText(f.value)
    requires forall g :: g in fs[1..] ==> ByteText(g.value)
    ensures Format(fs) == fs[0].field + "=" + Encode(fs[0].value) + if |fs| > 1 then "&" + Format(fs[1..]) else ""
    ensures |fs| == 1 ==> Format(fs[1..]) == ""
  {
    hide ByteText, Encode;
  }

  lemma RawHead(fs: seq<Filter>)
    requires fs != [] && ByteText(fs[0].value) && forall f :: f in fs ==> ByteText(f.value)
    requires forall g :: g in fs[1..] ==> ByteText(g.value)
    ensures RawParams(fs) == [Param(fs[0].field, Some(Encode(fs[0].value)))] + RawParams(fs[1..])
  {
    hide ByteText, Encode;
  }

  lemma ParamsHead(s: string)
    requires s != ""
    ensures Params(s) == [ParamOf(Part(s))] + Params(AfterPart(s))
  {
  }

  lemma NameParts(f: Filter)
    requires FieldName(f.field) && ByteText(f.value)
    ensures '&' !in f.field && '=' !in f.field && forall c :: c in f.value ==> IsByte(c)
  {
  }

  lemma {:induction false} FormattedParams(fs: seq<Filter>)
    requires forall f :: f in fs ==> FieldName(f.field) && ByteText(f.value)
    ensures Params(Format(fs)) == RawParams(fs)
  {
    if fs != [] {
      hide *;
      TailNamed(fs);
      FormatHead(fs);
      RawHead(fs);
      FormattedParams(fs[1..]);
      NameParts(fs[0]);
      EncodedChars(fs[0].value);
      var tail := if |fs| == 1 then "" else Format(fs[1..]);
      FirstParam(fs[0].field, Encode(fs[0].value), tail, |fs| > 1);
      ParamsHead(Format(fs));
    }
  }

  lemma FilterTaken(st: Parse, f: Filter)
    requires FieldName(f.field) && ByteText(f.value) && f.value != "" && f.op == None
    ensures TakeParam(st, Param(f.field, Some(Encode(f.value))))
            == st.(query := st.query.(filters := st.query.filters + [f]))
  {
    DecodeInvertsEncode(f.value);
    CutNulFree(f.value);
    hide Encode, Decode, Cut, PageNumber, IncludeList, IndexOf, IsOp, Split;
    assert Decoded1(Encode(f.value)) == f.value;
  }

  lemma CollectSnoc(ps: seq<Param>, n: nat)
    requires n < |ps|
    ensures Collect(ps[..n + 1]) == TakeParam(Collect(ps[..n]), ps[n])
    ensures Collect([]) == Parse(EMPTY_QUERY, [])
  {
    assert ps[..n + 1][..n] == ps[..n];
    hide Take, Decoded1;
  }

  lemma RawAt(fs: seq<Filter>, n: nat)
    requires n < |fs|
    requires forall f :: f in fs ==> FieldName(f.field) && ByteText(f.value) && f.value != "" && f.op == None
    ensures forall c :: c in fs[n].value ==> IsByte(c)
    ensures FieldName(fs[n].field) && ByteText(fs[n].value) && fs[n].value != "" && fs[n].op == None
    ensures (forall f :: f in fs ==> ByteText(f.value))
            && RawParams(fs)[n] == Param(fs[n].field, Some(Encode(fs[n].value)))
  {
    assert fs[n] in fs;
  }

  lemma {:induction false} CollectFormatted(fs: seq<Filter>, n: nat)
    requires n <= |fs|
    requires forall f :: f in fs ==> FieldName(f.field) && ByteText(f.value) && f.value != "" && f.op == None
    ensures Collect(RawParams(fs)[..n]) == Parse(EMPTY_QUERY.(filters := fs[..n]), [])
  {
    hide *;
    if n > 0 {
      CollectFormatted(fs, n - 1);
      RawAt(fs, n - 1);
      CollectSnoc(RawParams(fs), n - 1);
      FilterTaken(Collect(RawParams(fs)[..n - 1]), fs[n - 1]);
      assert fs[..n] == fs[..n - 1] + [fs[n - 1]];
    } else {
      NothingCollected(RawParams(fs)[..0], fs[..0]);
    }
  }

  lemma NothingCollected(ps: seq<Param>, fs: seq<Filter>)
    requires ps == [] && fs == []
    ensures Collect(ps) == Parse(EMPTY_QUERY.(filters := fs), [])
  {
  }

  // ---- an override at the end ------------------------------------------------------------

  function Joined(s: string, t: string): string {
    s + "&" + t
  }

  /** Appending after an ampersand appends the parameters. */
  lemma {:induction false} ParamsJoin(s: string, t: string)
    requires s != "" && s[|s| - 1] != '&'
    ensures Params(Joined(s, t)) == Params(s) + Params(t)
    decreases |s|
  {
    JoinParts(s, t);
    hide *;
    var rest := AfterPart(s);
    ParamsHead(s);
    ParamsHead(Joined(s, t));
    if rest == "" {
      NoParams();
      HeadJoin(ParamOf(Part(s)), [], Params(t));
    } else {
      ParamsJoin(rest, t);
      HeadJoin(ParamOf(Part(s)), Params(rest), Params(t));
    }
  }

  lemma HeadJoin(p: Param, a: seq<Param>, b: seq<Param>)
    ensures [p] + (a + b) == ([p] + a) + b && [] + b == b
  {
  }

  lemma NoParams()
    ensures Params("") == []
  {
  }

  lemma JoinIndex(s: string, t: string)
    ensures IndexOf(Joined(s, t), '&') == IndexOf(s, '&') < |Joined(s, t)|
    ensures forall k :: 0 <= k <= |s| ==> Joined(s, t)[..k] == s[..k] && Joined(s, t)[k..] == Joined(s[k..], t)
  {
    var all := Joined(s, t);
    assert forall i :: 0 <= i < |s| ==> all[i] == s[i];
    assert all[|s|] == '&';
  }

  lemma JoinParts(s: string, t: string)
    requires s != "" && s[|s| - 1] != '&'
    ensures Joined(s, t) != "" && Part(Joined(s, t)) == Part(s) && |AfterPart(s)| < |s|
    ensures AfterPart(Joined(s, t)) == if AfterPart(s) == "" then t else Joined(AfterPart(s), t)
    ensures AfterPart(s) != "" ==> AfterPart(s)[|AfterPart(s)| - 1] != '&'
  {
    JoinIndex(s, t);
    var amp, all := IndexOf(s, '&'), Joined(s, t);
    if amp < |s| {
      assert all[amp + 1..] == Joined(s[amp + 1..], t);
      hide Joined;
    } else {
      assert all[|s| + 1..] == t;
      hide Joined;
    }
  }

  /** A query string with one override more. */
  function WithOverride(s: string, f: string, v: string): string {
    Joined(s, f + "_op" + "=" + v)
  }

  /** The name an override is kept under. */
  function OverrideName(f: string): string {
    f[..Min(|f|, 63)]
  }

  predicate Overrides(f: string, v: string) {
    f != "" && '&' !in f && '=' !in f && (v == "and" || v == "or")
  }

  lemma OneParam(name: string, value: string)
    requires '&' !in name && '=' !in name && (forall i :: 0 <= i < |value| ==> value[i] !in ['&', '=', NUL])
    ensures Params(name + "=" + value) == [Param(name, Some(value))]
  {
    FirstParam(name, value, "", false);
    assert name + "=" + value + "" == name + "=" + value;
    ParamsHead(name + "=" + value);
    assert Params("") == [];
  }

  lemma OverrideParam(s: string, f: string, v: string)
    requires s != "" && s[|s| - 1] != '&' && Overrides(f, v)
    ensures Params(WithOverride(s, f, v)) == Params(s) + [Param(f + "_op", Some(v))]
  {
    OverrideChars(f, v);
    hide Params;
    ParamsJoin(s, f + "_op" + "=" + v);
    hide Overrides;
    OneParam(f + "_op", v);
  }

  lemma OverrideChars(f: string, v: string)
    requires Overrides(f, v)
    ensures '&' !in f + "_op" && '=' !in f + "_op" && (forall i :: 0 <= i < |v| ==> v[i] !in ['&', '=', NUL])
  {
  }

  lemma OverrideTaken(ps: seq<Param>, f: string, v: string)
    requires Overrides(f, v)
    ensures var p := Param(f + "_op", Some(v));
            && FiltersOf(ps + [p]) == FiltersOf(ps)
            && OverridesOf(ps + [p]) == OverridesOf(ps) + [Override(OverrideName(f), v)]
  {
    var p := Param(f + "_op", Some(v));
    assert (ps + [p])[..|ps|] == ps;
    assert (f + "_op")[..Min(|f|, 63)] == OverrideName(f);
    DecodeFixesIff(v);
    CutNulFree(v);
    hide Decode, Cut, Reserved;
  }

  lemma MeaningSplits(s: string)
    ensures var ops := OverridesOf(Params(s));
            Meaning(s).filters == WithOps(FiltersOf(Params(s)), ops[..Min(|ops|, MAX_OPS)])
  {
    CollectSplits(Params(s));
    hide Collect, Params, FiltersOf, OverridesOf;
  }

  /** An override at the end decides the filters on the field named by the first 63 bytes of its
      name, if fewer than 64 came before it, and no others. */
  lemma OverrideAtEnd(s: string, f: string, v: string)
    requires s != "" && s[|s| - 1] != '&' && Overrides(f, v)
    ensures var before, after := Meaning(s).filters, Meaning(WithOverride(s, f, v)).filters;
            && |after| == |before|
            && forall i :: 0 <= i < |before| ==>
                 after[i] == if |OverridesOf(Params(s))| < MAX_OPS && before[i].field == OverrideName(f)
                             then before[i].(op := Some(v)) else before[i]
    ensures OverridesOf(Params(WithOverride(s, f, v))) == OverridesOf(Params(s)) + [Override(OverrideName(f), v)]
  {
    hide *;
    OverrideParam(s, f, v);
    OverrideTaken(Params(s), f, v);
    MeaningSplits(s);
    MeaningSplits(WithOverride(s, f, v));
    OverrideMoved(FiltersOf(Params(s)), OverridesOf(Params(s)), Override(OverrideName(f), v));
  }

  lemma OverrideMoved(raw: seq<Filter>, ops: seq<Override>, o: Override)
    ensures var before := WithOps(raw, ops[..Min(|ops|, MAX_OPS)]);
            var after := WithOps(raw, (ops + [o])[..Min(|ops + [o]|, MAX_OPS)]);
            && |after| == |before|
            && forall i :: 0 <= i < |before| ==>
                 after[i] == if |ops| < MAX_OPS && before[i].field == o.field then before[i].(op := Some(o.op))
                             else before[i]
  {
    var few, more := ops[..Min(|ops|, MAX_OPS)], (ops + [o])[..Min(|ops + [o]|, MAX_OPS)];
    hide WithOps;
    forall i | 0 <= i < |raw|
      ensures WithOps(raw, more)[i]
              == if |ops| < MAX_OPS && raw[i].field == o.field then WithOps(raw, few)[i].(op := Some(o.op))
                 else WithOps(raw, few)[i]
    {
      OpForSnoc(ops, o, raw[i].field);
    }
  }

  lemma OpForSnoc(ops: seq<Override>, o: Override, field: string)
    ensures OpFor((ops + [o])[..Min(|ops + [o]|, MAX_OPS)], field)
            == if |ops| < MAX_OPS && o.field == field then Some(o.op) else OpFor(ops[..Min(|ops|, MAX_OPS)], field)
  {
    if |ops| < MAX_OPS {
      assert (ops + [o])[..Min(|ops + [o]|, MAX_OPS)] == ops + [o];
      assert ops[..Min(|ops|, MAX_OPS)] == ops && (ops + [o])[..|ops|] == ops;
    } else {
      assert (ops + [o])[..MAX_OPS] == ops[..MAX_OPS];
    }
  }

  /** After such a query an override may follow. */
  predicate Open(s: string) {
    s != "" && s[|s| - 1] != '&' && |OverridesOf(Params(s))| < MAX_OPS
  }

  /** So an override reaches the field it names, whatever the query before it, exactly when the
      name is shorter than 64 bytes. */
  lemma OverrideReachesIff(f: string)
    requires FieldName(f) && f != ""
    ensures (forall s, i :: Open(s) && 0 <= i < |Meaning(s).filters| && Meaning(s).filters[i].field == f ==>
               i < |Meaning(WithOverride(s, f, "and")).filters|
               && Meaning(WithOverride(s, f, "and")).filters[i].op == Some("and"))
            <==> |f| < 64
  {
    hide Meaning, Params, OverridesOf, WithOverride, FieldName;
    assert Overrides(f, "and") by { NameOverrides(f); }
    if |f| < 64 {
      forall s, i | Open(s) && 0 <= i < |Meaning(s).filters| && Meaning(s).filters[i].field == f
        ensures i < |Meaning(WithOverride(s, f, "and")).filters|
        ensures Meaning(WithOverride(s, f, "and")).filters[i].op == Some("and")
      {
        OverrideAtEnd(s, f, "and");
      }
    } else {
      var s := OneFilter(f);
      OverrideAtEnd(s, f, "and");
      assert Open(s) && Meaning(s).filters[0].field == f;
    }
  }

  lemma NameOverrides(f: string)
    requires FieldName(f) && f != ""
    ensures Overrides(f, "and")
  {
    hide IsOp, Reserved;
  }

  /** A query with one filter on a field. */
  lemma OneFilter(f: string) returns (s: string)
    requires FieldName(f)
    ensures s == f + "=x" && s != "" && s[|s| - 1] != '&'
    ensures Meaning(s).filters == [Filter(f, "x", None)] && OverridesOf(Params(s)) == []
  {
    s := f + "=" + "x";
    OneParam(f, "x") by { NameChars(f); }
    MeaningSplits(s);
    OneTaken(f);
    hide Meaning, Params, FieldName;
  }

  lemma NameChars(f: string)
    requires FieldName(f)
    ensures '&' !in f && '=' !in f
  {
    hide IsOp, Reserved;
  }

  lemma OneTaken(f: string)
    requires FieldName(f)
    ensures var ps := [Param(f, Some("x"))]; FiltersOf(ps) == [Filter(f, "x", None)] && OverridesOf(ps) == []
  {
    var ps := [Param(f, Some("x"))];
    assert ps[..0] == [];
    DecodeFixesIff("x");
    CutNulFree("x");
    hide Decode, Cut;
  }

  /** A name of 64 bytes gives its override to the name of 63 that it starts with. */
  lemma LongNameMisses(f: string)
    requires |f| >= 64 && FieldName(f) && FieldName(f[..63])
    ensures Meaning(WithOverride(f[..63] + "=x", f, "and")).filters == [Filter(f[..63], "x", Some("and"))]
  {
    var s := OneFilter(f[..63]);
    assert Overrides(f, "and") by { NameOverrides(f); }
    hide Meaning, Params, OverridesOf, FieldName, WithOverride;
    OverrideAtEnd(s, f, "and");
    assert Meaning(s).filters[0] == Filter(f[..63], "x", None);
  }

  /** A query with n overrides "b_op=or" after its one filter. */
  function Overridden(n: nat): (s: string)
    ensures s != "" && s[|s| - 1] != '&'
  {
    if n == 0 then "b=x" else WithOverride(Overridden(n - 1), "b", "or")
  }

  lemma {:induction false} OverriddenBy(n: nat)
    requires n <= MAX_OPS
    ensures |OverridesOf(Params(Overridden(n)))| == n
    ensures Meaning(Overridden(n)).filters == [Filter("b", "x", if n == 0 then None else Some("or"))]
  {
    hide Meaning, Params, OverridesOf, WithOverride;
    if n == 0 {
      var s := OneFilter("b");
      assert s == "b=x";
    } else {
      OverriddenBy(n - 1);
      OverrideAtEnd(Overridden(n - 1), "b", "or");
    }
  }

  /** The sixty-fifth override is dropped, although it is the last. */
  lemma SixtyFifthIsDropped()
    ensures Meaning(WithOverride(Overridden(64), "b", "and")).filters == [Filter("b", "x", Some("or"))]
  {
    hide Meaning, Params, OverridesOf, Overridden, WithOverride;
    OverriddenBy(64);
    OverrideAtEnd(Overridden(64), "b", "and");
  }

  // ---- the include list ---------------------------------------------------------------

  /** Text a second decode leaves alone. */
  predicate Inert(s: string) {
    forall i :: 0 <= i < |s| ==> s[i] != '+' && (s[i] == '%' ==> i + 2 >= |s|)
  }

  lemma {:induction false} DecodeFixesIff(s: string)
    ensures Decode(s) == s <==> Inert(s)
    ensures |Decode(s)| == |s| <==> forall i :: 0 <= i < |s| && s[i] == '%' ==> i + 2 >= |s|
    decreases |s|
  {
    if s == "" {
    } else if s[0] == '%' && |s| >= 3 {
    } else {
      DecodeFixesIff(s[1..]);
      assert forall i :: 1 <= i < |s| ==> s[i] == s[1..][i - 1];
      assert s == [s[0]] + s[1..];
      assert Decode(s)[1..] == Decode(s[1..]);
    }
  }

  /** List items are decoded twice: the list is the once-decoded text split at commas exactly
      when no item has a plus sign or a complete escape left in it. */
  lemma {:induction false} IncludeOnceIff(pieces: seq<string>)
    requires forall p :: p in pieces ==> NulFree(p)
    ensures IncludeList(pieces) == pieces <==> forall p :: p in pieces ==> Inert(p)
  {
    if pieces != [] {
      var p := pieces[0];
      assert p in pieces && forall q :: q in pieces[1..] ==> q in pieces;
      IncludeOnceIff(pieces[1..]);
      assert forall q :: q in pieces ==> q == p || q in pieces[1..];
      assert IncludeList(pieces)[1..] == IncludeList(pieces[1..]);
      DecodedOnce(p);
    }
  }

  lemma DecodedOnce(p: string)
    requires NulFree(p)
    ensures Decoded1(p) == p <==> Inert(p)
  {
    DecodeFixesIff(p);
    if Decoded1(p) == p {
      assert |Decode(p)| == |p|;
    } else if Inert(p) {
      CutNulFree(p);
    }
  }

  /** A plus sign sent as %2B arrives as a space. */
  lemma IncludeDecodesTwice()
    ensures Decode("%2B") == "+" && IncludeList(["+"]) == [" "]
  {
    assert Decode("%2B") == [ToByte(Strtol('2', 'B'))] + Decode("");
    assert Decode("+") == " ";
    CutNulFree(" ");
  }
}
