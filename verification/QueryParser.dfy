/** The in-place query-string parser: a buffer is cut with NULs and decoded where it lies, and
    the result points into it. */
module QueryParser {
  import opened Text
  import opened Wrappers
  import opened Decoders

  // ---- what a query string means ----------------------------------------------

  datatype Param = Param(name: string, value: Option<string>)

  datatype Filter = Filter(field: string, value: string, op: Option<string>)

  datatype Query = Query(
    sort: Option<string>, asc: bool, page: nat, perPage: nat, q: Option<string>,
    filters: seq<Filter>, includes: seq<string>)

  const EMPTY_QUERY := Query(None, true, 0, 0, None, [], [])

  const MAX_OPS := 64

  /** An operator override: the field it names, cut to 63 bytes, and "and" or "or". */
  datatype Override = Override(field: string, op: string)

  /** A query under construction, and the overrides collected so far. */
  datatype Parse = Parse(query: Query, ops: seq<Override>)

  function ParamOf(piece: string): Param {
    var eq := IndexOf(piece, '=');
    if eq < |piece| then Param(piece[..eq], Some(piece[eq + 1..])) else Param(piece, None)
  }

  /** The part up to the next '&', and what follows it. */
  function Part(s: string): string {
    s[..IndexOf(s, '&')]
  }

  function AfterPart(s: string): (r: string)
    ensures s != "" ==> |r| < |s|
  {
    var amp := IndexOf(s, '&');
    if amp < |s| then s[amp + 1..] else ""
  }

  /** The parameters of a query string; a trailing empty part is not one. */
  function Params(s: string): seq<Param>
    decreases |s|
  {
    if s == "" then [] else [ParamOf(Part(s))] + Params(AfterPart(s))
  }

  const LONG_MAX := 0x7fff_ffff_ffff_ffff

  /** `(uint32_t)atol(s)`. */
  function PageNumber(s: string): nat {
    Atol(s) % 0x1_0000_0000
  }

  function Atol(s: string): int {
    if s != "" && IsSpace(s[0]) then Atol(s[1..])
    else if s != "" && s[0] == '-' then 0 - Min(LeadingNumber(s[1..], 0), LONG_MAX + 1)
    else Min(LeadingNumber(if s != "" && s[0] == '+' then s[1..] else s, 0), LONG_MAX)
  }

  function LeadingNumber(s: string, n: nat): nat {
    if s != "" && IsDigit(s[0]) then LeadingNumber(s[1..], 10 * n + (s[0] as int - '0' as int)) else n
  }

  predicate IsOp(name: string) {
    |name| > 3 && name[|name| - 3..] == "_op"
  }

  function Decoded1(s: string): string {
    Cut(Decode(s))
  }

  function IncludeList(pieces: seq<string>): seq<string> {
    if pieces == [] then [] else [Decoded1(pieces[0])] + IncludeList(pieces[1..])
  }

  /** The effect of one parameter whose decoded value is v. */
  function Take(st: Parse, name: string, v: string): Parse {
    var q := st.query;
    if IsOp(name) then
      if (v == "and" || v == "or") && |st.ops| < MAX_OPS then
        st.(ops := st.ops + [Override(name[..Min(|name| - 3, 63)], v)])
      else st
    else if name == "sort" then
      var colon := IndexOf(v, ':');
      if colon < |v| then st.(query := q.(sort := Some(v[..colon]), asc := v[colon + 1..] != "desc"))
      else st.(query := q.(sort := Some(v)))
    else if name == "page" then st.(query := q.(page := PageNumber(v)))
    else if name == "per_page" then st.(query := q.(perPage := PageNumber(v)))
    else if name == "q" then st.(query := q.(q := Some(v)))
    else if name == "custom" || name == "mode" || name == "search_mode" then st
    else if name == "include" then
      st.(query := q.(includes := q.includes + IncludeList(Split(v, ','))))
    else if v != "" then st.(query := q.(filters := q.filters + [Filter(name, v, None)]))
    else st
  }

  function Collect(ps: seq<Param>): Parse {
    if ps == [] then Parse(EMPTY_QUERY, [])
    else
      var st, p := Collect(ps[..|ps| - 1]), ps[|ps| - 1];
      if p.value.None? then st else Take(st, p.name, Decoded1(p.value.value))
  }

  /** The last override naming the field. */
  function OpFor(ops: seq<Override>, field: string): Option<string> {
    if ops == [] then None
    else if ops[|ops| - 1].field == field then Some(ops[|ops| - 1].op)
    else OpFor(ops[..|ops| - 1], field)
  }

  function WithOps(filters: seq<Filter>, ops: seq<Override>): (r: seq<Filter>)
    ensures |r| == |filters|
    ensures forall i :: 0 <= i < |r| ==> r[i] == filters[i].(op := OpFor(ops, filters[i].field))
  {
    seq(|filters|, i requires 0 <= i < |filters| => filters[i].(op := OpFor(ops, filters[i].field)))
  }

  /** Split, decode, collect, and give every filter the override of its field. */
  function Meaning(s: string): Query {
    var st := Collect(Params(s));
    st.query.(filters := WithOps(st.query.filters, st.ops))
  }

  // ---- the result as pointers into the buffer -------------------------------------

  datatype FilterAt = FilterAt(field: nat, value: nat, op: Option<nat>)

  datatype QueryAt = QueryAt(
    sort: Option<nat>, asc: bool, page: nat, perPage: nat, q: Option<nat>,
    filters: seq<FilterAt>, includes: seq<nat>)

  /** Reading a C string at p gives s, and its NUL lies before lim. */
  ghost predicate Reads(b: string, p: nat, s: string, lim: nat) {
    p + |s| < lim <= |b| && b[p..p + |s|] == s && b[p + |s|] == NUL && NulFree(s)
  }

  ghost predicate ReadsOpt(b: string, p: Option<nat>, s: Option<string>, lim: nat) {
    match (p, s)
    case (None, None) => true
    case (Some(p), Some(s)) => Reads(b, p, s, lim)
    case _ => false
  }

  ghost predicate ReadsFilter(b: string, f: FilterAt, g: Filter, lim: nat) {
    Reads(b, f.field, g.field, lim) && Reads(b, f.value, g.value, lim) && ReadsOpt(b, f.op, g.op, lim)
  }

  /** Reading the result's pointers gives the query. */
  ghost predicate Shows(b: string, at: QueryAt, q: Query, lim: nat) {
    && ReadsOpt(b, at.sort, q.sort, lim) && at.asc == q.asc && at.page == q.page && at.perPage == q.perPage
    && ReadsOpt(b, at.q, q.q, lim)
    && |at.filters| == |q.filters|
    && (forall i :: 0 <= i < |q.filters| ==> ReadsFilter(b, at.filters[i], q.filters[i], lim))
    && |at.includes| == |q.includes|
    && (forall i :: 0 <= i < |q.includes| ==> Reads(b, at.includes[i], q.includes[i], lim))
  }

  /** A pointer reads one string only. */
  lemma ReadsUnique(b: string, p: nat, s: string, t: string, lim: nat)
    requires Reads(b, p, s, lim) && Reads(b, p, t, lim)
    ensures s == t
  {
    assert forall i :: 0 <= i < |s| ==> b[p + i] == s[i];
    assert forall i :: 0 <= i < |t| ==> b[p + i] == t[i];
  }

  /** So the result shows one query only. */
  lemma ShowsUnique(b: string, at: QueryAt, q: Query, r: Query, lim: nat)
    requires Shows(b, at, q, lim) && Shows(b, at, r, lim)
    ensures q == r
  {
    forall p, s, t | Reads(b, p, s, lim) && Reads(b, p, t, lim) ensures s == t {
      ReadsUnique(b, p, s, t, lim);
    }
    hide Reads;
    forall i | 0 <= i < |q.filters| ensures q.filters[i] == r.filters[i] {
      assert ReadsFilter(b, at.filters[i], q.filters[i], lim) && ReadsFilter(b, at.filters[i], r.filters[i], lim);
    }
    forall i | 0 <= i < |q.includes| ensures q.includes[i] == r.includes[i] {
      assert Reads(b, at.includes[i], q.includes[i], lim) && Reads(b, at.includes[i], r.includes[i], lim);
    }
  }

  /** Writes at or past lim do not change what is read before it. */
  lemma ShowsKept(b: string, c: string, at: QueryAt, q: Query, lim: nat, lim': nat)
    requires Shows(b, at, q, lim) && lim <= lim' <= |c| && |c| == |b| && c[..lim] == b[..lim]
    ensures Shows(c, at, q, lim')
  {
    forall p, s | Reads(b, p, s, lim) ensures Reads(c, p, s, lim') {
      ReadsKept(b, c, p, s, lim, lim');
    }
    assert forall i :: 0 <= i < |q.filters| ==> ReadsFilter(b, at.filters[i], q.filters[i], lim);
  }

  lemma ReadsKept(b: string, c: string, p: nat, s: string, lim: nat, lim': nat)
    requires Reads(b, p, s, lim) && lim <= lim' <= |c| && |c| == |b| && c[..lim] == b[..lim]
    ensures Reads(c, p, s, lim')
  {
    assert forall i :: 0 <= i < lim ==> c[i] == c[..lim][i] == b[..lim][i] == b[i];
  }

  // ---- C string helpers ------------------------------------------------------------

  lemma ReadsAt(b: string, p: nat, s: string, lim: nat, k: nat)
    requires Reads(b, p, s, lim) && k <= |s|
    ensures p + k < |b| && b[p + k] == if k < |s| then s[k] else NUL
    ensures k < |s| ==> s[k] != NUL
    ensures Reads(b, p + k, s[k..], lim)
  {
    assert forall i :: 0 <= i < |s| ==> b[p + i] == s[i];
  }

  /** `strchr`. */
  method StrChr(b: array<char>, p: nat, c: char, ghost s: string, ghost lim: nat) returns (r: Option<nat>)
    requires Reads(b[..], p, s, lim) && c != NUL
    ensures r == if IndexOf(s, c) < |s| then Some(p + IndexOf(s, c)) else None
  {
    ghost var k := 0;
    var q := p;
    hide Reads;
    ReadsAt(b[..], p, s, lim, 0);
    while b[q] != NUL
      invariant q == p + k && k <= |s| && q < b.Length && b[q] == if k < |s| then s[k] else NUL
      invariant k <= IndexOf(s, c)
      decreases |s| - k
    {
      ReadsAt(b[..], p, s, lim, k);
      if b[q] == c {
        return Some(q);
      }
      q, k := q + 1, k + 1;
      ReadsAt(b[..], p, s, lim, k);
    }
    ReadsAt(b[..], p, s, lim, k);
    return None;
  }

  /** The text at p, which `strcmp` and `memcpy` read. */
  method ReadStr(b: array<char>, p: nat, ghost s: string, ghost lim: nat) returns (t: string)
    requires Reads(b[..], p, s, lim)
    ensures t == s
  {
    t := "";
    hide Reads;
    ReadsAt(b[..], p, s, lim, 0);
    while b[p + |t|] != NUL
      invariant |t| <= |s| && t == s[..|t|] && p + |t| < b.Length
      invariant b[p + |t|] == if |t| < |s| then s[|t|] else NUL
      decreases |s| - |t|
    {
      ReadsAt(b[..], p, s, lim, |t|);
      t := t + [b[p + |t|]];
      ReadsAt(b[..], p, s, lim, |t|);
    }
    ReadsAt(b[..], p, s, lim, |t|);
  }

  /** Cutting the C string at p after k bytes makes two C strings. */
  lemma CutReads(b: string, p: nat, s: string, lim: nat, k: nat)
    requires Reads(b, p, s, lim) && k < |s|
    ensures p + k < |b|
    ensures var c := b[p + k := NUL]; ReadsCut(c, p, s, k, lim) && Within(b, c, p, p + |s|)
  {
    assert forall i :: 0 <= i < |s| ==> b[p + i] == s[i];
  }

  /** After decoding in place the pointer reads the decoded text, up to its first NUL. */
  lemma DecodedReads(o: string, b: string, p: nat, s: string, lim: nat)
    requires Reads(o, p, s, lim) && Decoded(o, b, p, p + |s|)
    ensures Reads(b, p, Decoded1(s), p + |s| + 1) && Within(o, b, p, p + |s|)
  {
    assert o[p..p + |s|] == s;
    assert forall i :: 0 <= i < p ==> b[i] == b[..p][i] == o[..p][i] == o[i];
    assert forall i :: p + |s| <= i < |o| ==> b[i] == b[p + |s|..][i - p - |s|] == o[p + |s|..][i - p - |s|] == o[i];
    var d := Decode(s);
    assert forall i :: 0 <= i < |d| ==> b[p + i] == d[i];
    var k := IndexOf(d, NUL);
    assert b[p + k] == NUL;
  }

  /** `strchr`, and a NUL over what it found: the C string at p is cut before its first c. */
  method CutAt(b: array<char>, p: nat, c: char, ghost s: string, ghost lim: nat) returns (r: Option<nat>)
    requires Reads(b[..], p, s, lim) && c != NUL
    modifies b
    ensures r == if IndexOf(s, c) < |s| then Some(p + IndexOf(s, c)) else None
    ensures ReadsCut(b[..], p, s, IndexOf(s, c), lim)
    ensures Within(old(b[..]), b[..], p, p + |s|)
  {
    hide *;
    ghost var o, k := b[..], IndexOf(s, c);
    r := StrChr(b, p, c, s, lim);
    if r.Some? {
      CutReads(o, p, s, lim, k);
      Poke(b, r.value, NUL);
    } else {
      NoCut(o, p, s, lim);
    }
  }

  /** The first k bytes at p are a C string, and so is what followed the byte after them. */
  ghost predicate ReadsCut(b: string, p: nat, s: string, k: nat, lim: nat) {
    && k <= |s| && Reads(b, p, s[..k], p + k + 1) && p + |s| < lim <= |b|
    && (k < |s| ==> Reads(b, p + k + 1, s[k + 1..], lim))
  }

  /** Only bytes from p up to, but not at, end may differ. */
  ghost predicate Within(o: string, b: string, p: nat, end: nat) {
    |b| == |o| && forall i :: 0 <= i < |o| && (i < p || i >= end) ==> b[i] == o[i]
  }

  lemma NoCut(b: string, p: nat, s: string, lim: nat)
    requires Reads(b, p, s, lim)
    ensures ReadsCut(b, p, s, |s|, lim) && Within(b, b, p, p + |s|)
  {
    assert s[..|s|] == s;
  }

  lemma ReadsOutside(o: string, b: string, lo: nat, hi: nat, p: nat, s: string, lim: nat)
    requires Within(o, b, lo, hi) && Reads(o, p, s, lim) && (hi <= p || p + |s| < lo)
    ensures Reads(b, p, s, lim)
  {
    assert forall i :: 0 <= i < |s| ==> b[p + i] == o[p + i] == s[i];
  }

  lemma WithinTrans(o: string, b: string, c: string, lo: nat, hi: nat, lo': nat, hi': nat)
    requires Within(o, b, lo, hi) && Within(b, c, lo', hi') && lo <= lo' && hi' <= hi
    ensures Within(o, c, lo, hi) && |o| == |b| == |c|
  {
  }

  lemma ReadsCString(b: string, p: nat, s: string, lim: nat)
    requires Reads(b, p, s, lim)
    ensures CString(b, p, p + |s|)
  {
  }

  // ---- cutting the buffer into parameters --------------------------------------------

  function Ampersands(s: string): nat {
    if s == "" then 0 else (if s[0] == '&' then 1 else 0) + Ampersands(s[1..])
  }

  /** `count_params`. */
  method CountParams(b: array<char>, ghost s: string) returns (n: nat)
    requires Reads(b[..], 0, s, b.Length)
    ensures n == if s == "" then 0 else 1 + Ampersands(s)
  {
    hide Reads;
    ReadsAt(b[..], 0, s, b.Length, 0);
    if b[0] == NUL {
      return 0;
    }
    n := 1;
    var i := 0;
    while b[i] != NUL
      invariant i <= |s| && i < b.Length && b[i] == if i < |s| then s[i] else NUL
      invariant n + Ampersands(s[i..]) == 1 + Ampersands(s)
      decreases |s| - i
    {
      ReadsAt(b[..], 0, s, b.Length, i);
      assert s[i..][1..] == s[i + 1..];
      if b[i] == '&' {
        n := n + 1;
      }
      i := i + 1;
      ReadsAt(b[..], 0, s, b.Length, i);
    }
    ReadsAt(b[..], 0, s, b.Length, i);
    assert s[i..] == "";
  }

  lemma {:induction false} FewParams(s: string)
    ensures |Params(s)| <= 1 + Ampersands(s) && (s == "" ==> Params(s) == [])
    decreases |s|
  {
    hide Part, ParamOf, AfterPart, Ampersands;
    if s != "" {
      FewParams(AfterPart(s));
      AmpersandsAfter(s);
    }
  }

  lemma AmpersandsAfter(s: string)
    ensures AfterPart(s) == "" || Ampersands(s) >= 1 + Ampersands(AfterPart(s))
  {
    hide IndexOf, Ampersands;
    var amp := IndexOf(s, '&');
    if amp < |s| {
      AmpersandsFrom(s, amp);
    }
  }

  lemma {:induction false} AmpersandsFrom(s: string, k: nat)
    requires k < |s| && s[k] == '&'
    ensures Ampersands(s) >= 1 + Ampersands(s[k + 1..])
  {
    if k > 0 {
      AmpersandsFrom(s[1..], k - 1);
      assert s[1..][k..] == s[k + 1..];
    }
  }

  /** A parameter cut out of the buffer: its name and value pointers, and where its part ends. */
  datatype Slot = Slot(name: nat, value: Option<nat>, end: nat)

  ghost predicate SlotReads(b: string, slot: Slot, p: Param) {
    && Reads(b, slot.name, p.name, slot.end + 1)
    && (slot.value.None? <==> p.value.None?)
    && (p.value.Some? ==> slot.name + |p.name| + 1 == slot.value.value
                          && slot.value.value + |p.value.value| == slot.end
                          && Reads(b, slot.value.value, p.value.value, slot.end + 1))
  }

  /** Slots lie one after another, the first at 0, and end before lim. */
  ghost predicate Ordered(slots: seq<Slot>, lim: nat) {
    && (forall i {:trigger StartOf(slots, i)} :: 0 <= i < |slots| ==>
          slots[i].name == StartOf(slots, i) && slots[i].name <= slots[i].end < lim)
  }

  ghost function StartOf(slots: seq<Slot>, i: nat): nat
    requires i <= |slots|
  {
    if i == 0 then 0 else slots[i - 1].end + 1
  }

  ghost predicate AllRead(b: string, slots: seq<Slot>, ps: seq<Param>, from: nat) {
    |slots| == |ps| && forall i :: from <= i < |slots| ==> SlotReads(b, slots[i], ps[i])
  }

  /** `strlen`. */
  method StrLen(b: array<char>, p: nat, ghost s: string, ghost lim: nat) returns (n: nat)
    requires Reads(b[..], p, s, lim)
    ensures n == |s|
  {
    var t := ReadStr(b, p, s, lim);
    n := |t|;
  }

  /** The part of s at p has become a slot, and what follows it starts at next. */
  ghost predicate PartTaken(b: string, p: nat, s: string, slot: Slot, next: nat) {
    && slot.name == p && slot.end == p + |Part(s)| < |b| && SlotReads(b, slot, ParamOf(Part(s)))
    && slot.end <= next <= slot.end + 1 && (AfterPart(s) != "" ==> next == slot.end + 1)
    && Reads(b, next, AfterPart(s), |b|)
  }

  /** The part at p is ended at the next '&', if there is one; n is its length. */
  method EndPart(b: array<char>, p: nat, ghost s: string) returns (n: nat, next: nat)
    requires Reads(b[..], p, s, b.Length)
    modifies b
    ensures PartEnded(old(b[..]), b[..], p, s, n, next)
  {
    assert '&' != NUL;
    hide *;
    ghost var o := b[..];
    var amp := CutAt(b, p, '&', s, b.Length);
    PartCut(b[..], p, s);
    n := StrLen(b, p, Part(s), p + |Part(s)| + 1);
    next := if amp.Some? then amp.value + 1 else p + n;
    PartEnds(o, b[..], p, s, n, next);
  }

  ghost predicate PartEnded(o: string, c: string, p: nat, s: string, n: nat, next: nat) {
    && n == |Part(s)| <= |s| && Reads(c, p, Part(s), p + n + 1) && Within(o, c, p, p + |s|)
    && p + n <= next <= p + n + 1 && (AfterPart(s) != "" ==> next == p + n + 1)
    && Reads(c, next, AfterPart(s), |c|)
  }

  lemma PartEnds(o: string, c: string, p: nat, s: string, n: nat, next: nat)
    requires ReadsCut(c, p, s, IndexOf(s, '&'), |c|) && Within(o, c, p, p + |s|)
    requires n == |Part(s)| && next == p + n + if IndexOf(s, '&') < |s| then 1 else 0
    ensures PartEnded(o, c, p, s, n, next)
  {
    hide IndexOf, Reads, ReadsCut, Part, AfterPart;
    PartCut(c, p, s);
  }

  /** The part at p is split at its first '=', if there is one. */
  method SplitPart(b: array<char>, p: nat, n: nat, ghost part: string) returns (slot: Slot)
    requires Reads(b[..], p, part, p + n + 1) && n == |part|
    modifies b
    ensures PartSplit(old(b[..]), b[..], p, part, slot)
  {
    assert '=' != NUL;
    hide *;
    ghost var c := b[..];
    var eq := CutAt(b, p, '=', part, p + n + 1);
    slot := Slot(p, if eq.Some? then Some(eq.value + 1) else None, p + n);
    PartSplits(c, b[..], p, part, slot);
  }

  ghost predicate PartSplit(c: string, b: string, p: nat, part: string, slot: Slot) {
    && slot.name == p && slot.end == p + |part| < |b| && SlotReads(b, slot, ParamOf(part))
    && Within(c, b, p, p + |part|)
  }

  lemma PartSplits(c: string, b: string, p: nat, part: string, slot: Slot)
    requires ReadsCut(b, p, part, IndexOf(part, '='), p + |part| + 1) && Within(c, b, p, p + |part|)
    requires var k := IndexOf(part, '=');
             slot == Slot(p, if k < |part| then Some(p + k + 1) else None, p + |part|)
    ensures PartSplit(c, b, p, part, slot)
  {
    hide IndexOf, Reads, ReadsCut, SlotReads, ParamOf;
    EqSlot(b, p, part);
  }

  /** One round of the cutting loop. */
  method CutPart(b: array<char>, p: nat, ghost s: string) returns (slot: Slot, next: nat)
    requires Reads(b[..], p, s, b.Length)
    modifies b
    ensures PartTaken(b[..], p, s, slot, next) && Within(old(b[..]), b[..], p, p + |s|)
  {
    hide *;
    ghost var o := b[..];
    var n;
    n, next := EndPart(b, p, s);
    ghost var c := b[..];
    PartEndedReads(o, c, p, s, n, next);
    slot := SplitPart(b, p, n, Part(s));
    PartDone(o, c, b[..], p, s, n, slot, next);
  }

  lemma PartEndedReads(o: string, c: string, p: nat, s: string, n: nat, next: nat)
    requires PartEnded(o, c, p, s, n, next)
    ensures n == |Part(s)| && Reads(c, p, Part(s), p + n + 1)
  {
  }

  lemma PartCut(b: string, p: nat, s: string)
    requires ReadsCut(b, p, s, IndexOf(s, '&'), |b|)
    ensures Reads(b, p, Part(s), p + |Part(s)| + 1) && |Part(s)| == IndexOf(s, '&') <= |s|
    ensures Reads(b, p + |Part(s)| + (if IndexOf(s, '&') < |s| then 1 else 0), AfterPart(s), |b|)
    ensures IndexOf(s, '&') == |s| ==> AfterPart(s) == ""
  {
    hide IndexOf;
  }

  lemma PartDone(o: string, c: string, b: string, p: nat, s: string, n: nat, slot: Slot, next: nat)
    requires PartEnded(o, c, p, s, n, next) && PartSplit(c, b, p, Part(s), slot)
    ensures PartTaken(b, p, s, slot, next) && Within(o, b, p, p + |s|)
  {
    hide Reads, SlotReads, Part, AfterPart, ParamOf;
    ReadsOutside(c, b, p, p + n, next, AfterPart(s), |c|);
    WithinTrans(o, c, b, p, p + |s|, p, p + n);
  }

  lemma EqSlot(b: string, p: nat, part: string)
    requires ReadsCut(b, p, part, IndexOf(part, '='), p + |part| + 1)
    ensures var k := IndexOf(part, '=');
            SlotReads(b, Slot(p, if k < |part| then Some(p + k + 1) else None, p + |part|), ParamOf(part))
    ensures p + |part| < |b|
  {
    hide IndexOf;
    assert part[..|part|] == part;
  }

  lemma EndInside(b: string, slot: Slot, p: Param)
    requires SlotReads(b, slot, p)
    ensures slot.end < |b|
  {
  }

  lemma SlotKept(b: string, c: string, slot: Slot, p: Param, k: nat)
    requires SlotReads(b, slot, p) && slot.end < k <= |b| == |c| && (forall i :: 0 <= i < k ==> c[i] == b[i])
    ensures SlotReads(c, slot, p)
  {
    assert c[..k] == b[..k];
    hide Reads;
    ReadsKept(b[..], c, slot.name, p.name, slot.end + 1, slot.end + 1) by { PrefixOf(b, c, slot.end + 1, k); }
    if p.value.Some? {
      ReadsKept(b, c, slot.value.value, p.value.value, slot.end + 1, slot.end + 1) by {
        PrefixOf(b, c, slot.end + 1, k);
      }
    }
  }

  lemma PrefixOf(b: string, c: string, j: nat, k: nat)
    requires j <= k <= |b| == |c| && c[..k] == b[..k]
    ensures c[..j] == b[..j]
  {
    assert c[..j] == c[..k][..j] && b[..j] == b[..k][..j];
  }

  /** After some rounds: the slots read the parameters `done`, and the rest starts at p. */
  ghost predicate Cutting(b: string, s: string, slots: seq<Slot>, done: seq<Param>, p: nat, rest: string) {
    && Params(s) == done + Params(rest)
    && AllRead(b, slots, done, 0) && Ordered(slots, |b|)
    && StartOf(slots, |slots|) <= p + 1 && (rest != "" ==> StartOf(slots, |slots|) == p)
    && Reads(b, p, rest, |b|)
  }

  lemma CutStep(o: string, b: string, s: string, slots: seq<Slot>, done: seq<Param>, p: nat, rest: string,
                slot: Slot, next: nat)
    requires Cutting(o, s, slots, done, p, rest) && rest != "" && Within(o, b, p, p + |rest|)
    requires PartTaken(b, p, rest, slot, next)
    ensures Cutting(b, s, slots + [slot], done + [ParamOf(Part(rest))], next, AfterPart(rest))
  {
    hide Reads, SlotReads, ParamOf, Part, AfterPart, AllRead, Ordered;
    assert Params(s) == (done + [ParamOf(Part(rest))]) + Params(AfterPart(rest));
    OrderedMore(slots, slot, |b|);
    ReadMore(o, b, slots, done, p, slot, ParamOf(Part(rest)));
  }

  lemma OrderedMore(slots: seq<Slot>, slot: Slot, lim: nat)
    requires Ordered(slots, lim) && slot.name == StartOf(slots, |slots|) && slot.name <= slot.end < lim
    ensures Ordered(slots + [slot], lim)
  {
    forall i | 0 <= i <= |slots|
      ensures StartOf(slots + [slot], i) == StartOf(slots, i)
    {
    }
    forall i | 0 <= i <= |slots|
      ensures (slots + [slot])[i].name == StartOf(slots, i)
      ensures (slots + [slot])[i].name <= (slots + [slot])[i].end < lim
    {
    }
  }

  lemma ReadMore(o: string, b: string, slots: seq<Slot>, done: seq<Param>, p: nat, slot: Slot, param: Param)
    requires AllRead(o, slots, done, 0) && Ordered(slots, |o|) && StartOf(slots, |slots|) == p
    requires p <= |b| == |o| && (forall i :: 0 <= i < p ==> b[i] == o[i]) && SlotReads(b, slot, param)
    ensures AllRead(b, slots + [slot], done + [param], 0)
  {
    hide SlotReads, Ordered;
    forall i | 0 <= i < |slots| ensures SlotReads(b, slots[i], done[i]) {
      EndsBefore(slots, |o|, i, |slots|);
      SlotKept(o, b, slots[i], done[i], p);
    }
  }

  /** Every slot ends before any later one starts. */
  lemma {:induction false} EndsBefore(slots: seq<Slot>, lim: nat, i: nat, j: nat)
    requires Ordered(slots, lim) && i < j <= |slots|
    ensures slots[i].end < StartOf(slots, j)
  {
    if j > i + 1 {
      EndsBefore(slots, lim, i, j - 1);
      assert slots[j - 1].name == StartOf(slots, j - 1);
    }
  }

  /** The first loop of `hyle_parse_query`: the bound on the parameter count never stops it early. */
  method CutParams(b: array<char>, ghost s: string) returns (slots: seq<Slot>)
    requires Reads(b[..], 0, s, b.Length)
    modifies b
    ensures AllRead(b[..], slots, Params(s), 0) && Ordered(slots, b.Length)
  {
    FewParams(s);
    var max := CountParams(b, s);
    slots := [];
    var p: nat := 0;
    ghost var rest, done: seq<Param> := s, [];
    assert Cutting(b[..], s, slots, done, p, rest);
    hide *;
    Vacant(b[..], p, rest);
    while b[p] != NUL && |slots| < max
      invariant Cutting(b[..], s, slots, done, p, rest) && Reads(b[..], p, rest, b.Length)
      invariant |Params(s)| <= max && p < b.Length && (b[p] == NUL <==> rest == "")
      decreases max - |slots|
    {
      ghost var o := b[..];
      var slot, next := CutPart(b, p, rest);
      CutStep(o, b[..], s, slots, done, p, rest, slot, next);
      slots, done := slots + [slot], done + [ParamOf(Part(rest))];
      p, rest := next, AfterPart(rest);
      Vacant(b[..], p, rest);
    }
    CutDone(b[..], s, slots, done, p, rest, max);
  }

  lemma Vacant(b: string, p: nat, rest: string)
    requires Reads(b, p, rest, |b|)
    ensures p < |b| && (b[p] == NUL <==> rest == "")
  {
  }

  lemma CutDone(b: string, s: string, slots: seq<Slot>, done: seq<Param>, p: nat, rest: string, max: nat)
    requires Cutting(b, s, slots, done, p, rest) && |Params(s)| <= max && (rest == "" || |slots| >= max)
    ensures AllRead(b, slots, Params(s), 0) && Ordered(slots, |b|)
  {
    hide Reads, SlotReads, ParamOf, IndexOf;
    NoRest(rest, |Params(s)| - |done|);
  }

  lemma NoRest(s: string, k: int)
    requires s == "" || |Params(s)| == k <= 0
    ensures Params(s) == []
  {
  }

  // ---- taking the parameters in order ----------------------------------------------------

  datatype OverrideAt = OverrideAt(field: string, op: nat)

  datatype ParseAt = ParseAt(query: QueryAt, ops: seq<OverrideAt>)

  ghost predicate ShowsOps(b: string, at: seq<OverrideAt>, ops: seq<Override>, lim: nat) {
    |at| == |ops| && forall i :: 0 <= i < |ops| ==> at[i].field == ops[i].field && Reads(b, at[i].op, ops[i].op, lim)
  }

  ghost predicate ShowsParse(b: string, at: ParseAt, st: Parse, lim: nat) {
    Shows(b, at.query, st.query, lim) && ShowsOps(b, at.ops, st.ops, lim)
  }

  lemma ShowsParseKept(b: string, c: string, at: ParseAt, st: Parse, lim: nat, k: nat, lim': nat)
    requires ShowsParse(b, at, st, lim) && lim <= k <= |c| == |b| && c[..k] == b[..k] && lim <= lim' <= |c|
    ensures ShowsParse(c, at, st, lim')
  {
    hide Shows, Reads;
    PrefixOf(b, c, lim, k);
    ShowsKept(b, c, at.query, st.query, lim, lim');
    forall i | 0 <= i < |st.ops| ensures Reads(c, at.ops[i].op, st.ops[i].op, lim') {
      ReadsKept(b, c, at.ops[i].op, st.ops[i].op, lim, lim');
    }
  }

  lemma IncludesStep(r: string)
    ensures var k := IndexOf(r, ',');
            IncludeList(Split(r, ','))
            == if k < |r| then [Decoded1(r[..k])] + IncludeList(Split(r[k + 1..], ',')) else [Decoded1(r)]
  {
    hide Decoded1, IndexOf;
    var k := IndexOf(r, ',');
    var pieces := Split(r, ',');
    assert pieces == if k == |r| then [r] else [r[..k]] + Split(r[k + 1..], ',');
    hide Split;
    assert pieces[1..] == if k == |r| then [] else Split(r[k + 1..], ',');
  }

  ghost predicate ReadsAll(b: string, ps: seq<nat>, ss: seq<string>, lim: nat) {
    |ps| == |ss| && lim <= |b| && forall i :: 0 <= i < |ps| ==> Reads(b, ps[i], ss[i], lim)
  }

  /** The list piece at p is decoded, and the rest of the list, if any, follows it. */
  ghost predicate PieceTaken(b: string, p: nat, r: string, next: Option<nat>) {
    var k := IndexOf(r, ',');
    && Reads(b, p, Decoded1(r[..k]), p + k + 1)
    && next == (if k < |r| then Some(p + k + 1) else None)
    && (k < |r| ==> Reads(b, p + k + 1, r[k + 1..], p + |r| + 1))
  }

  /** The piece at p is ended at the next comma and decoded in place. */
  method TakePiece(b: array<char>, p: nat, ghost r: string) returns (next: Option<nat>)
    requires Reads(b[..], p, r, p + |r| + 1)
    modifies b
    ensures PieceTaken(b[..], p, r, next) && Within(old(b[..]), b[..], p, p + |r|)
  {
    assert ',' != NUL;
    hide *;
    ghost var o, k := b[..], IndexOf(r, ',');
    var comma := CutAt(b, p, ',', r, p + |r| + 1);
    ghost var c := b[..];
    PieceCut(c, p, r);
    UrlDecode(b, p, p + k);
    next := if comma.Some? then Some(comma.value + 1) else None;
    PieceDone(o, c, b[..], p, r);
  }

  lemma PieceCut(b: string, p: nat, r: string)
    requires ReadsCut(b, p, r, IndexOf(r, ','), p + |r| + 1)
    ensures IndexOf(r, ',') <= |r| && CString(b, p, p + IndexOf(r, ','))
  {
    hide IndexOf;
    ReadsCString(b, p, r[..IndexOf(r, ',')], p + IndexOf(r, ',') + 1);
  }

  lemma PieceDone(o: string, c: string, b: string, p: nat, r: string)
    requires ReadsCut(c, p, r, IndexOf(r, ','), p + |r| + 1) && Within(o, c, p, p + |r|)
    requires CString(c, p, p + IndexOf(r, ',')) && Decoded(c, b, p, p + IndexOf(r, ','))
    ensures var k := IndexOf(r, ','); PieceTaken(b, p, r, if k < |r| then Some(p + k + 1) else None)
    ensures Within(o, b, p, p + |r|)
  {
    var k := IndexOf(r, ',');
    hide IndexOf, Decoded, CString, Within, Decoded1, Reads;
    DecodedReads(c, b, p, r[..k], p + k + 1);
    if k < |r| {
      ReadsOutside(c, b, p, p + k, p + k + 1, r[k + 1..], p + |r| + 1);
    }
    WithinTrans(o, c, b, p, p + |r|, p, p + k);
  }

  /** The include list being read: `done` are taken, `r` starts at p. */
  ghost predicate Listing(o: string, b: string, v: nat, s: string, at: seq<nat>, done: seq<string>,
                          next: Option<nat>, p: nat, r: string)
  {
    && v <= p <= v + |s| + 1 <= |b| && ReadsAll(b, at, done, p) && Within(o, b, v, v + |s|)
    && IncludeList(Split(s, ',')) == done + (if next.Some? then IncludeList(Split(r, ',')) else [])
    && (next.Some? ==> next.value == p && p + |r| == v + |s| && Reads(b, p, r, p + |r| + 1))
  }

  lemma ListStep(o: string, c: string, b: string, v: nat, s: string, at: seq<nat>, done: seq<string>,
                 p: nat, r: string, next: Option<nat>)
    requires Listing(o, c, v, s, at, done, Some(p), p, r)
    requires PieceTaken(b, p, r, next) && Within(c, b, p, p + |r|)
    ensures var k := IndexOf(r, ',');
            && k <= |r|
            && Listing(o, b, v, s, at + [p], done + [Decoded1(r[..k])], next, p + k + 1,
                       if k < |r| then r[k + 1..] else "")
  {
    var k := IndexOf(r, ',');
    IncludesStep(r);
    hide IndexOf, Decoded1, Reads, ReadsAll, Within, Split, IncludeList;
    WithinTrans(o, c, b, v, v + |s|, p, p + |r|);
    assert r[..|r|] == r;
    ReadsAllMore(c, b, at, done, p, p + |r|, Decoded1(r[..k]), p + k + 1);
  }

  lemma ReadsAllMore(c: string, b: string, at: seq<nat>, done: seq<string>, p: nat, hi: nat, piece: string, lim: nat)
    requires ReadsAll(c, at, done, p) && Within(c, b, p, hi) && Reads(b, p, piece, lim) && p <= lim <= |b|
    ensures ReadsAll(b, at + [p], done + [piece], lim)
  {
    hide Reads, Within;
    forall i | 0 <= i < |at| ensures Reads(b, at[i], done[i], lim) {
      ReadsBefore(c, b, p, hi, at[i], done[i], p, lim);
    }
  }

  lemma ReadsBefore(o: string, b: string, lo: nat, hi: nat, p: nat, s: string, lim: nat, lim': nat)
    requires Within(o, b, lo, hi) && Reads(o, p, s, lim) && lim <= lo && lim <= lim' <= |b|
    ensures Reads(b, p, s, lim')
  {
    assert forall i :: 0 <= i < |s| ==> b[p + i] == o[p + i] == s[i];
  }

  /** The include list at v, piece by piece. */
  method TakeIncludes(b: array<char>, v: nat, ghost s: string) returns (at: seq<nat>)
    requires Reads(b[..], v, s, v + |s| + 1)
    modifies b
    ensures ReadsAll(b[..], at, IncludeList(Split(s, ',')), v + |s| + 1)
    ensures Within(old(b[..]), b[..], v, v + |s|)
  {
    hide *;
    ghost var o, r, done: seq<string>, p: nat := b[..], s, [], v;
    at := [];
    var field := Some(v);
    ListStart(o, v, s);
    while field.Some?
      invariant Listing(o, b[..], v, s, at, done, field, p, r)
      decreases field.Some?, |r|
    {
      ghost var c := b[..];
      ListNext(o, c, v, s, at, done, field, p, r);
      var next := TakePiece(b, field.value, r);
      ListStep(o, c, b[..], v, s, at, done, p, r, next);
      at, done := at + [field.value], done + [Decoded1(r[..IndexOf(r, ',')])];
      PieceLeft(b[..], p, r, next);
      p, r := p + IndexOf(r, ',') + 1, if IndexOf(r, ',') < |r| then r[IndexOf(r, ',') + 1..] else "";
      field := next;
    }
    ListDone(o, b[..], v, s, at, done, p, r);
  }

  lemma ListStart(b: string, v: nat, s: string)
    requires Reads(b, v, s, v + |s| + 1)
    ensures Listing(b, b, v, s, [], [], Some(v), v, s)
  {
  }

  lemma ListNext(o: string, b: string, v: nat, s: string, at: seq<nat>, done: seq<string>,
                 field: Option<nat>, p: nat, r: string)
    requires Listing(o, b, v, s, at, done, field, p, r) && field.Some?
    ensures field == Some(p) && Reads(b, p, r, p + |r| + 1)
  {
  }

  lemma PieceLeft(b: string, p: nat, r: string, next: Option<nat>)
    requires PieceTaken(b, p, r, next)
    ensures next.Some? ==> |r[IndexOf(r, ',') + 1..]| < |r|
  {
  }

  lemma ListDone(o: string, b: string, v: nat, s: string, at: seq<nat>, done: seq<string>, p: nat, r: string)
    requires Listing(o, b, v, s, at, done, None, p, r)
    ensures ReadsAll(b, at, IncludeList(Split(s, ',')), v + |s| + 1) && Within(o, b, v, v + |s|)
  {
    hide Split, IncludeList, ReadsAll, Within;
    assert done + [] == done;
    ReadsAllFurther(b, at, done, p, v + |s| + 1);
  }

  lemma ReadsAllFurther(b: string, at: seq<nat>, done: seq<string>, lim: nat, lim': nat)
    requires ReadsAll(b, at, done, lim) && lim <= lim' <= |b|
    ensures ReadsAll(b, at, done, lim')
  {
    hide Reads;
    forall i | 0 <= i < |at| ensures Reads(b, at[i], done[i], lim') {
      ReadsKept(b, b, at[i], done[i], lim, lim');
    }
  }

  // ---- one parameter ---------------------------------------------------------------------

  function TakeParam(st: Parse, p: Param): Parse {
    if p.value.None? then st else Take(st, p.name, Decoded1(p.value.value))
  }

  /** The parameter's value has been decoded: the parse so far lies before the slot, the name
      before the value, and the value before the slot's end. */
  ghost predicate Ready(b: string, at: ParseAt, st: Parse, slot: Slot, name: string, v: nat, value: string) {
    && ShowsParse(b, at, st, slot.name) && slot.name < v && v + |value| <= slot.end < |b|
    && Reads(b, slot.name, name, v) && Reads(b, v, value, v + |value| + 1)
  }

  lemma DecodedReady(o: string, b: string, at: ParseAt, st: Parse, slot: Slot, p: Param)
    requires ShowsParse(o, at, st, slot.name) && SlotReads(o, slot, p) && p.value.Some?
    requires CString(o, slot.value.value, slot.end) && Decoded(o, b, slot.value.value, slot.end)
    ensures Ready(b, at, st, slot, p.name, slot.value.value, Decoded1(p.value.value))
    ensures Within(o, b, slot.name, slot.end)
  {
    var v, raw := slot.value.value, p.value.value;
    hide ShowsParse, Decoded, CString, Reads, Decoded1, Within;
    DecodedReads(o, b, v, raw, slot.end + 1);
    SameBefore(o, b, v, slot.end, slot.name);
    ShowsParseKept(o, b, at, st, slot.name, slot.name, slot.name);
    EndInside(o, slot, p);
    NameBefore(o, slot.name, p.name, slot.end + 1);
    ReadsOutside(o, b, v, slot.end, slot.name, p.name, v);
    ReadsTight(b, v, Decoded1(raw), slot.end + 1);
    WithinTrans(o, b, b, slot.name, slot.end, v, v) by { WithinGrow(o, b, v, slot.end, slot.name); }
  }

  lemma NameBefore(b: string, p: nat, s: string, lim: nat)
    requires Reads(b, p, s, lim)
    ensures Reads(b, p, s, p + |s| + 1)
  {
  }

  lemma ReadsTight(b: string, p: nat, s: string, lim: nat)
    requires Reads(b, p, s, lim)
    ensures Reads(b, p, s, p + |s| + 1) && p + |s| + 1 <= lim <= |b|
  {
  }

  lemma SameBefore(o: string, b: string, lo: nat, hi: nat, k: nat)
    requires Within(o, b, lo, hi) && k <= lo && k <= |o|
    ensures |b| == |o| && b[..k] == o[..k]
  {
  }

  lemma WithinGrow(o: string, b: string, lo: nat, hi: nat, lo': nat)
    requires Within(o, b, lo, hi) && lo' <= lo
    ensures Within(o, b, lo', hi) && Within(b, b, lo, lo)
  {
  }

  lemma WithSort(b: string, at: ParseAt, st: Parse, lim: nat, p: nat, s: string, asc: bool)
    requires ShowsParse(b, at, st, lim) && Reads(b, p, s, lim)
    ensures ShowsParse(b, at.(query := at.query.(sort := Some(p), asc := asc)),
                       st.(query := st.query.(sort := Some(s), asc := asc)), lim)
  {
    hide Reads, ReadsFilter;
  }

  lemma WithIncludes(b: string, at: ParseAt, st: Parse, lim: nat, ps: seq<nat>, ss: seq<string>)
    requires ShowsParse(b, at, st, lim) && ReadsAll(b, ps, ss, lim)
    ensures ShowsParse(b, at.(query := at.query.(includes := at.query.includes + ps)),
                       st.(query := st.query.(includes := st.query.includes + ss)), lim)
  {
    hide Reads, ReadsFilter;
  }

  lemma WithFilter(b: string, at: ParseAt, st: Parse, lim: nat, np: nat, name: string, p: nat, s: string)
    requires ShowsParse(b, at, st, lim) && Reads(b, np, name, lim) && Reads(b, p, s, lim)
    ensures ShowsParse(b, at.(query := at.query.(filters := at.query.filters + [FilterAt(np, p, None)])),
                       st.(query := st.query.(filters := st.query.filters + [Filter(name, s, None)])), lim)
  {
    hide Reads;
    assert ReadsFilter(b, FilterAt(np, p, None), Filter(name, s, None), lim);
    hide ReadsFilter;
  }

  lemma WithOverride(b: string, at: ParseAt, st: Parse, lim: nat, field: string, p: nat, s: string)
    requires ShowsParse(b, at, st, lim) && Reads(b, p, s, lim)
    ensures ShowsParse(b, at.(ops := at.ops + [OverrideAt(field, p)]), st.(ops := st.ops + [Override(field, s)]), lim)
  {
    hide Reads, Shows;
  }

  lemma WithScalars(b: string, at: ParseAt, st: Parse, lim: nat, p: nat, s: string, n: nat)
    requires ShowsParse(b, at, st, lim) && Reads(b, p, s, lim)
    ensures ShowsParse(b, at.(query := at.query.(q := Some(p))), st.(query := st.query.(q := Some(s))), lim)
    ensures ShowsParse(b, at.(query := at.query.(page := n)), st.(query := st.query.(page := n)), lim)
    ensures ShowsParse(b, at.(query := at.query.(perPage := n)), st.(query := st.query.(perPage := n)), lim)
  {
    hide Reads, ReadsFilter;
  }

  /** Everything read so far, seen from the end of the slot. */
  lemma ReadyWide(b: string, at: ParseAt, st: Parse, slot: Slot, name: string, v: nat, value: string)
    requires Ready(b, at, st, slot, name, v, value)
    ensures ShowsParse(b, at, st, slot.end + 1) && |at.ops| == |st.ops|
    ensures Reads(b, slot.name, name, slot.end + 1) && Reads(b, v, value, slot.end + 1)
    ensures Reads(b, slot.name, name, v) && Reads(b, v, value, v + |value| + 1)
    ensures v + |value| <= slot.end < |b| && slot.name < v
  {
    assert b[..slot.name] == b[..slot.name];
    hide Shows;
    ShowsParseKept(b, b, at, st, slot.name, slot.name, slot.end + 1);
  }

  /** The text after the first c, which is cut off. */
  method CutTail(b: array<char>, p: nat, c: char, ghost s: string) returns (tail: Option<string>)
    requires Reads(b[..], p, s, p + |s| + 1) && c != NUL
    modifies b
    ensures tail == if IndexOf(s, c) < |s| then Some(s[IndexOf(s, c) + 1..]) else None
    ensures ReadsCut(b[..], p, s, IndexOf(s, c), p + |s| + 1) && Within(old(b[..]), b[..], p, p + |s|)
  {
    hide *;
    var at := CutAt(b, p, c, s, p + |s| + 1);
    tail := None;
    if at.Some? {
      CutOff(b[..], p, s, IndexOf(s, c));
      var t := ReadStr(b, at.value + 1, s[IndexOf(s, c) + 1..], p + |s| + 1);
      tail := Some(t);
    }
  }

  lemma CutOff(b: string, p: nat, s: string, k: nat)
    requires ReadsCut(b, p, s, k, p + |s| + 1) && k < |s|
    ensures Reads(b, p + k + 1, s[k + 1..], p + |s| + 1)
  {
  }

  /** `sort=field` or `sort=field:direction`. */
  method TakeSort(b: array<char>, at: ParseAt, slot: Slot, v: nat, ghost st: Parse, ghost value: string)
    returns (r: ParseAt)
    requires Ready(b[..], at, st, slot, "sort", v, value)
    modifies b
    ensures ShowsParse(b[..], r, Take(st, "sort", value), slot.end + 1)
    ensures Within(old(b[..]), b[..], slot.name, slot.end)
  {
    assert ':' != NUL;
    hide *;
    ghost var o := b[..];
    ReadyWide(o, at, st, slot, "sort", v, value);
    var direction := CutTail(b, v, ':', value);
    var asc := if direction.Some? then direction.value != "desc" else at.query.asc;
    r := at.(query := at.query.(sort := Some(v), asc := asc));
    SortDone(o, b[..], at, st, slot, v, value, asc);
  }

  lemma SortDone(o: string, b: string, at: ParseAt, st: Parse, slot: Slot, v: nat, value: string, asc: bool)
    requires Ready(o, at, st, slot, "sort", v, value)
    requires ReadsCut(b, v, value, IndexOf(value, ':'), v + |value| + 1) && Within(o, b, v, v + |value|)
    requires var k := IndexOf(value, ':');
             asc == if k < |value| then value[k + 1..] != "desc" else at.query.asc
    ensures ShowsParse(b, at.(query := at.query.(sort := Some(v), asc := asc)), Take(st, "sort", value), slot.end + 1)
    ensures Within(o, b, slot.name, slot.end)
  {
    hide *;
    Carry(o, b, at, st, slot, "sort", v, value);
    SortReads(b, v, value, slot.end + 1);
    SortTaken(st, value);
    WithSort(b, at, st, slot.end + 1, v, value[..IndexOf(value, ':')], asc);
  }

  /** A write inside the value keeps what was read before the slot. */
  lemma Carry(o: string, b: string, at: ParseAt, st: Parse, slot: Slot, name: string, v: nat, value: string)
    requires Ready(o, at, st, slot, name, v, value) && Within(o, b, v, v + |value|)
    ensures ShowsParse(b, at, st, slot.end + 1) && Within(o, b, slot.name, slot.end)
    ensures at.query.asc == st.query.asc && v + |value| <= slot.end < |b|
  {
    assert at.query.asc == st.query.asc;
    hide ShowsParse, Reads;
    SameBefore(o, b, v, v + |value|, slot.name);
    ShowsParseKept(o, b, at, st, slot.name, slot.name, slot.end + 1);
  }

  lemma SortReads(b: string, v: nat, value: string, lim: nat)
    requires ReadsCut(b, v, value, IndexOf(value, ':'), v + |value| + 1) && v + |value| < lim <= |b|
    ensures IndexOf(value, ':') <= |value| && Reads(b, v, value[..IndexOf(value, ':')], lim)
  {
    hide IndexOf;
  }

  lemma SortTaken(st: Parse, value: string)
    ensures var k := IndexOf(value, ':');
            Take(st, "sort", value)
            == st.(query := st.query.(sort := Some(value[..k]),
                                      asc := if k < |value| then value[k + 1..] != "desc" else st.query.asc))
  {
    assert "sort"[1..] == "ort";
    hide IndexOf;
    assert value[..|value|] == value;
  }

  /** `include=a,b,...`. */
  method TakeInclude(b: array<char>, at: ParseAt, slot: Slot, v: nat, ghost st: Parse, ghost value: string)
    returns (r: ParseAt)
    requires Ready(b[..], at, st, slot, "include", v, value)
    modifies b
    ensures ShowsParse(b[..], r, Take(st, "include", value), slot.end + 1)
    ensures Within(old(b[..]), b[..], slot.name, slot.end)
  {
    hide *;
    ghost var o := b[..];
    ReadyWide(o, at, st, slot, "include", v, value);
    var includes := TakeIncludes(b, v, value);
    r := at.(query := at.query.(includes := at.query.includes + includes));
    IncludeDone(o, b[..], at, st, slot, v, value, includes);
  }

  lemma IncludeDone(o: string, b: string, at: ParseAt, st: Parse, slot: Slot, v: nat, value: string, includes: seq<nat>)
    requires Ready(o, at, st, slot, "include", v, value)
    requires ReadsAll(b, includes, IncludeList(Split(value, ',')), v + |value| + 1)
    requires Within(o, b, v, v + |value|)
    ensures ShowsParse(b, at.(query := at.query.(includes := at.query.includes + includes)),
                       Take(st, "include", value), slot.end + 1)
    ensures Within(o, b, slot.name, slot.end)
  {
    hide *;
    var list := IncludeList(Split(value, ','));
    Carry(o, b, at, st, slot, "include", v, value);
    IncludeTaken(st, value);
    ReadsAllWide(b, includes, list, v + |value| + 1, slot.end + 1);
    WithIncludes(b, at, st, slot.end + 1, includes, list);
  }

  lemma IncludeTaken(st: Parse, value: string)
    ensures Take(st, "include", value)
            == st.(query := st.query.(includes := st.query.includes + IncludeList(Split(value, ','))))
  {
    assert "include"[4..] == "ude";
    hide IncludeList, Split;
  }

  lemma ReadsAllWide(b: string, ps: seq<nat>, ss: seq<string>, lim: nat, lim': nat)
    requires ReadsAll(b, ps, ss, lim) && lim <= lim' <= |b|
    ensures ReadsAll(b, ps, ss, lim')
  {
  }

  /** Parameters that only record a pointer or a number. */
  function TakeScalar(at: ParseAt, np: nat, v: nat, name: string, value: string): ParseAt {
    var q := at.query;
    if IsOp(name) then
      if (value == "and" || value == "or") && |at.ops| < MAX_OPS then
        at.(ops := at.ops + [OverrideAt(name[..Min(|name| - 3, 63)], v)])
      else at
    else if name == "page" then at.(query := q.(page := PageNumber(value)))
    else if name == "per_page" then at.(query := q.(perPage := PageNumber(value)))
    else if name == "q" then at.(query := q.(q := Some(v)))
    else if name == "custom" || name == "mode" || name == "search_mode" then at
    else if value != "" then at.(query := q.(filters := q.filters + [FilterAt(np, v, None)]))
    else at
  }

  lemma ScalarDone(b: string, at: ParseAt, st: Parse, slot: Slot, name: string, v: nat, value: string)
    requires Ready(b, at, st, slot, name, v, value) && (IsOp(name) || (name != "sort" && name != "include"))
    ensures ShowsParse(b, TakeScalar(at, slot.name, v, name, value), Take(st, name, value), slot.end + 1)
    ensures Within(b, b, slot.name, slot.end)
  {
    hide ShowsParse, Ready, Reads, PageNumber;
    ReadyWide(b, at, st, slot, name, v, value);
    var lim := slot.end + 1;
    if IsOp(name) {
      WithOverride(b, at, st, lim, name[..Min(|name| - 3, 63)], v, value);
    } else {
      WithScalars(b, at, st, lim, v, value, PageNumber(value));
      WithFilter(b, at, st, lim, slot.name, name, v, value);
    }
  }


  method Dispatch(b: array<char>, at: ParseAt, slot: Slot, v: nat, ghost st: Parse, ghost name: string,
                  ghost value: string)
    returns (r: ParseAt)
    requires Ready(b[..], at, st, slot, name, v, value)
    modifies b
    ensures ShowsParse(b[..], r, Take(st, name, value), slot.end + 1)
    ensures Within(old(b[..]), b[..], slot.name, slot.end)
  {
    hide *;
    ReadyWide(b[..], at, st, slot, name, v, value);
    var n := ReadStr(b, slot.name, name, v);
    if !IsOp(n) && n == "sort" {
      r := TakeSort(b, at, slot, v, st, value);
    } else if !IsOp(n) && n == "include" {
      r := TakeInclude(b, at, slot, v, st, value);
    } else {
      var text := ReadStr(b, v, value, v + |value| + 1);
      r := TakeScalar(at, slot.name, v, n, text);
      ScalarDone(b[..], at, st, slot, name, v, value);
    }
  }

  /** One round of the dispatching loop: decoding and cutting stay inside the parameter's own part. */
  method TakeSlot(b: array<char>, at: ParseAt, slot: Slot, ghost st: Parse, ghost p: Param) returns (r: ParseAt)
    requires ShowsParse(b[..], at, st, slot.name) && SlotReads(b[..], slot, p)
    modifies b
    ensures ShowsParse(b[..], r, TakeParam(st, p), slot.end + 1) && Within(old(b[..]), b[..], slot.name, slot.end)
  {
    hide *;
    ghost var o := b[..];
    SlotParts(o, at, st, slot, p);
    if slot.value.None? {
      return at;
    }
    var v := slot.value.value;
    UrlDecode(b, v, slot.end);
    ghost var c := b[..];
    DecodedReady(o, c, at, st, slot, p);
    r := Dispatch(b, at, slot, v, st, p.name, Decoded1(p.value.value));
    WithinTrans(o, c, b[..], slot.name, slot.end, slot.name, slot.end);
  }

  lemma SlotParts(b: string, at: ParseAt, st: Parse, slot: Slot, p: Param)
    requires ShowsParse(b, at, st, slot.name) && SlotReads(b, slot, p)
    ensures slot.value.Some? <==> p.value.Some?
    ensures slot.value.None? ==> ShowsParse(b, at, TakeParam(st, p), slot.end + 1)
    ensures Within(b, b, slot.name, slot.end)
    ensures slot.value.Some? ==> CString(b, slot.value.value, slot.end)
    ensures p.value.Some? ==> TakeParam(st, p) == Take(st, p.name, Decoded1(p.value.value))
  {
    hide ShowsParse, Take, Decoded1;
    if slot.value.None? {
      ShowsParseKept(b, b, at, st, slot.name, slot.name, slot.end + 1);
    } else {
      ReadsCString(b, slot.value.value, p.value.value, slot.end + 1);
    }
  }

  /** After i rounds: the parse of the first i parameters, and the other slots untouched. */
  ghost predicate Taking(b: string, slots: seq<Slot>, ps: seq<Param>, i: nat, at: ParseAt) {
    && i <= |slots| == |ps| && AllRead(b, slots, ps, i) && Ordered(slots, |b|)
    && ShowsParse(b, at, Collect(ps[..i]), StartOf(slots, i))
  }

  lemma TakeNext(b: string, slots: seq<Slot>, ps: seq<Param>, i: nat, at: ParseAt)
    requires Taking(b, slots, ps, i, at) && i < |slots|
    ensures ShowsParse(b, at, Collect(ps[..i]), slots[i].name) && SlotReads(b, slots[i], ps[i])
  {
    hide ShowsParse, SlotReads;
    assert StartOf(slots, i) == slots[i].name;
  }

  lemma TakenStep(o: string, b: string, slots: seq<Slot>, ps: seq<Param>, i: nat, at: ParseAt, r: ParseAt)
    requires Taking(o, slots, ps, i, at) && i < |slots|
    requires ShowsParse(b, r, TakeParam(Collect(ps[..i]), ps[i]), slots[i].end + 1)
    requires Within(o, b, slots[i].name, slots[i].end)
    ensures Taking(b, slots, ps, i + 1, r)
  {
    hide ShowsParse, SlotReads;
    assert ps[..i + 1][..i] == ps[..i];
    forall j | i + 1 <= j < |slots| ensures SlotReads(b, slots[j], ps[j]) {
      EndsBefore(slots, |o|, i, j);
      assert StartOf(slots, j) == slots[j].name;
      SlotAfter(o, b, slots[i].name, slots[i].end, slots[j], ps[j]);
    }
  }

  lemma SlotAfter(o: string, b: string, lo: nat, hi: nat, slot: Slot, p: Param)
    requires Within(o, b, lo, hi) && SlotReads(o, slot, p) && hi <= slot.name
    ensures SlotReads(b, slot, p)
  {
    hide Reads;
    ReadsOutside(o, b, lo, hi, slot.name, p.name, slot.end + 1);
    if p.value.Some? {
      ReadsOutside(o, b, lo, hi, slot.value.value, p.value.value, slot.end + 1);
    }
  }

  lemma {:induction false} NoOpsYet(ps: seq<Param>)
    ensures forall f :: f in Collect(ps).query.filters ==> f.op == None
  {
    if ps != [] {
      NoOpsYet(ps[..|ps| - 1]);
    }
  }

  /** The inner loop: starting from no operator, a later match replaces an earlier one. */
  method LastOp(b: array<char>, field: string, previous: Option<nat>, ops: seq<OverrideAt>, ghost spec: seq<Override>,
                ghost lim: nat)
    returns (op: Option<nat>)
    requires ShowsOps(b[..], ops, spec, lim) && previous == None
    ensures ReadsOpt(b[..], op, OpFor(spec, field), lim)
  {
    op := previous;
    hide Reads;
    for j := 0 to |ops|
      invariant |ops| == |spec| && ReadsOpt(b[..], op, OpFor(spec[..j], field), lim)
    {
      assert spec[..j + 1][..j] == spec[..j];
      if field == ops[j].field {
        op := Some(ops[j].op);
      }
    }
    assert spec[..|spec|] == spec;
  }

  /** The last loops: every filter gets the last override naming its field. */
  method ApplyOps(b: array<char>, filters: seq<FilterAt>, ops: seq<OverrideAt>, ghost st: Parse, ghost lim: nat)
    returns (r: seq<FilterAt>)
    requires |filters| == |st.query.filters| && lim <= b.Length
    requires forall i :: 0 <= i < |filters| ==>
               ReadsFilter(b[..], filters[i], st.query.filters[i], lim) && st.query.filters[i].op == None
    requires ShowsOps(b[..], ops, st.ops, lim)
    ensures |r| == |filters|
    ensures forall i :: 0 <= i < |r| ==>
              ReadsFilter(b[..], r[i], st.query.filters[i].(op := OpFor(st.ops, st.query.filters[i].field)), lim)
  {
    hide *;
    r := filters;
    for i := 0 to |filters|
      invariant |r| == |filters| && r[i..] == filters[i..]
      invariant forall k :: 0 <= k < i ==>
                  ReadsFilter(b[..], r[k], st.query.filters[k].(op := OpFor(st.ops, st.query.filters[k].field)), lim)
    {
      ghost var g := st.query.filters[i];
      assert r[i] == r[i..][0] == filters[i..][0];
      FilterParts(b[..], filters[i], g, lim);
      var field := ReadStr(b, filters[i].field, g.field, lim);
      var op := LastOp(b, field, filters[i].op, ops, st.ops, lim);
      r := r[i := r[i].(op := op)];
      FilterOp(b[..], filters[i], g, op, OpFor(st.ops, g.field), lim);
    }
  }

  lemma FilterParts(b: string, f: FilterAt, g: Filter, lim: nat)
    requires ReadsFilter(b, f, g, lim)
    ensures Reads(b, f.field, g.field, lim) && (f.op == None <==> g.op == None)
  {
  }

  lemma FilterOp(b: string, f: FilterAt, g: Filter, op: Option<nat>, s: Option<string>, lim: nat)
    requires ReadsFilter(b, f, g, lim) && ReadsOpt(b, op, s, lim)
    ensures ReadsFilter(b, f.(op := op), g.(op := s), lim)
  {
  }

  const EMPTY_AT := ParseAt(QueryAt(None, true, 0, 0, None, [], []), [])

  /** `hyle_parse_query`: reading the result's pointers gives the meaning of the original text.
      A NULL string gives the empty query. */
  method ParseQuery(b: array?<char>, ghost s: string) returns (r: QueryAt)
    requires if b == null then s == "" else Reads(b[..], 0, s, b.Length)
    modifies b
    ensures if b == null then r == EMPTY_AT.query && Meaning(s) == EMPTY_QUERY
            else Shows(b[..], r, Meaning(s), b.Length)
  {
    if b == null {
      r := EMPTY_AT.query;
    } else {
      r := ParseBuffer(b, s);
    }
  }

  method ParseBuffer(b: array<char>, ghost s: string) returns (r: QueryAt)
    requires Reads(b[..], 0, s, b.Length)
    modifies b
    ensures Shows(b[..], r, Meaning(s), b.Length)
  {
    hide *;
    ghost var ps := Params(s);
    var slots := CutParams(b, s);
    var at := TakeSlots(b, slots, ps);
    AllTaken(b[..], at, ps);
    var filters := ApplyOps(b, at.query.filters, at.ops, Collect(ps), b.Length);
    r := at.query.(filters := filters);
    ParseDone(b[..], s, at, filters);
  }

  method TakeSlots(b: array<char>, slots: seq<Slot>, ghost ps: seq<Param>) returns (at: ParseAt)
    requires AllRead(b[..], slots, ps, 0) && Ordered(slots, b.Length)
    modifies b
    ensures ShowsParse(b[..], at, Collect(ps), b.Length)
  {
    hide *;
    at := EMPTY_AT;
    TakeStart(b[..], slots, ps);
    for i := 0 to |slots|
      invariant Taking(b[..], slots, ps, i, at) && |ps| == |slots|
    {
      ghost var o := b[..];
      TakeNext(o, slots, ps, i, at);
      var next := TakeSlot(b, at, slots[i], Collect(ps[..i]), ps[i]);
      TakenStep(o, b[..], slots, ps, i, at, next);
      at := next;
    }
    TakeEnd(b[..], slots, ps, at);
  }

  lemma TakeStart(b: string, slots: seq<Slot>, ps: seq<Param>)
    requires AllRead(b, slots, ps, 0) && Ordered(slots, |b|)
    ensures Taking(b, slots, ps, 0, EMPTY_AT) && |ps| == |slots|
  {
    assert ps[..0] == [];
  }

  lemma TakeEnd(b: string, slots: seq<Slot>, ps: seq<Param>, at: ParseAt)
    requires Taking(b, slots, ps, |ps|, at)
    ensures ShowsParse(b, at, Collect(ps), |b|)
  {
    assert ps[..|ps|] == ps;
    var lim := StartOf(slots, |slots|);
    assert lim <= |b| by {
      if |slots| > 0 {
        assert StartOf(slots, |slots| - 1) == slots[|slots| - 1].name;
      }
    }
    hide Reads, Collect, ReadsFilter;
    ShowsParseKept(b, b, at, Collect(ps), lim, lim, |b|);
  }

  lemma AllTaken(b: string, at: ParseAt, ps: seq<Param>)
    requires ShowsParse(b, at, Collect(ps), |b|)
    ensures |at.query.filters| == |Collect(ps).query.filters| && ShowsOps(b, at.ops, Collect(ps).ops, |b|)
    ensures forall i :: 0 <= i < |at.query.filters| ==>
              && ReadsFilter(b, at.query.filters[i], Collect(ps).query.filters[i], |b|)
              && Collect(ps).query.filters[i].op == None
  {
    NoOpsYet(ps);
    hide Reads, Collect, ReadsFilter;
  }

  lemma ParseDone(b: string, s: string, at: ParseAt, filters: seq<FilterAt>)
    requires var st := Collect(Params(s));
             && ShowsParse(b, at, st, |b|) && |filters| == |st.query.filters|
             && forall i :: 0 <= i < |filters| ==>
                  ReadsFilter(b, filters[i], st.query.filters[i].(op := OpFor(st.ops, st.query.filters[i].field)), |b|)
    ensures Shows(b, at.query.(filters := filters), Meaning(s), |b|)
  {
    hide Reads, Collect, ReadsFilter, OpFor, Params;
  }
}
