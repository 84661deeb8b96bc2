/** The query planner: three pre-filters narrow the rows and erase the filters they dealt with;
    the view then applies what is left. */
module Planner {
  import opened Collections
  import opened Text
  import opened Wrappers
  import opened Matching
  import opened Punctuation
  import opened Tokens
  import opened Rows

  const MAX_FIELDS := 16
  const MAX_VALUES := 32

  // ---- what the planner consults ------------------------------------------------------

  /** What was indexed under a field of a row: a text, or its tokens. */
  datatype Doc = Words(text: string) | Tokens(tokens: seq<nat>)

  datatype Posting = Posting(field: string, row: string, doc: Doc)

  type Index = seq<Posting>

  /** `lemma_query` and `lemma_query_phrase`: the rows of a field's postings that match a text,
      or None when the index does not handle it. */
  type Search = (Index, string, string, bool) -> Option<seq<string>>

  /** A registered source that references point to: its fields and cells, `corm_pos` of a slug,
      and the slug at the position a numeric token names. */
  datatype Target = Target(fields: seq<Field>, cells: Cells, pos: string -> Option<nat>,
                           keyAt: string -> Option<string>)

  datatype Env = Env(fold: Fold, search: Search, targets: map<string, Target>,
                     derive: (string, string) -> Option<string>)

  predicate HasValue(f: FieldFilter) {
    f.value.Some? && f.value.value != ""
  }

  function KindOf(fields: seq<Field>, name: string): Kind {
    var i := FieldIndex(fields, name);
    if i < |fields| then fields[i].kind else Value
  }

  // ---- full text -------------------------------------------------------------------------

  predicate Searchable(fields: seq<Field>, name: string) {
    var i := FieldIndex(fields, name);
    i < |fields| && fields[i].searchable
  }

  /** A quoted value is a phrase; an unclosed or empty quotation is not handled. */
  function Hits(env: Env, index: Index, f: FieldFilter): Option<seq<string>>
    requires HasValue(f)
  {
    var v := f.value.value;
    if v[0] != '"' then env.search(index, f.field, v, false)
    else if |v| > 2 && v[|v| - 1] == '"' then env.search(index, f.field, v[1..|v| - 1], true)
    else None
  }

  /** The full-text index answers this filter. */
  predicate IsFullText(env: Env, fields: seq<Field>, index: Index, f: FieldFilter) {
    HasValue(f) && Searchable(fields, f.field) && Hits(env, index, f).Some?
  }

  function Elements(s: seq<string>): set<string> {
    set r | r in s
  }

  /** The filters with those the index answered erased. */
  function AfterFullText(env: Env, fields: seq<Field>, index: Index, fs: seq<FieldFilter>): (r: seq<FieldFilter>)
    ensures |r| == |fs|
    ensures forall i :: 0 <= i < |fs| ==>
              r[i] == if IsFullText(env, fields, index, fs[i]) then fs[i].(value := None) else fs[i]
  {
    seq(|fs|, i requires 0 <= i < |fs| =>
      if IsFullText(env, fields, index, fs[i]) then fs[i].(value := None) else fs[i])
  }

  /** The candidate rows after these filters, None if the index answered none of them. */
  function FullTextRows(env: Env, fields: seq<Field>, index: Index, fs: seq<FieldFilter>): Option<seq<string>> {
    if fs == [] then None
    else
      var before, f := FullTextRows(env, fields, index, fs[..|fs| - 1]), fs[|fs| - 1];
      if !IsFullText(env, fields, index, f) then before
      else if before.None? then Hits(env, index, f)
      else Some(Sift(before.value, Elements(Hits(env, index, f).value)))
  }

  /** The hits of the first answered filter. */
  function FirstHits(env: Env, fields: seq<Field>, index: Index, fs: seq<FieldFilter>): Option<seq<string>> {
    if fs == [] then None
    else
      var before, f := FirstHits(env, fields, index, fs[..|fs| - 1]), fs[|fs| - 1];
      if before.Some? then before
      else if IsFullText(env, fields, index, f) then Hits(env, index, f) else None
  }

  /** The row is among the hits of the filter, if the index answered it. */
  predicate IsHit(env: Env, fields: seq<Field>, index: Index, f: FieldFilter, row: string) {
    IsFullText(env, fields, index, f) ==> row in Hits(env, index, f).value
  }

  predicate HitsAll(env: Env, fields: seq<Field>, index: Index, fs: seq<FieldFilter>, row: string) {
    forall i :: 0 <= i < |fs| ==> IsHit(env, fields, index, fs[i], row)
  }

  function HitSet(env: Env, fields: seq<Field>, index: Index, fs: seq<FieldFilter>, start: seq<string>): set<string> {
    set r | r in start && HitsAll(env, fields, index, fs, r)
  }

  lemma HitSetSnoc(env: Env, fields: seq<Field>, index: Index, fs: seq<FieldFilter>, start: seq<string>)
    requires fs != []
    ensures var f := fs[|fs| - 1];
            forall r :: r in HitSet(env, fields, index, fs, start)
                        <==> r in HitSet(env, fields, index, fs[..|fs| - 1], start) && IsHit(env, fields, index, f, r)
  {
    hide IsHit;
    assert fs == fs[..|fs| - 1] + [fs[|fs| - 1]];
  }

  lemma HitSetNone(env: Env, fields: seq<Field>, index: Index, fs: seq<FieldFilter>, start: seq<string>)
    requires forall i :: 0 <= i < |fs| ==> !IsFullText(env, fields, index, fs[i])
    ensures forall r :: r in start ==> r in HitSet(env, fields, index, fs, start)
  {
    hide IsFullText, Hits;
  }

  lemma {:induction false} FirstHitsNoneIff(env: Env, fields: seq<Field>, index: Index, fs: seq<FieldFilter>)
    ensures FirstHits(env, fields, index, fs).None?
            <==> forall i :: 0 <= i < |fs| ==> !IsFullText(env, fields, index, fs[i])
  {
    if fs != [] {
      FirstHitsNoneIff(env, fields, index, fs[..|fs| - 1]);
      assert fs == fs[..|fs| - 1] + [fs[|fs| - 1]];
    }
  }

  /** The candidates are the rows that every answered filter hits, in the first one's order. */
  lemma {:induction false} FullTextMeaning(env: Env, fields: seq<Field>, index: Index, fs: seq<FieldFilter>)
    ensures FullTextRows(env, fields, index, fs)
            == match FirstHits(env, fields, index, fs)
               case None => None
               case Some(start) => Some(Sift(start, HitSet(env, fields, index, fs, start)))
  {
    if fs != [] {
      var front, f := fs[..|fs| - 1], fs[|fs| - 1];
      FullTextMeaning(env, fields, index, front);
      FirstHitsNoneIff(env, fields, index, front);
      var first := FirstHits(env, fields, index, fs);
      if first.Some? {
        var start := first.value;
        HitSetSnoc(env, fields, index, fs, start);
        hide HitSet, Hits;
        var all, some := HitSet(env, fields, index, fs, start), HitSet(env, fields, index, front, start);
        if !IsFullText(env, fields, index, f) {
          assert all == some;
        } else if FirstHits(env, fields, index, front).None? {
          HitSetNone(env, fields, index, front, start);
          SiftAll(start, all);
        } else {
          var here := Elements(Hits(env, index, f).value);
          SiftTwice(start, some, here);
          SiftSame(start, some * here, all);
        }
      }
    }
  }

  lemma FullTextStep(env: Env, fields: seq<Field>, index: Index, fs: seq<FieldFilter>, i: nat)
    requires i < |fs|
    ensures var before := FullTextRows(env, fields, index, fs[..i]);
            FullTextRows(env, fields, index, fs[..i + 1])
            == if !IsFullText(env, fields, index, fs[i]) then before
               else if before.None? then Hits(env, index, fs[i])
               else Some(Sift(before.value, Elements(Hits(env, index, fs[i]).value)))
  {
    assert fs[..i + 1][..i] == fs[..i];
  }

  /** `prefilter_fts` after the index is up to date: answered filters are erased one by one. */
  method PrefilterFullText(env: Env, fields: seq<Field>, index: Index, filters: array<FieldFilter>)
    returns (rows: Option<seq<string>>)
    modifies filters
    ensures filters[..] == AfterFullText(env, fields, index, old(filters[..]))
    ensures rows == FullTextRows(env, fields, index, old(filters[..]))
  {
    ghost var fs := filters[..];
    ghost var done := AfterFullText(env, fields, index, fs);
    hide *;
    NoneDone(done, fs);
    NoFullText(env, fields, index);
    rows := None;
    for i := 0 to filters.Length
      invariant |fs| == filters.Length && filters[..] == done[..i] + fs[i..]
      invariant rows == FullTextRows(env, fields, index, fs[..i])
    {
      rows := AnswerFilter(env, fields, index, filters, rows, fs, i);
    }
  }

  lemma NoneDone(done: seq<FieldFilter>, fs: seq<FieldFilter>)
    requires |fs| == |done|
    ensures fs[..0] == [] && fs[..|fs|] == fs && done[..0] + fs[0..] == fs && done[..|fs|] + fs[|fs|..] == done
  {
  }

  lemma NoFullText(env: Env, fields: seq<Field>, index: Index)
    ensures FullTextRows(env, fields, index, []) == None
  {
  }

  /** One round of the loop. */
  method AnswerFilter(env: Env, fields: seq<Field>, index: Index, filters: array<FieldFilter>,
                      rows: Option<seq<string>>, ghost fs: seq<FieldFilter>, i: nat)
    returns (out: Option<seq<string>>)
    requires i < |fs| && filters[..] == AfterFullText(env, fields, index, fs)[..i] + fs[i..]
    requires rows == FullTextRows(env, fields, index, fs[..i])
    modifies filters
    ensures filters[..] == AfterFullText(env, fields, index, fs)[..i + 1] + fs[i + 1..]
    ensures out == FullTextRows(env, fields, index, fs[..i + 1])
  {
    FullTextStep(env, fields, index, fs, i);
    ghost var done := AfterFullText(env, fields, index, fs);
    assert done[i] == if IsFullText(env, fields, index, fs[i]) then fs[i].(value := None) else fs[i];
    OneDone(done, fs, i);
    hide FullTextRows, Hits, Searchable, Sift, Elements, AfterFullText;
    var f := filters[i];
    out := rows;
    assert f == filters[..][i] == fs[i];
    if HasValue(f) && Searchable(fields, f.field) {
      var hits := Hits(env, index, f);
      if hits.Some? {
        out := if rows.None? then hits else Some(Sift(rows.value, Elements(hits.value)));
        filters[i] := f.(value := None);
      }
    }
  }

  lemma OneDone(done: seq<FieldFilter>, fs: seq<FieldFilter>, i: nat)
    requires i < |fs| == |done|
    ensures (done[..i] + fs[i..])[i := done[i]] == done[..i + 1] + fs[i + 1..]
    ensures done[i] == fs[i] ==> done[..i] + fs[i..] == done[..i + 1] + fs[i + 1..]
  {
  }

  // ---- references: pass 0 ------------------------------------------------------------------

  function TargetOf(env: Env, fields: seq<Field>, name: string): Option<Target> {
    var i := FieldIndex(fields, name);
    if i < |fields| && fields[i].target.Some? && fields[i].target.value in env.targets
    then Some(env.targets[fields[i].target.value]) else None
  }

  /** A filter on a reference field; a multi-reference one needs its target registered. */
  predicate IsRef(env: Env, fields: seq<Field>, f: FieldFilter) {
    HasValue(f) && (KindOf(fields, f.field) == Reference
                    || (KindOf(fields, f.field) == MultiReference && TargetOf(env, fields, f.field).Some?))
  }

  /** The filters taken over so far, by index, and the names of their fields. */
  datatype Pass = Pass(handled: seq<nat>, names: seq<string>)

  predicate Full(p: Pass) {
    |p.names| >= MAX_FIELDS || |p.handled| >= MAX_VALUES
  }

  function Take(p: Pass, i: nat, name: string): Pass {
    Pass(p.handled + [i], if name in p.names then p.names else p.names + [name])
  }

  /** Take reference filters in order until a table is full. */
  function PassZero(env: Env, fields: seq<Field>, fs: seq<FieldFilter>): Pass {
    if fs == [] then Pass([], [])
    else
      var n := |fs| - 1;
      var p := PassZero(env, fields, fs[..n]);
      if IsRef(env, fields, fs[n]) && !Full(p) then Take(p, n, fs[n].field) else p
  }

  /** The taken filters are reference filters, in order, and their fields are the names. */
  ghost predicate PassOk(env: Env, fields: seq<Field>, fs: seq<FieldFilter>, p: Pass) {
    && (forall i :: 0 <= i < |p.handled| ==> p.handled[i] < |fs| && IsRef(env, fields, fs[p.handled[i]]))
    && (forall i, j :: 0 <= i < j < |p.handled| ==> p.handled[i] != p.handled[j])
    && (forall i :: i in p.handled ==> i < |fs| && fs[i].field in p.names)
    && (forall n :: n in p.names ==> exists i :: i in p.handled && i < |fs| && fs[i].field == n)
    && Distinct(p.names) && |p.handled| <= MAX_VALUES && |p.names| <= MAX_FIELDS
  }

  lemma MoreFilters(env: Env, fields: seq<Field>, fs: seq<FieldFilter>, f: FieldFilter, p: Pass)
    requires PassOk(env, fields, fs, p)
    ensures PassOk(env, fields, fs + [f], p) && |fs| !in p.handled
  {
    hide IsRef;
    forall n | n in p.names ensures exists i :: i in p.handled && i < |fs + [f]| && (fs + [f])[i].field == n {
      var i :| i in p.handled && i < |fs| && fs[i].field == n;
      assert (fs + [f])[i] == fs[i];
    }
  }

  lemma TakeOk(env: Env, fields: seq<Field>, fs: seq<FieldFilter>, i: nat, p: Pass)
    requires PassOk(env, fields, fs, p) && i < |fs| && i !in p.handled && IsRef(env, fields, fs[i]) && !Full(p)
    ensures PassOk(env, fields, fs, Take(p, i, fs[i].field))
  {
    hide IsRef;
    var q := Take(p, i, fs[i].field);
    assert i in q.handled && forall j :: j in p.handled ==> j in q.handled;
  }

  lemma PassZeroStep(env: Env, fields: seq<Field>, fs: seq<FieldFilter>)
    requires fs != []
    ensures var front, f := fs[..|fs| - 1], fs[|fs| - 1];
            var p := PassZero(env, fields, front);
            && fs == front + [f]
            && PassZero(env, fields, fs) == if IsRef(env, fields, f) && !Full(p) then Take(p, |front|, f.field) else p
  {
    hide IsRef, Full, Take;
  }

  lemma NothingTaken(env: Env, fields: seq<Field>)
    ensures PassZero(env, fields, []) == Pass([], []) && PassOk(env, fields, [], Pass([], []))
  {
  }

  lemma {:induction false} PassZeroOk(env: Env, fields: seq<Field>, fs: seq<FieldFilter>)
    ensures PassOk(env, fields, fs, PassZero(env, fields, fs))
  {
    hide *;
    if fs == [] {
      NothingTaken(env, fields);
    } else {
      var front, f := fs[..|fs| - 1], fs[|fs| - 1];
      var p := PassZero(env, fields, front);
      PassZeroOk(env, fields, front);
      PassZeroStep(env, fields, fs);
      MoreFilters(env, fields, front, f, p);
      if IsRef(env, fields, f) && !Full(p) {
        TakeOk(env, fields, fs, |front|, p);
      }
    }
  }

  lemma {:induction false} FullStays(env: Env, fields: seq<Field>, fs: seq<FieldFilter>, i: nat)
    requires i <= |fs| && Full(PassZero(env, fields, fs[..i]))
    ensures PassZero(env, fields, fs) == PassZero(env, fields, fs[..i])
  {
    if i < |fs| {
      assert fs[..|fs| - 1][..i] == fs[..i];
      FullStays(env, fields, fs[..|fs| - 1], i);
    } else {
      assert fs[..i] == fs;
    }
  }

  lemma PassStep(env: Env, fields: seq<Field>, fs: seq<FieldFilter>, i: nat)
    requires i < |fs|
    ensures var p := PassZero(env, fields, fs[..i]);
            PassZero(env, fields, fs[..i + 1])
            == if IsRef(env, fields, fs[i]) && !Full(p) then Take(p, i, fs[i].field) else p
    ensures PassOk(env, fields, fs[..i], PassZero(env, fields, fs[..i]))
  {
    assert fs[..i + 1][..i] == fs[..i];
    PassZeroOk(env, fields, fs[..i]);
  }

  function Members(h: seq<nat>): set<nat> {
    set i | i in h
  }

  predicate InGroup(fs: seq<FieldFilter>, h: set<nat>, name: string, i: nat) {
    i in h && i < |fs| && fs[i].field == name
  }

  /** The taken filters on one field, in order. */
  function GroupOf(fs: seq<FieldFilter>, handled: seq<nat>, name: string): (g: seq<nat>)
    ensures forall k :: 0 <= k < |g| ==> g[k] < |fs|
  {
    if handled == [] then []
    else
      var before, i := GroupOf(fs, handled[..|handled| - 1], name), handled[|handled| - 1];
      if i < |fs| && fs[i].field == name then before + [i] else before
  }

  lemma {:induction false} GroupOfIn(fs: seq<FieldFilter>, handled: seq<nat>, name: string)
    ensures forall i :: i in GroupOf(fs, handled, name) <==> InGroup(fs, Members(handled), name, i)
  {
    if handled != [] {
      GroupOfIn(fs, handled[..|handled| - 1], name);
      assert handled == handled[..|handled| - 1] + [handled[|handled| - 1]];
    }
  }

  lemma GroupOfSnoc(fs: seq<FieldFilter>, handled: seq<nat>, i: nat, name: string)
    ensures GroupOf(fs, handled + [i], name)
            == if i < |fs| && fs[i].field == name then GroupOf(fs, handled, name) + [i] else GroupOf(fs, handled, name)
  {
    assert (handled + [i])[..|handled|] == handled;
  }

  /** What `ref_hd` holds for a field: the filters taken over, if it is a plain reference. */
  function Tracked(fields: seq<Field>, fs: seq<FieldFilter>, handled: seq<nat>, name: string): (r: seq<nat>)
    ensures forall k :: 0 <= k < |r| ==> r[k] < |fs|
  {
    if KindOf(fields, name) == Reference then GroupOf(fs, handled, name) else []
  }

  ghost predicate Tracks(fields: seq<Field>, fs: seq<FieldFilter>, p: Pass, refs: seq<seq<nat>>) {
    |refs| == |p.names| && forall k :: 0 <= k < |refs| ==> refs[k] == Tracked(fields, fs, p.handled, p.names[k])
  }

  /** Where `ref_hd` notes a filter that is taken over. */
  function Note(fields: seq<Field>, p: Pass, refs: seq<seq<nat>>, i: nat, name: string): seq<seq<nat>>
    requires |refs| == |p.names|
  {
    var k := IndexIn(p.names, name);
    var wide := if k == |p.names| then refs + [[]] else refs;
    if KindOf(fields, name) == Reference then wide[k := wide[k] + [i]] else wide
  }

  function IndexIn(names: seq<string>, name: string): (k: nat)
    ensures k <= |names| && (k < |names| <==> name in names) && (k < |names| ==> names[k] == name)
  {
    if names == [] || names[0] == name then 0 else 1 + IndexIn(names[1..], name)
  }

  /** The collecting loop of `prefilter_multi_ref`. */
  method CollectRefs(env: Env, fields: seq<Field>, filters: array<FieldFilter>)
    returns (p: Pass, refs: seq<seq<nat>>)
    ensures p == PassZero(env, fields, filters[..]) && Tracks(fields, filters[..], p, refs)
  {
    ghost var fs := filters[..];
    p, refs := Pass([], []), [];
    assert fs[..0] == [] && PassZero(env, fields, []) == p && Tracks(fields, fs, p, refs);
    hide *;
    for i := 0 to filters.Length
      invariant fs == filters[..] && p == PassZero(env, fields, fs[..i])
      invariant Tracks(fields, fs, p, refs)
    {
      PassStep(env, fields, fs, i);
      assert filters[i] == fs[i];
      if IsRef(env, fields, filters[i]) {
        if Full(p) {
          FullStays(env, fields, fs, i);
          return;
        }
        NoteTracks(env, fields, fs, p, refs, i);
        refs := Note(fields, p, refs, i, filters[i].field);
        p := Take(p, i, filters[i].field);
      }
    }
    assert fs[..|fs|] == fs;
  }

  lemma NoteTracks(env: Env, fields: seq<Field>, fs: seq<FieldFilter>, p: Pass, refs: seq<seq<nat>>, i: nat)
    requires i < |fs| && PassOk(env, fields, fs[..i], p) && Tracks(fields, fs, p, refs)
    ensures |refs| == |p.names|
    ensures Tracks(fields, fs, Take(p, i, fs[i].field), Note(fields, p, refs, i, fs[i].field))
  {
    hide KindOf, IndexIn, PassOk, Tracked;
    var name := fs[i].field;
    var q, now := Take(p, i, name), Note(fields, p, refs, i, name);
    PassNames(env, fields, fs[..i], p);
    if name !in p.names {
      NewName(env, fields, fs, p, i, name);
    }
    forall k | 0 <= k < |now| ensures now[k] == Tracked(fields, fs, q.handled, q.names[k]) {
      TrackedSnoc(fields, fs, p.handled, i, q.names[k]);
    }
  }

  lemma PassNames(env: Env, fields: seq<Field>, fs: seq<FieldFilter>, p: Pass)
    requires PassOk(env, fields, fs, p)
    ensures Distinct(p.names)
  {
  }

  lemma TrackedSnoc(fields: seq<Field>, fs: seq<FieldFilter>, handled: seq<nat>, i: nat, n: string)
    requires i < |fs|
    ensures Tracked(fields, fs, handled + [i], n)
            == if n == fs[i].field && KindOf(fields, n) == Reference then Tracked(fields, fs, handled, n) + [i]
               else Tracked(fields, fs, handled, n)
  {
    hide KindOf, GroupOf;
    GroupOfSnoc(fs, handled, i, n);
  }

  lemma NewName(env: Env, fields: seq<Field>, fs: seq<FieldFilter>, p: Pass, i: nat, name: string)
    requires i <= |fs| && PassOk(env, fields, fs[..i], p) && name !in p.names
    ensures Tracked(fields, fs, p.handled, name) == []
  {
    hide IsRef, GroupOf;
    GroupOfIn(fs, p.handled, name);
    assert forall j: nat :: j in p.handled ==> fs[..i][j] == fs[j];
    SomeMember(GroupOf(fs, p.handled, name));
  }

  lemma SomeMember(g: seq<nat>)
    ensures g == [] || exists i :: i in g
  {
    if g != [] {
      assert g[0] in g;
    }
  }

  // ---- references: pruning -----------------------------------------------------------------

  predicate InRange(h: seq<nat>, n: nat) {
    forall k :: 0 <= k < |h| ==> h[k] < n
  }

  /** Two taken filters ask for different values. */
  ghost predicate TwoValues(fs: seq<FieldFilter>, h: seq<nat>) {
    exists i, j :: i in h && j in h && i < |fs| && j < |fs| && fs[i].value != fs[j].value
  }

  function ValuesAt(fs: seq<FieldFilter>, refs: seq<nat>): (r: seq<Option<string>>)
    requires InRange(refs, |fs|)
    ensures |r| == |refs| && forall k :: 0 <= k < |refs| ==> r[k] == fs[refs[k]].value
  {
    seq(|refs|, k requires 0 <= k < |refs| => fs[refs[k]].value)
  }

  /** The count of distinct values, which stops mattering at two. */
  method CountDistinct(filters: array<FieldFilter>, refs: seq<nat>) returns (nd: nat)
    requires InRange(refs, filters.Length)
    ensures nd >= 2 <==> TwoValues(filters[..], refs)
  {
    ghost var fs := filters[..];
    var distinct: seq<Option<string>> := [];
    for hi := 0 to |refs|
      invariant fs == filters[..]
      invariant forall v :: v in distinct <==> v in ValuesAt(fs, refs)[..hi]
      invariant forall a, b :: 0 <= a < b < |distinct| ==> distinct[a] != distinct[b]
    {
      var v := filters[refs[hi]].value;
      assert ValuesAt(fs, refs)[..hi + 1] == ValuesAt(fs, refs)[..hi] + [v];
      if v !in distinct {
        distinct := distinct + [v];
      }
    }
    assert ValuesAt(fs, refs)[..|refs|] == ValuesAt(fs, refs);
    nd := |distinct|;
    TwoIff(fs, refs, distinct);
  }

  lemma TwoIff(fs: seq<FieldFilter>, refs: seq<nat>, distinct: seq<Option<string>>)
    requires InRange(refs, |fs|)
    requires forall v :: v in distinct <==> v in ValuesAt(fs, refs)
    requires forall a, b :: 0 <= a < b < |distinct| ==> distinct[a] != distinct[b]
    ensures |distinct| >= 2 <==> TwoValues(fs, refs)
  {
    var vs := ValuesAt(fs, refs);
    if |distinct| >= 2 {
      assert distinct[0] in distinct && distinct[1] in distinct;
      var a :| 0 <= a < |vs| && vs[a] == distinct[0];
      var b :| 0 <= b < |vs| && vs[b] == distinct[1];
      assert refs[a] in refs && refs[b] in refs;
    }
    if TwoValues(fs, refs) {
      var i, j :| i in refs && j in refs && i < |fs| && j < |fs| && fs[i].value != fs[j].value;
      var a :| 0 <= a < |refs| && refs[a] == i;
      var b :| 0 <= b < |refs| && refs[b] == j;
      assert vs[a] in distinct && vs[b] in distinct;
    }
  }

  /** The entry is gone and the last one is in its place. */
  function SwapOut(handled: seq<nat>, drop: nat): seq<nat> {
    var at := FirstAt(handled, drop, 0);
    if at == |handled| then handled else handled[at := handled[|handled| - 1]][..|handled| - 1]
  }

  /** Index of the first x from here on, or the length. */
  function FirstAt(handled: seq<nat>, x: nat, from: nat): (k: nat)
    requires from <= |handled|
    ensures from <= k <= |handled| && (k < |handled| ==> handled[k] == x)
    ensures forall j :: from <= j < k ==> handled[j] != x
    decreases |handled| - from
  {
    if from == |handled| || handled[from] == x then from else FirstAt(handled, x, from + 1)
  }

  function DropEach(handled: seq<nat>, drops: seq<nat>): seq<nat> {
    if drops == [] then handled
    else SwapOut(DropEach(handled, drops[..|drops| - 1]), drops[|drops| - 1])
  }

  /** Remove one entry by moving the last one into its place. */
  method SwapRemove(handled: seq<nat>, drop: nat) returns (out: seq<nat>)
    ensures out == SwapOut(handled, drop)
  {
    for h3 := 0 to |handled|
      invariant forall k :: 0 <= k < h3 ==> handled[k] != drop
    {
      if handled[h3] == drop {
        assert FirstAt(handled, drop, 0) == h3;
        var last := |handled| - 1;
        out := handled[h3 := handled[last]][..last];
        return;
      }
    }
    assert FirstAt(handled, drop, 0) == |handled|;
    out := handled;
  }

  /** Nothing else is removed, and nothing twice. */
  lemma SwapOutMembers(handled: seq<nat>, drop: nat)
    requires Distinct(handled)
    ensures Distinct(SwapOut(handled, drop)) && Members(SwapOut(handled, drop)) == Members(handled) - {drop}
  {
    var at := FirstAt(handled, drop, 0);
    if at < |handled| {
      Swapped(handled, at, SwapOut(handled, drop));
    } else {
      assert drop !in handled;
    }
  }

  lemma {:induction false} DropEachMembers(handled: seq<nat>, drops: seq<nat>)
    requires Distinct(handled)
    ensures var out := DropEach(handled, drops);
            Distinct(out) && Members(out) == Members(handled) - Members(drops)
  {
    if drops != [] {
      var front, last := drops[..|drops| - 1], drops[|drops| - 1];
      DropEachMembers(handled, front);
      SwapOutMembers(DropEach(handled, front), last);
      assert drops == front + [last];
      assert Members(drops) == Members(front) + {last};
      hide Members, Distinct, SwapOut;
    }
  }

  lemma Swapped(h: seq<nat>, at: nat, out: seq<nat>)
    requires Distinct(h) && at < |h| && out == h[at := h[|h| - 1]][..|h| - 1]
    ensures Distinct(out) && Members(out) == Members(h) - {h[at]}
  {
    forall i ensures i in out <==> i in h && i != h[at] {
      if i in h && i != h[at] {
        var k :| 0 <= k < |h| && h[k] == i;
        assert out[if k == |h| - 1 then at else k] == i;
      }
      if i in out {
        var k :| 0 <= k < |out| && out[k] == i;
        assert h[if k == at then |h| - 1 else k] == i;
      }
    }
  }

  method DropAll(handled: seq<nat>, drops: seq<nat>) returns (out: seq<nat>)
    ensures out == DropEach(handled, drops)
  {
    out := handled;
    assert drops[..|drops|] == drops;
    for h2 := 0 to |drops|
      invariant out == DropEach(handled, drops[..h2])
    {
      assert drops[..h2 + 1][..h2] == drops[..h2];
      hide SwapOut;
      out := SwapRemove(out, drops[h2]);
    }
  }

  /** A plain reference field asked for one value only. */
  ghost predicate OneValued(fields: seq<Field>, fs: seq<FieldFilter>, p: Pass, name: string) {
    KindOf(fields, name) == Reference &&
    forall i, j :: (i in p.handled && j in p.handled && i < |fs| && j < |fs|
                    && fs[i].field == name && fs[j].field == name) ==> fs[i].value == fs[j].value
  }

  /** The taken filters that stay: all but those of one-valued plain references. */
  ghost function Grouped(fields: seq<Field>, fs: seq<FieldFilter>, p: Pass): set<nat> {
    set i | i in p.handled && i < |fs| && !OneValued(fields, fs, p, fs[i].field)
  }

  ghost function PrunedTo(fields: seq<Field>, fs: seq<FieldFilter>, p: Pass, k: nat): set<nat>
    requires k <= |p.names|
  {
    set i | i in p.handled && i < |fs| && !(fs[i].field in p.names[..k] && OneValued(fields, fs, p, fs[i].field))
  }

  /** The taken filters once the first k fields are pruned. */
  ghost function PrunedBy(fields: seq<Field>, fs: seq<FieldFilter>, p: Pass, k: nat): seq<nat>
    requires k <= |p.names|
  {
    if k == 0 then p.handled
    else
      var before, g := PrunedBy(fields, fs, p, k - 1), GroupOf(fs, p.handled, p.names[k - 1]);
      if KindOf(fields, p.names[k - 1]) == Reference && !TwoValues(fs, g) then DropEach(before, g) else before
  }

  /** The filters that the groups are made of, in the order that pruning leaves them in. */
  ghost function Order(env: Env, fields: seq<Field>, fs: seq<FieldFilter>): seq<nat> {
    var p := PassZero(env, fields, fs);
    PrunedBy(fields, fs, p, |p.names|)
  }

  /** The pruning loop of `prefilter_multi_ref`. */
  method PruneRefs(fields: seq<Field>, filters: array<FieldFilter>, p: Pass, refs: seq<seq<nat>>)
    returns (handled: seq<nat>)
    requires Tracks(fields, filters[..], p, refs)
    ensures handled == PrunedBy(fields, filters[..], p, |p.names|)
  {
    handled := p.handled;
    ghost var fs := filters[..];
    for k := 0 to |p.names|
      invariant fs == filters[..] && handled == PrunedBy(fields, fs, p, k)
    {
      hide DropEach, KindOf, TwoValues, GroupOf;
      if KindOf(fields, p.names[k]) == Reference {
        var nd := CountDistinct(filters, refs[k]);
        if nd < 2 {
          handled := DropAll(handled, refs[k]);
        }
      }
    }
  }

  lemma {:induction false} PrunedDistinct(fields: seq<Field>, fs: seq<FieldFilter>, p: Pass, k: nat)
    requires Distinct(p.handled) && k <= |p.names|
    ensures Distinct(PrunedBy(fields, fs, p, k))
  {
    hide KindOf, TwoValues, GroupOf, DropEach, Distinct;
    if k > 0 {
      PrunedDistinct(fields, fs, p, k - 1);
      DropEachMembers(PrunedBy(fields, fs, p, k - 1), GroupOf(fs, p.handled, p.names[k - 1]));
    }
  }

  /** The order lists exactly the filters that stay, each once. */
  lemma {:induction false} PrunedMembers(env: Env, fields: seq<Field>, fs: seq<FieldFilter>, p: Pass, k: nat)
    requires PassOk(env, fields, fs, p) && k <= |p.names|
    ensures Members(PrunedBy(fields, fs, p, k)) == PrunedTo(fields, fs, p, k)
  {
    hide IsRef, OneValued, KindOf, TwoValues, GroupOf, DropEach;
    if k > 0 {
      PrunedMembers(env, fields, fs, p, k - 1);
      PruneStep(env, fields, fs, p, k - 1);
      PrunedDistinct(fields, fs, p, k - 1);
      DropEachMembers(PrunedBy(fields, fs, p, k - 1), GroupOf(fs, p.handled, p.names[k - 1]));
    }
  }

  lemma OrderMembers(env: Env, fields: seq<Field>, fs: seq<FieldFilter>)
    ensures Distinct(Order(env, fields, fs)) && Members(Order(env, fields, fs)) == RefSet(env, fields, fs)
  {
    var p := PassZero(env, fields, fs);
    PassZeroOk(env, fields, fs);
    PrunedDistinct(fields, fs, p, |p.names|);
    PrunedMembers(env, fields, fs, p, |p.names|);
    hide IsRef, OneValued, KindOf, PrunedBy, PassZero;
    assert p.names[..|p.names|] == p.names;
  }

  lemma PruneStep(env: Env, fields: seq<Field>, fs: seq<FieldFilter>, p: Pass, k: nat)
    requires PassOk(env, fields, fs, p) && k < |p.names|
    ensures var g := GroupOf(fs, p.handled, p.names[k]);
            PrunedTo(fields, fs, p, k + 1)
            == if KindOf(fields, p.names[k]) == Reference && !TwoValues(fs, g)
               then PrunedTo(fields, fs, p, k) - Members(g) else PrunedTo(fields, fs, p, k)
  {
    hide IsRef, KindOf, GroupOf;
    GroupOfIn(fs, p.handled, p.names[k]);
    OneValuedIff(fields, fs, p, p.names[k]);
    hide OneValued, TwoValues;
    assert p.names[..k + 1] == p.names[..k] + [p.names[k]];
  }

  lemma OneValuedIff(fields: seq<Field>, fs: seq<FieldFilter>, p: Pass, name: string)
    ensures OneValued(fields, fs, p, name)
            <==> KindOf(fields, name) == Reference && !TwoValues(fs, GroupOf(fs, p.handled, name))
  {
    GroupOfIn(fs, p.handled, name);
    hide KindOf, GroupOf;
  }

  // ---- references: row sets ------------------------------------------------------------------

  const POS_SIZE := 64

  /** What a filter value is stored as: a position, or the slug, cut to its buffer for a
      multi-reference field. */
  function Needle(env: Env, fields: seq<Field>, f: FieldFilter): (v: string)
    ensures HasValue(f) ==> v != ""
  {
    var v := f.value.GetOr("");
    var target := TargetOf(env, fields, f.field);
    if KindOf(fields, f.field) == Reference then v
    else if target.Some? && target.value.pos(v).Some? then
      ValOfDigits(target.value.pos(v).value);
      Digits(target.value.pos(v).value)
    else v[..Min(|v|, POS_SIZE - 1)]
  }

  /** A row's cell refers to what the filter asks for. */
  predicate Refers(env: Env, fields: seq<Field>, cells: Cells, f: FieldFilter, row: string) {
    var cell := Cell(cells, row, f.field);
    cell.Some? && if KindOf(fields, f.field) == Reference then cell.value == Needle(env, fields, f)
                  else HasToken(cell.value, Needle(env, fields, f))
  }

  /** All values are needed rather than any: the filter's operator, or the field's default. */
  predicate NeedsAll(fields: seq<Field>, f: FieldFilter) {
    var i := FieldIndex(fields, f.field);
    if f.op.Some? then f.op.value == "and" else i < |fields| && fields[i].combine
  }

  /** Filters of one field carry one operator, as the query parser makes them. */
  ghost predicate OpsAgree(fs: seq<FieldFilter>) {
    forall i, j :: 0 <= i < |fs| && 0 <= j < |fs| && fs[i].field == fs[j].field ==> fs[i].op == fs[j].op
  }

  ghost predicate Active(fs: seq<FieldFilter>, h: set<nat>, name: string) {
    exists i :: InGroup(fs, h, name, i)
  }

  /** A row refers to all, or to any, of what the group of filters on one field asks for. */
  ghost predicate GroupOk(env: Env, fields: seq<Field>, cells: Cells, fs: seq<FieldFilter>, h: set<nat>,
                          name: string, all: bool, row: string)
  {
    if all then forall i: nat :: InGroup(fs, h, name, i) ==> Refers(env, fields, cells, fs[i], row)
    else exists i: nat :: InGroup(fs, h, name, i) && Refers(env, fields, cells, fs[i], row)
  }

  /** What the planner tests of a row. */
  predicate RowMatches(cells: Cells, kind: Kind, all: bool, vals: seq<string>, name: string, row: string) {
    var cell := Cell(cells, row, name);
    if kind == Reference then !all && cell.Some? && cell.value in vals
    else if all then cell.Some? && vals != [] && HasAllTokens(cell.value, vals)
    else cell.Some? && HasAnyToken(cell.value, vals)
  }

  function MatchingRows(cells: Cells, kind: Kind, all: bool, vals: seq<string>, name: string,
                        base: seq<string>): set<string>
  {
    set r | r in base && RowMatches(cells, kind, all, vals, name, r)
  }

  /** The row loop of one field. */
  method GroupRows(cells: Cells, kind: Kind, all: bool, vals: seq<string>, name: string, base: seq<string>)
    returns (rows: seq<string>)
    requires "" !in vals
    ensures rows == Sift(base, MatchingRows(cells, kind, all, vals, name, base))
  {
    hide HasAllTokens, HasAnyToken, Cell;
    ghost var keep := MatchingRows(cells, kind, all, vals, name, base);
    rows := [];
    assert base[..0] == [];
    for i := 0 to |base|
      invariant rows == Sift(base[..i], keep)
    {
      SiftSnoc(base, i, keep);
      var cell := Cell(cells, base[i], name);
      var m: bool;
      if kind == Reference {
        m := !all && cell.Some? && cell.value in vals;
      } else if all {
        m := MultiRefAllTokensMatch(cell, vals);
      } else {
        m := MultiRefTokenMatch(cell, vals);
      }
      if m {
        rows := rows + [base[i]];
      }
    }
    assert base[..|base|] == base;
  }

  function NeedlesOf(env: Env, fields: seq<Field>, fs: seq<FieldFilter>, g: seq<nat>): (vals: seq<string>)
    requires forall k :: 0 <= k < |g| ==> g[k] < |fs|
    ensures |vals| == |g| && forall k :: 0 <= k < |g| ==> vals[k] == Needle(env, fields, fs[g[k]])
  {
    seq(|g|, k requires 0 <= k < |g| => Needle(env, fields, fs[g[k]]))
  }

  function FirstOp(fs: seq<FieldFilter>, g: seq<nat>): Option<string>
    requires forall k :: 0 <= k < |g| ==> g[k] < |fs|
  {
    if g == [] then None
    else
      var before := FirstOp(fs, g[..|g| - 1]);
      if before.Some? then before else fs[g[|g| - 1]].op
  }

  lemma {:induction false} FirstOpIsTheOp(fs: seq<FieldFilter>, g: seq<nat>, name: string)
    requires OpsAgree(fs) && forall k :: 0 <= k < |g| ==> g[k] < |fs| && fs[g[k]].field == name
    ensures forall k :: 0 <= k < |g| ==> FirstOp(fs, g) == fs[g[k]].op
  {
    if |g| > 1 {
      FirstOpIsTheOp(fs, g[..|g| - 1], name);
      assert fs[g[|g| - 1]].op == fs[g[0]].op == FirstOp(fs, g[..|g| - 1]);
    }
  }

  lemma GroupSnoc(env: Env, fields: seq<Field>, fs: seq<FieldFilter>, handled: seq<nat>, i: nat, name: string)
    requires i < |handled|
    ensures var g, h := GroupOf(fs, handled[..i], name), handled[i];
            if h < |fs| && fs[h].field == name then
              && NeedlesOf(env, fields, fs, GroupOf(fs, handled[..i + 1], name))
                 == NeedlesOf(env, fields, fs, g) + [Needle(env, fields, fs[h])]
              && FirstOp(fs, GroupOf(fs, handled[..i + 1], name))
                 == if FirstOp(fs, g).Some? then FirstOp(fs, g) else fs[h].op
            else GroupOf(fs, handled[..i + 1], name) == g
  {
    assert handled[..i + 1][..i] == handled[..i];
    hide Needle;
    var g := GroupOf(fs, handled[..i], name);
    assert (g + [handled[i]])[..|g|] == g;
  }

  /** Collect the values of a field's group, and its first operator. */
  method GroupValues(env: Env, fields: seq<Field>, filters: array<FieldFilter>, handled: seq<nat>, name: string)
    returns (vals: seq<string>, op: Option<string>)
    requires InRange(handled, filters.Length)
    ensures var g := GroupOf(filters[..], handled, name);
            vals == NeedlesOf(env, fields, filters[..], g) && op == FirstOp(filters[..], g)
  {
    ghost var fs := filters[..];
    vals, op := [], None;
    assert handled[..|handled|] == handled && handled[..0] == [];
    for hi := 0 to |handled|
      invariant fs == filters[..]
      invariant vals == NeedlesOf(env, fields, fs, GroupOf(fs, handled[..hi], name))
      invariant op == FirstOp(fs, GroupOf(fs, handled[..hi], name))
    {
      GroupSnoc(env, fields, fs, handled, hi, name);
      var f := filters[handled[hi]];
      hide GroupOf, NeedlesOf, FirstOp, Needle;
      assert f == fs[handled[hi]];
      if f.field == name {
        if f.op.Some? && op.None? {
          op := f.op;
        }
        vals := vals + [Needle(env, fields, f)];
      }
    }
  }

  /** The planner's row test is the group's meaning.  For a plain reference asked for two values
      or more, needing all of them fails at once, as no cell equals two values. */
  lemma RowMatchesIsGroupOk(env: Env, fields: seq<Field>, cells: Cells, fs: seq<FieldFilter>, handled: seq<nat>,
                            name: string, all: bool, row: string)
    requires var g := GroupOf(fs, handled, name);
             && g != [] && (forall k :: 0 <= k < |g| ==> fs[g[k]].field == name && HasValue(fs[g[k]]))
             && (KindOf(fields, name) == Reference ==> TwoValues(fs, g))
    ensures RowMatches(cells, KindOf(fields, name), all, NeedlesOf(env, fields, fs, GroupOf(fs, handled, name)),
                       name, row)
            <==> GroupOk(env, fields, cells, fs, Members(handled), name, all, row)
  {
    var g := GroupOf(fs, handled, name);
    GroupOfIn(fs, handled, name);
    hide KindOf, HasToken, Cell, GroupOf;
    var vals := NeedlesOf(env, fields, fs, g);
    assert forall i :: InGroup(fs, Members(handled), name, i) ==> i in g;
    assert forall k :: 0 <= k < |g| ==> g[k] in g;
    if all {
      GroupAll(env, fields, cells, fs, g, name, row);
    } else {
      GroupAny(env, fields, cells, fs, g, name, row);
    }
  }

  lemma GroupAll(env: Env, fields: seq<Field>, cells: Cells, fs: seq<FieldFilter>, g: seq<nat>, name: string,
                 row: string)
    requires g != [] && forall k :: 0 <= k < |g| ==> g[k] < |fs| && fs[g[k]].field == name && HasValue(fs[g[k]])
    requires KindOf(fields, name) == Reference ==> TwoValues(fs, g)
    ensures RowMatches(cells, KindOf(fields, name), true, NeedlesOf(env, fields, fs, g), name, row)
            <==> forall k :: 0 <= k < |g| ==> Refers(env, fields, cells, fs[g[k]], row)
  {
    hide KindOf, HasToken, Cell;
    var vals := NeedlesOf(env, fields, fs, g);
    var cell := Cell(cells, row, name);
    if KindOf(fields, name) == Reference {
      var i, j :| i in g && j in g && i < |fs| && j < |fs| && fs[i].value != fs[j].value;
      var a :| 0 <= a < |g| && g[a] == i;
      var b :| 0 <= b < |g| && g[b] == j;
      assert !(Refers(env, fields, cells, fs[g[a]], row) && Refers(env, fields, cells, fs[g[b]], row));
    } else {
      hide Needle;
      assert vals[0] == Needle(env, fields, fs[g[0]]);
      if cell.Some? {
        assert forall k :: 0 <= k < |g| ==>
          (Refers(env, fields, cells, fs[g[k]], row) <==> HasToken(cell.value, vals[k]));
      } else {
        assert !Refers(env, fields, cells, fs[g[0]], row);
      }
    }
  }

  lemma GroupAny(env: Env, fields: seq<Field>, cells: Cells, fs: seq<FieldFilter>, g: seq<nat>, name: string,
                 row: string)
    requires forall k :: 0 <= k < |g| ==> g[k] < |fs| && fs[g[k]].field == name
    ensures RowMatches(cells, KindOf(fields, name), false, NeedlesOf(env, fields, fs, g), name, row)
            <==> exists k :: 0 <= k < |g| && Refers(env, fields, cells, fs[g[k]], row)
  {
    hide KindOf, HasToken, Cell, Needle;
    var vals := NeedlesOf(env, fields, fs, g);
    var cell := Cell(cells, row, name);
    if cell.Some? {
      assert forall k :: 0 <= k < |g| ==>
        (Refers(env, fields, cells, fs[g[k]], row)
         <==> if KindOf(fields, name) == Reference then cell.value == vals[k] else HasToken(cell.value, vals[k]));
    }
  }

  /** Needing all is stricter than needing any, and the same for filters that ask for one value. */
  lemma AllWithinAny(env: Env, fields: seq<Field>, cells: Cells, fs: seq<FieldFilter>, h: set<nat>, name: string,
                     row: string)
    requires Active(fs, h, name)
    ensures GroupOk(env, fields, cells, fs, h, name, true, row) ==> GroupOk(env, fields, cells, fs, h, name, false, row)
    ensures (forall i: nat, j: nat ::
               InGroup(fs, h, name, i) && InGroup(fs, h, name, j) ==> fs[i].value == fs[j].value) ==>
              (GroupOk(env, fields, cells, fs, h, name, true, row)
               <==> GroupOk(env, fields, cells, fs, h, name, false, row))
  {
    var i: nat :| InGroup(fs, h, name, i);
    forall j: nat | InGroup(fs, h, name, j) && fs[j].value == fs[i].value
      ensures Refers(env, fields, cells, fs[j], row) <==> Refers(env, fields, cells, fs[i], row)
    {
      SameValueRefers(env, fields, cells, fs[i], fs[j], row);
    }
    hide Refers;
  }

  lemma SameValueRefers(env: Env, fields: seq<Field>, cells: Cells, f: FieldFilter, g: FieldFilter, row: string)
    requires f.field == g.field && f.value == g.value
    ensures Refers(env, fields, cells, f, row) <==> Refers(env, fields, cells, g, row)
  {
  }

  /** `override_op ? strcmp(override_op, "and") == 0 : combine`. */
  predicate ModeOf(fields: seq<Field>, op: Option<string>, name: string) {
    var i := FieldIndex(fields, name);
    if op.Some? then op.value == "and" else i < |fields| && fields[i].combine
  }

  /** Whether a field's group needs all values: by the first operator among its filters, in the
      order they are kept in. */
  predicate GroupMode(fields: seq<Field>, fs: seq<FieldFilter>, order: seq<nat>, name: string) {
    ModeOf(fields, FirstOp(fs, GroupOf(fs, order, name)), name)
  }

  /** A row satisfies every group among the names. */
  ghost predicate GroupsOk(env: Env, fields: seq<Field>, cells: Cells, fs: seq<FieldFilter>, h: set<nat>,
                           order: seq<nat>, names: seq<string>, row: string)
  {
    forall n :: n in names && Active(fs, h, n) ==>
      GroupOk(env, fields, cells, fs, h, n, GroupMode(fields, fs, order, n), row)
  }

  ghost function GroupedRows(env: Env, fields: seq<Field>, cells: Cells, fs: seq<FieldFilter>, h: set<nat>,
                             order: seq<nat>, names: seq<string>, base: seq<string>): set<string>
  {
    set r | r in base && GroupsOk(env, fields, cells, fs, h, order, names, r)
  }

  ghost predicate AnyActive(fs: seq<FieldFilter>, h: set<nat>, names: seq<string>) {
    exists n :: n in names && Active(fs, h, n)
  }

  /** What the groups may assume of the filters still taken over. */
  ghost predicate Groupable(env: Env, fields: seq<Field>, fs: seq<FieldFilter>, handled: seq<nat>) {
    && (forall k :: 0 <= k < |handled| ==> handled[k] < |fs| && IsRef(env, fields, fs[handled[k]]))
    && (forall i :: 0 <= i < |fs| && i in handled && KindOf(fields, fs[i].field) == Reference ==>
          TwoValues(fs, GroupOf(fs, handled, fs[i].field)))
  }

  /** `intersect_hds`: keep, of the smaller set, what the larger one has too. */
  method IntersectRows(a: seq<string>, b: seq<string>, ghost base: seq<string>, ghost ka: set<string>,
                       ghost kb: set<string>)
    returns (out: seq<string>)
    requires a == Sift(base, ka) && b == Sift(base, kb)
    ensures out == Sift(base, ka * kb)
  {
    SiftMeet(base, ka, kb);
    SiftMeet(base, kb, ka);
    assert ka * kb == kb * ka;
    var x, y := a, b;
    if |a| > |b| {
      x, y := b, a;
    }
    var keep := Elements(y);
    out := [];
    assert x[..0] == [] && x[..|x|] == x;
    for i := 0 to |x|
      invariant out == Sift(x[..i], keep)
    {
      SiftSnoc(x, i, keep);
      if x[i] in y {
        out := out + [x[i]];
      }
    }
  }

  lemma NoGroupYet(env: Env, fields: seq<Field>, cells: Cells, fs: seq<FieldFilter>, h: set<nat>, handled: seq<nat>,
                   base: seq<string>)
    ensures !AnyActive(fs, h, []) && GroupedRows(env, fields, cells, fs, h, handled, [], base) == Elements(base)
  {
  }

  lemma GroupsStep(env: Env, fields: seq<Field>, cells: Cells, fs: seq<FieldFilter>, handled: seq<nat>,
                   names: seq<string>, k: nat, all: bool, base: seq<string>)
    requires k < |names| && Groupable(env, fields, fs, handled)
    requires all == GroupMode(fields, fs, handled, names[k])
    ensures var g, h := GroupOf(fs, handled, names[k]), Members(handled);
            && (g == [] <==> !Active(fs, h, names[k]))
            && (AnyActive(fs, h, names[..k + 1]) <==> AnyActive(fs, h, names[..k]) || g != [])
            && GroupedRows(env, fields, cells, fs, h, handled, names[..k + 1], base)
               == if g == [] then GroupedRows(env, fields, cells, fs, h, handled, names[..k], base)
                  else GroupedRows(env, fields, cells, fs, h, handled, names[..k], base)
                       * MatchingRows(cells, KindOf(fields, names[k]), all, NeedlesOf(env, fields, fs, g),
                                      names[k], base)
  {
    hide *;
    var g, h, name := GroupOf(fs, handled, names[k]), Members(handled), names[k];
    ActiveIff(fs, handled, name);
    assert names[..k + 1] == names[..k] + [name];
    GroupsSnoc(env, fields, cells, fs, h, handled, names[..k], name, base);
    if g != [] {
      MatchingIs(env, fields, cells, fs, handled, name, all, base);
    }
  }

  // The rows of one group.
  ghost function OneGroup(env: Env, fields: seq<Field>, cells: Cells, fs: seq<FieldFilter>, h: set<nat>,
                          name: string, all: bool, base: seq<string>): set<string>
  {
    set r | r in base && GroupOk(env, fields, cells, fs, h, name, all, r)
  }

  lemma MatchingIs(env: Env, fields: seq<Field>, cells: Cells, fs: seq<FieldFilter>, handled: seq<nat>,
                   name: string, all: bool, base: seq<string>)
    requires Groupable(env, fields, fs, handled) && GroupOf(fs, handled, name) != []
    ensures var vals := NeedlesOf(env, fields, fs, GroupOf(fs, handled, name));
            MatchingRows(cells, KindOf(fields, name), all, vals, name, base)
            == OneGroup(env, fields, cells, fs, Members(handled), name, all, base)
  {
    hide RowMatches, GroupOk, KindOf, GroupOf, Groupable, NeedlesOf;
    GroupReady(env, fields, fs, handled, name);
    forall r | r in base
      ensures RowMatches(cells, KindOf(fields, name), all, NeedlesOf(env, fields, fs, GroupOf(fs, handled, name)),
                         name, r)
              <==> GroupOk(env, fields, cells, fs, Members(handled), name, all, r)
    {
      RowMatchesIsGroupOk(env, fields, cells, fs, handled, name, all, r);
    }
  }

  lemma GroupsSnoc(env: Env, fields: seq<Field>, cells: Cells, fs: seq<FieldFilter>, h: set<nat>, order: seq<nat>,
                   names: seq<string>, name: string, base: seq<string>)
    ensures AnyActive(fs, h, names + [name]) <==> AnyActive(fs, h, names) || Active(fs, h, name)
    ensures GroupedRows(env, fields, cells, fs, h, order, names + [name], base)
            == if Active(fs, h, name)
               then GroupedRows(env, fields, cells, fs, h, order, names, base)
                    * OneGroup(env, fields, cells, fs, h, name, GroupMode(fields, fs, order, name), base)
               else GroupedRows(env, fields, cells, fs, h, order, names, base)
  {
    hide GroupOk, GroupMode, Active;
    assert forall n :: n in names + [name] <==> n in names || n == name;
  }

  lemma ActiveIff(fs: seq<FieldFilter>, handled: seq<nat>, name: string)
    ensures GroupOf(fs, handled, name) == [] <==> !Active(fs, Members(handled), name)
  {
    GroupOfIn(fs, handled, name);
    var g := GroupOf(fs, handled, name);
    hide GroupOf, InGroup;
    if g != [] {
      assert g[0] in g;
    }
  }

  lemma GroupReady(env: Env, fields: seq<Field>, fs: seq<FieldFilter>, handled: seq<nat>, name: string)
    requires Groupable(env, fields, fs, handled) && GroupOf(fs, handled, name) != []
    ensures var g := GroupOf(fs, handled, name);
            && (forall k :: 0 <= k < |g| ==> fs[g[k]].field == name && HasValue(fs[g[k]]))
            && (KindOf(fields, name) == Reference ==> TwoValues(fs, g))
  {
    GroupOfIn(fs, handled, name);
    var g := GroupOf(fs, handled, name);
    hide GroupOf, KindOf, TwoValues;
    forall k | 0 <= k < |g| ensures fs[g[k]].field == name && HasValue(fs[g[k]]) {
      assert g[k] in g;
    }
    assert g[0] in g;
  }

  lemma ModeIs(fields: seq<Field>, fs: seq<FieldFilter>, handled: seq<nat>, name: string)
    ensures GroupMode(fields, fs, handled, name) == ModeOf(fields, FirstOp(fs, GroupOf(fs, handled, name)), name)
  {
  }

  /** When the filters of a field agree, the order they are kept in does not matter. */
  lemma AgreedMode(fields: seq<Field>, fs: seq<FieldFilter>, order: seq<nat>, name: string, i: nat)
    requires OpsAgree(fs) && InGroup(fs, Members(order), name, i)
    ensures GroupMode(fields, fs, order, name) <==> NeedsAll(fields, fs[i])
  {
    GroupOfIn(fs, order, name);
    var g := GroupOf(fs, order, name);
    hide GroupOf;
    forall k | 0 <= k < |g| ensures fs[g[k]].field == name {
      assert g[k] in g;
    }
    FirstOpIsTheOp(fs, g, name);
    assert i in g;
    var k :| 0 <= k < |g| && g[k] == i;
  }

  /** The field loop of `prefilter_multi_ref`. */
  method CombineGroups(env: Env, fields: seq<Field>, cells: Cells, filters: array<FieldFilter>, handled: seq<nat>,
                       names: seq<string>, base: seq<string>)
    returns (rows: Option<seq<string>>)
    requires Groupable(env, fields, filters[..], handled)
    ensures var fs, h := filters[..], Members(handled);
            rows == if AnyActive(fs, h, names)
                    then Some(Sift(base, GroupedRows(env, fields, cells, fs, h, handled, names, base)))
                    else None
  {
    rows := None;
    NoGroupYet(env, fields, cells, filters[..], Members(handled), handled, base);
    assert names[..0] == [] && names[..|names|] == names;
    assert Combined(env, fields, cells, filters[..], handled, [], base, rows);
    hide GroupedRows, AnyActive, Groupable, Sift, Members;
    for fk := 0 to |names|
      invariant Combined(env, fields, cells, filters[..], handled, names[..fk], base, rows)
    {
      hide Combined;
      rows := CombineGroup(env, fields, cells, filters, handled, names, base, fk, rows);
    }
  }

  /** The groups of these names have been combined. */
  ghost predicate Combined(env: Env, fields: seq<Field>, cells: Cells, fs: seq<FieldFilter>, handled: seq<nat>,
                           names: seq<string>, base: seq<string>, rows: Option<seq<string>>)
  {
    var h := Members(handled);
    && rows == (if AnyActive(fs, h, names)
                then Some(Sift(base, GroupedRows(env, fields, cells, fs, h, handled, names, base))) else None)
    && (rows == None ==> GroupedRows(env, fields, cells, fs, h, handled, names, base) == Elements(base))
  }

  /** One round of the loop. */
  method CombineGroup(env: Env, fields: seq<Field>, cells: Cells, filters: array<FieldFilter>, handled: seq<nat>,
                      names: seq<string>, base: seq<string>, fk: nat, rows: Option<seq<string>>)
    returns (out: Option<seq<string>>)
    requires fk < |names| && Groupable(env, fields, filters[..], handled)
    requires Combined(env, fields, cells, filters[..], handled, names[..fk], base, rows)
    ensures Combined(env, fields, cells, filters[..], handled, names[..fk + 1], base, out)
  {
    hide *;
    var name := names[fk];
    GroupableRange(env, fields, filters[..], handled);
    var vals, op := GroupValues(env, fields, filters, handled, name);
    var all := ModeOf(fields, op, name);
    ModeIs(fields, filters[..], handled, name);
    ValuesReady(env, fields, filters[..], handled, name);
    CombineStep(env, fields, cells, filters[..], handled, names, base, fk, rows, all);
    if vals == [] {
      return rows;
    }
    var set1 := GroupRows(cells, KindOf(fields, name), all, vals, name, base);
    if rows.None? {
      return Some(set1);
    }
    ghost var before := GroupedRows(env, fields, cells, filters[..], Members(handled), handled, names[..fk], base);
    ghost var here := MatchingRows(cells, KindOf(fields, name), all, vals, name, base);
    var next := IntersectRows(rows.value, set1, base, before, here);
    return Some(next);
  }

  lemma CombineStep(env: Env, fields: seq<Field>, cells: Cells, fs: seq<FieldFilter>, handled: seq<nat>,
                    names: seq<string>, base: seq<string>, k: nat, rows: Option<seq<string>>, all: bool)
    requires k < |names| && Groupable(env, fields, fs, handled) && all == GroupMode(fields, fs, handled, names[k])
    requires Combined(env, fields, cells, fs, handled, names[..k], base, rows)
    ensures var vals := NeedlesOf(env, fields, fs, GroupOf(fs, handled, names[k]));
            var before := GroupedRows(env, fields, cells, fs, Members(handled), handled, names[..k], base);
            var here := MatchingRows(cells, KindOf(fields, names[k]), all, vals, names[k], base);
            var met := Sift(base, if rows.Some? then before * here else here);
            && (rows.Some? ==> rows.value == Sift(base, before))
            && Combined(env, fields, cells, fs, handled, names[..k + 1], base, if vals == [] then rows else Some(met))
  {
    GroupsStep(env, fields, cells, fs, handled, names, k, all, base);
    ValuesReady(env, fields, fs, handled, names[k]);
    MatchingInBase(cells, KindOf(fields, names[k]), all,
                   NeedlesOf(env, fields, fs, GroupOf(fs, handled, names[k])), names[k], base);
    hide GroupedRows, AnyActive, Groupable, Sift, Members, KindOf, MatchingRows, NeedlesOf, GroupOf, Active;
    hide GroupMode, Elements;
  }

  lemma MatchingInBase(cells: Cells, kind: Kind, all: bool, vals: seq<string>, name: string, base: seq<string>)
    ensures var m := MatchingRows(cells, kind, all, vals, name, base); Elements(base) * m == m
  {
  }

  lemma GroupableRange(env: Env, fields: seq<Field>, fs: seq<FieldFilter>, handled: seq<nat>)
    requires Groupable(env, fields, fs, handled)
    ensures InRange(handled, |fs|)
  {
  }

  lemma ValuesReady(env: Env, fields: seq<Field>, fs: seq<FieldFilter>, handled: seq<nat>, name: string)
    requires Groupable(env, fields, fs, handled)
    ensures "" !in NeedlesOf(env, fields, fs, GroupOf(fs, handled, name))
    ensures NeedlesOf(env, fields, fs, GroupOf(fs, handled, name)) == [] <==> GroupOf(fs, handled, name) == []
  {
    var g := GroupOf(fs, handled, name);
    if g != [] {
      GroupReady(env, fields, fs, handled, name);
    }
    hide GroupOf, Needle, Groupable;
  }

  // ---- references: the whole pre-filter --------------------------------------------------------

  function Cleared(fs: seq<FieldFilter>, h: set<nat>): (r: seq<FieldFilter>)
    ensures |r| == |fs|
    ensures forall i: nat :: i < |fs| ==> r[i] == if i in h then fs[i].(value := None) else fs[i]
  {
    seq(|fs|, i requires 0 <= i < |fs| => if i in h then fs[i].(value := None) else fs[i])
  }

  /** The filters that the reference pre-filter deals with. */
  ghost function RefSet(env: Env, fields: seq<Field>, fs: seq<FieldFilter>): set<nat> {
    Grouped(fields, fs, PassZero(env, fields, fs))
  }

  /** A row satisfies the group of every filter that the reference pre-filter deals with. */
  ghost predicate RefsOk(env: Env, fields: seq<Field>, cells: Cells, fs: seq<FieldFilter>, row: string) {
    forall i: nat :: i in RefSet(env, fields, fs) && i < |fs| ==>
      GroupOk(env, fields, cells, fs, RefSet(env, fields, fs), fs[i].field,
              GroupMode(fields, fs, Order(env, fields, fs), fs[i].field), row)
  }

  ghost function RefRows(env: Env, fields: seq<Field>, cells: Cells, fs: seq<FieldFilter>,
                         base: seq<string>): set<string>
  {
    set r | r in base && RefsOk(env, fields, cells, fs, r)
  }

  lemma StayingGroupable(env: Env, fields: seq<Field>, fs: seq<FieldFilter>, p: Pass, handled: seq<nat>)
    requires PassOk(env, fields, fs, p) && Members(handled) == Grouped(fields, fs, p)
    ensures Groupable(env, fields, fs, handled)
  {
    hide KindOf, IsRef, GroupOf;
    forall k | 0 <= k < |handled| ensures handled[k] < |fs| && IsRef(env, fields, fs[handled[k]]) {
      assert handled[k] in Members(handled);
    }
    forall i | 0 <= i < |fs| && i in handled && KindOf(fields, fs[i].field) == Reference
      ensures TwoValues(fs, GroupOf(fs, handled, fs[i].field))
    {
      var name := fs[i].field;
      assert i in Members(handled) && !OneValued(fields, fs, p, name);
      var a, b :| a in p.handled && b in p.handled && a < |fs| && b < |fs|
                  && fs[a].field == name && fs[b].field == name && fs[a].value != fs[b].value;
      assert a in Members(handled) && b in Members(handled);
      GroupOfIn(fs, handled, name);
      assert InGroup(fs, Members(handled), name, a) && InGroup(fs, Members(handled), name, b);
    }
  }

  lemma GroupsAreRefs(env: Env, fields: seq<Field>, cells: Cells, fs: seq<FieldFilter>, p: Pass, h: set<nat>,
                      base: seq<string>)
    requires PassOk(env, fields, fs, p) && h <= Members(p.handled) && h == RefSet(env, fields, fs)
    ensures AnyActive(fs, h, p.names) <==> h != {}
    ensures GroupedRows(env, fields, cells, fs, h, Order(env, fields, fs), p.names, base)
            == RefRows(env, fields, cells, fs, base)
  {
    hide IsRef, GroupOk, GroupMode, RefSet, Order;
    forall i: nat | i in h ensures i < |fs| && fs[i].field in p.names && Active(fs, h, fs[i].field) {
      assert i in Members(p.handled);
      assert InGroup(fs, h, fs[i].field, i);
    }
    forall r ensures GroupsOk(env, fields, cells, fs, h, Order(env, fields, fs), p.names, r)
                     <==> RefsOk(env, fields, cells, fs, r)
    {
      GroupsAreRefsAt(env, fields, cells, fs, p.names, h, r);
    }
    if h != {} {
      var i :| i in h;
      assert fs[i].field in p.names;
    }
  }

  lemma GroupsAreRefsAt(env: Env, fields: seq<Field>, cells: Cells, fs: seq<FieldFilter>, names: seq<string>,
                        h: set<nat>, row: string)
    requires forall i: nat :: i in h ==> i < |fs| && fs[i].field in names && Active(fs, h, fs[i].field)
    requires h == RefSet(env, fields, fs)
    ensures GroupsOk(env, fields, cells, fs, h, Order(env, fields, fs), names, row)
            <==> RefsOk(env, fields, cells, fs, row)
  {
    hide GroupOk, GroupMode, RefSet, Order;
    if RefsOk(env, fields, cells, fs, row) {
      forall n | n in names && Active(fs, h, n)
        ensures GroupOk(env, fields, cells, fs, h, n, GroupMode(fields, fs, Order(env, fields, fs), n), row)
      {
        var i :| InGroup(fs, h, n, i);
      }
    }
  }

  /** `prefilter_multi_ref`. */
  method PrefilterMultiRef(env: Env, fields: seq<Field>, cells: Cells, filters: array<FieldFilter>, base: seq<string>)
    returns (rows: Option<seq<string>>)
    modifies filters
    ensures var fs := old(filters[..]);
            var h := RefSet(env, fields, fs);
            && filters[..] == Cleared(fs, h)
            && rows == if h == {} then None else Some(Sift(base, RefRows(env, fields, cells, fs, base)))
  {
    ghost var fs := filters[..];
    hide *;
    var p, refs := CollectRefs(env, fields, filters);
    PassZeroOk(env, fields, fs);
    var handled := PruneRefs(fields, filters, p, refs);
    OrderMembers(env, fields, fs);
    OrderIs(env, fields, fs);
    ghost var h := Members(handled);
    StayingGroupable(env, fields, fs, p, handled);
    GroupableRange(env, fields, fs, handled);
    GroupedWithin(fields, fs, p);
    RefSetIs(env, fields, fs);
    GroupsAreRefs(env, fields, cells, fs, p, h, base);
    if handled == [] {
      EmptyMembers();
      ClearedNone(fs);
      return None;
    }
    MembersSome(handled);
    rows := CombineGroups(env, fields, cells, filters, handled, p.names, base);
    EraseHandled(filters, handled);
  }

  lemma GroupedWithin(fields: seq<Field>, fs: seq<FieldFilter>, p: Pass)
    ensures Grouped(fields, fs, p) <= Members(p.handled)
  {
    hide OneValued;
  }

  lemma RefSetIs(env: Env, fields: seq<Field>, fs: seq<FieldFilter>)
    ensures RefSet(env, fields, fs) == Grouped(fields, fs, PassZero(env, fields, fs))
  {
  }

  lemma OrderIs(env: Env, fields: seq<Field>, fs: seq<FieldFilter>)
    ensures var p := PassZero(env, fields, fs); Order(env, fields, fs) == PrunedBy(fields, fs, p, |p.names|)
  {
  }

  lemma EmptyMembers()
    ensures Members([]) == {}
  {
  }

  lemma MembersSome(handled: seq<nat>)
    requires handled != []
    ensures Members(handled) != {}
  {
    assert handled[0] in Members(handled);
  }

  lemma ClearedNone(fs: seq<FieldFilter>)
    ensures Cleared(fs, {}) == fs
  {
  }

  /** Pass 2: erase the values that were dealt with. */
  method EraseHandled(filters: array<FieldFilter>, handled: seq<nat>)
    requires InRange(handled, filters.Length)
    modifies filters
    ensures filters[..] == Cleared(old(filters[..]), Members(handled))
  {
    ghost var fs := filters[..];
    assert handled[..|handled|] == handled;
    for hi := 0 to |handled|
      invariant |fs| == filters.Length
      invariant forall i: nat :: i < |fs| ==> filters[i] == if i in handled[..hi] then fs[i].(value := None) else fs[i]
    {
      var at := handled[hi];
      assert handled[..hi + 1] == handled[..hi] + [at];
      filters[at] := filters[at].(value := None);
    }
    assert forall i :: i in handled <==> i in Members(handled);
  }

  // ---- the search text ---------------------------------------------------------------------------

  const TOKEN_SIZE := 256

  /** `display_field_of`: the first field not called "id". */
  function DisplayField(fields: seq<Field>): Option<string> {
    if fields == [] then None
    else if fields[0].name != "id" then Some(fields[0].name) else DisplayField(fields[1..])
  }

  /** `ref_token_label`: a token is a slug, or a number naming the position of one. */
  function Label(target: Target, token: string, display: string): Option<string>
    requires token != ""
  {
    var named := if IsDigit(token[0]) then target.keyAt(token) else None;
    Cell(target.cells, named.GetOr(token), display)
  }

  predicate LabelMatches(env: Env, target: Target, display: string, q: string, token: string) {
    token != "" &&
    var shown := Label(target, token[..Min(|token|, TOKEN_SIZE - 1)], display);
    shown.Some? && PunctMatches(env.fold, shown.value, q)
  }

  predicate AnyLabelMatches(env: Env, target: Target, display: string, q: string, stored: string) {
    exists t :: t in Split(stored, '\n') && LabelMatches(env, target, display, q, t)
  }

  lemma LabelStep(env: Env, target: Target, display: string, q: string, text: string)
    ensures var i := IndexOf(text, '\n');
            AnyLabelMatches(env, target, display, q, text)
            <==> LabelMatches(env, target, display, q, text[..i])
                 || (i < |text| && AnyLabelMatches(env, target, display, q, text[i + 1..]))
  {
    SplitFirst(text);
    hide LabelMatches;
    assert Split(text, '\n') == [Split(text, '\n')[0]] + Split(text, '\n')[1..];
  }

  /** `stored_labels_match`. */
  method StoredLabelsMatch(env: Env, target: Target, display: string, q: string, stored: string) returns (found: bool)
    ensures found <==> AnyLabelMatches(env, target, display, q, stored)
  {
    hide AnyLabelMatches, PunctMatches, Label;
    var p := stored;
    while p != ""
      invariant AnyLabelMatches(env, target, display, q, stored) <==> AnyLabelMatches(env, target, display, q, p)
      decreases |p|
    {
      LabelStep(env, target, display, q, p);
      var nl := IndexOf(p, '\n');
      var n := if nl >= TOKEN_SIZE then TOKEN_SIZE - 1 else nl;
      if n > 0 {
        assert p[..nl][..n] == p[..n];
        var shown := Label(target, p[..n], display);
        if shown.Some? {
          var hit := CiSubstrPunct(env.fold, shown.value, q);
          if hit {
            return true;
          }
        }
      }
      if nl == |p| {
        return false;
      }
      p := p[nl + 1..];
    }
    LabelStep(env, target, display, q, "");
    found := false;
  }

  function Stored(env: Env, cells: Cells, f: Field, row: string): Option<string> {
    if f.kind == Derived then env.derive(row, f.name) else Cell(cells, row, f.name)
  }

  /** A field matches by its text, or by the label of something it refers to. */
  predicate FieldMatchesQ(env: Env, cells: Cells, f: Field, row: string, q: string) {
    var stored := Stored(env, cells, f, row);
    stored.Some? &&
    (PunctMatches(env.fold, stored.value, q)
     || ((f.kind == Reference || f.kind == MultiReference) && f.target.Some? && f.target.value in env.targets
         && var target := env.targets[f.target.value];
            DisplayField(target.fields).Some?
            && AnyLabelMatches(env, target, DisplayField(target.fields).value, q, stored.value)))
  }

  /** The search text occurs in the row's id, in one of its fields, or in a label. */
  predicate RowMatchesQ(env: Env, fields: seq<Field>, cells: Cells, row: string, q: string) {
    PunctMatches(env.fold, row, q) || exists i :: 0 <= i < |fields| && FieldMatchesQ(env, cells, fields[i], row, q)
  }

  /** `row_matches_q`. */
  method FindQ(env: Env, fields: seq<Field>, cells: Cells, row: string, q: string) returns (found: bool)
    ensures found <==> RowMatchesQ(env, fields, cells, row, q)
  {
    hide PunctMatches, AnyLabelMatches, DisplayField, Stored;
    found := CiSubstrPunct(env.fold, row, q);
    if found {
      return;
    }
    for i := 0 to |fields|
      invariant forall k :: 0 <= k < i ==> !FieldMatchesQ(env, cells, fields[k], row, q)
    {
      var f := fields[i];
      var stored := Stored(env, cells, f, row);
      if stored.Some? {
        found := CiSubstrPunct(env.fold, stored.value, q);
        if found {
          return;
        }
        if (f.kind == Reference || f.kind == MultiReference) && f.target.Some? && f.target.value in env.targets {
          var target := env.targets[f.target.value];
          var display := DisplayField(target.fields);
          if display.Some? {
            found := StoredLabelsMatch(env, target, display.value, q, stored.value);
            if found {
              return;
            }
          }
        }
      }
    }
    found := false;
  }

  function QRows(env: Env, fields: seq<Field>, cells: Cells, q: string, base: seq<string>): set<string> {
    set r | r in base && RowMatchesQ(env, fields, cells, r, q)
  }

  /** `prefilter_q`. */
  method PrefilterQ(env: Env, fields: seq<Field>, cells: Cells, q: string, base: seq<string>)
    returns (rows: seq<string>)
    ensures rows == Sift(base, QRows(env, fields, cells, q, base))
  {
    hide RowMatchesQ;
    ghost var keep := QRows(env, fields, cells, q, base);
    rows := [];
    assert base[..0] == [] && base[..|base|] == base;
    for i := 0 to |base|
      invariant rows == Sift(base[..i], keep)
    {
      SiftSnoc(base, i, keep);
      var hit := FindQ(env, fields, cells, base[i], q);
      if hit {
        rows := rows + [base[i]];
      }
    }
  }
}
