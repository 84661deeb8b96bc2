/** What the stages of the planner come to: one predicate of a row, and when it is the one that
    the filters ask for. */
module PlannerLaws {
  import opened Collections
  import opened Text
  import opened Wrappers
  import opened Tokens
  import opened Matching
  import opened Rows
  import opened View
  import opened Planner

  // ---- which rows a query keeps ----------------------------------------------------------

  /** What the planner makes of the filters: those for the view test the row there. */
  ghost predicate RestPasses(env: Env, fields: seq<Field>, cells: Cells, index: Index, fs: seq<FieldFilter>,
                             h: set<nat>, row: string)
  {
    forall i: nat :: i < |fs| && !IsFullText(env, fields, index, fs[i]) && i !in h ==>
      FilterPasses(env.fold, fields, cells, fs[i], row)
  }

  predicate QPasses(env: Env, fields: seq<Field>, cells: Cells, q: Option<string>, row: string) {
    !IsText(q) || RowMatchesQ(env, fields, cells, row, q.value)
  }

  /** A row is kept: every full-text filter hits it, it satisfies the group of every grouped
      reference filter and every other filter, and the search text. */
  ghost predicate Keeps(env: Env, fields: seq<Field>, cells: Cells, index: Index, fs: seq<FieldFilter>,
                        q: Option<string>, row: string)
  {
    var rest := AfterFullText(env, fields, index, fs);
    var h := RefSet(env, fields, rest);
    && HitsAll(env, fields, index, fs, row)
    && RefsOk(env, fields, cells, rest, row)
    && RestPasses(env, fields, cells, index, fs, h, row)
    && QPasses(env, fields, cells, q, row)
  }

  /** Where the rows come from, and in which order: the first full-text filter, or the source. */
  function Start(env: Env, fields: seq<Field>, index: Index, fs: seq<FieldFilter>, rows: seq<string>): seq<string> {
    FirstHits(env, fields, index, fs).GetOr(rows)
  }

  ghost function KeptRows(env: Env, fields: seq<Field>, cells: Cells, index: Index, fs: seq<FieldFilter>,
                          q: Option<string>, rows: seq<string>): seq<string>
  {
    var start := Start(env, fields, index, fs, rows);
    Sift(start, set r | r in start && Keeps(env, fields, cells, index, fs, q, r))
  }

  /** The filters that the pre-filters leave for the view. */
  ghost function Remaining(env: Env, fields: seq<Field>, index: Index, fs: seq<FieldFilter>): seq<FieldFilter> {
    var rest := AfterFullText(env, fields, index, fs);
    Cleared(rest, RefSet(env, fields, rest))
  }

  /** The rows that the pre-filters leave, each working on what the one before left. */
  ghost function Prefiltered(env: Env, fields: seq<Field>, cells: Cells, index: Index, fs: seq<FieldFilter>,
                             q: Option<string>, rows: seq<string>): seq<string>
  {
    var rest := AfterFullText(env, fields, index, fs);
    var h := RefSet(env, fields, rest);
    var first := FullTextRows(env, fields, index, fs).GetOr(rows);
    var second := if h == {} then first else Sift(first, RefRows(env, fields, cells, rest, first));
    if IsText(q) then Sift(second, QRows(env, fields, cells, q.value, second)) else second
  }

  /** And what the view keeps of them. */
  ghost function StagedRows(env: Env, fields: seq<Field>, cells: Cells, index: Index, fs: seq<FieldFilter>,
                            q: Option<string>, rows: seq<string>): seq<string>
  {
    var left := Prefiltered(env, fields, cells, index, fs, q, rows);
    Sift(left, Passing(env.fold, fields, cells, None, Remaining(env, fields, index, fs), left))
  }

  lemma ErasedPass(env: Env, fields: seq<Field>, cells: Cells, index: Index, fs: seq<FieldFilter>, row: string)
    ensures var rest := AfterFullText(env, fields, index, fs);
            var h := RefSet(env, fields, rest);
            AllPass(env.fold, fields, cells, Cleared(rest, h), row)
            <==> RestPasses(env, fields, cells, index, fs, h, row)
  {
    var rest := AfterFullText(env, fields, index, fs);
    var h := RefSet(env, fields, rest);
    var left := Cleared(rest, h);
    hide IsFullText, RowFieldVal, IsMultiRef, RefSet;
    forall i: nat | i < |fs| && (IsFullText(env, fields, index, fs[i]) || i in h)
      ensures FilterPasses(env.fold, fields, cells, left[i], row)
    {
    }
  }

  lemma FirstStage(env: Env, fields: seq<Field>, index: Index, fs: seq<FieldFilter>, rows: seq<string>)
    ensures var start := Start(env, fields, index, fs, rows);
            FullTextRows(env, fields, index, fs).GetOr(rows) == Sift(start, HitSet(env, fields, index, fs, start))
  {
    FullTextMeaning(env, fields, index, fs);
    FirstHitsNoneIff(env, fields, index, fs);
    if FirstHits(env, fields, index, fs).None? {
      HitSetNone(env, fields, index, fs, rows);
      SiftAll(rows, HitSet(env, fields, index, fs, rows));
    }
  }

  /** Pre-filtering and erasing neither loses nor repeats a filter: the stages keep exactly the
      rows of the one predicate, in the starting order. */
  lemma StagesKeep(env: Env, fields: seq<Field>, cells: Cells, index: Index, fs: seq<FieldFilter>,
                   q: Option<string>, rows: seq<string>)
    ensures StagedRows(env, fields, cells, index, fs, q, rows) == KeptRows(env, fields, cells, index, fs, q, rows)
  {
    var start := Start(env, fields, index, fs, rows);
    var rest := AfterFullText(env, fields, index, fs);
    var h := RefSet(env, fields, rest);
    var a := HitSet(env, fields, index, fs, start);
    var b := set r | r in start && RefsOk(env, fields, cells, rest, r);
    var c := set r | r in start && QPasses(env, fields, cells, q, r);
    hide AllPass, RefRows, QRows, FirstHits, FullTextRows, IsFullText, RefSet, RefsOk, QPasses, HitSet;
    hide Keeps, Sift, Start;
    FirstStage(env, fields, index, fs, rows);
    SecondStage(env, fields, cells, rest, start, a);
    ThirdStage(env, fields, cells, q, start, a * b);
    LastStage(env, fields, cells, index, fs, q, start);
  }

  lemma LastStage(env: Env, fields: seq<Field>, cells: Cells, index: Index, fs: seq<FieldFilter>,
                  q: Option<string>, start: seq<string>)
    ensures var rest := AfterFullText(env, fields, index, fs);
            var h := RefSet(env, fields, rest);
            var a := HitSet(env, fields, index, fs, start);
            var b := set r | r in start && RefsOk(env, fields, cells, rest, r);
            var c := set r | r in start && QPasses(env, fields, cells, q, r);
            var third := Sift(start, a * b * c);
            Sift(third, Passing(env.fold, fields, cells, None, Cleared(rest, h), third))
            == Sift(start, set r | r in start && Keeps(env, fields, cells, index, fs, q, r))
  {
    var rest := AfterFullText(env, fields, index, fs);
    var h := RefSet(env, fields, rest);
    var a := HitSet(env, fields, index, fs, start);
    var b := set r | r in start && RefsOk(env, fields, cells, rest, r);
    var c := set r | r in start && QPasses(env, fields, cells, q, r);
    hide AllPass, RestPasses, RefsOk, QPasses, HitsAll, Sift, RefSet, IsFullText;
    forall r
      ensures AllPass(env.fold, fields, cells, Cleared(rest, h), r)
              <==> RestPasses(env, fields, cells, index, fs, h, r)
    {
      ErasedPass(env, fields, cells, index, fs, r);
    }
    var third := Sift(start, a * b * c);
    SiftIn(start, a * b * c);
    var d := Passing(env.fold, fields, cells, None, Cleared(rest, h), third);
    SiftTwice(start, a * b * c, d);
    SiftSame(start, a * b * c * d, set r | r in start && Keeps(env, fields, cells, index, fs, q, r));
  }

  lemma SecondStage(env: Env, fields: seq<Field>, cells: Cells, rest: seq<FieldFilter>, start: seq<string>,
                    a: set<string>)
    ensures var first := Sift(start, a);
            var b := set r | r in start && RefsOk(env, fields, cells, rest, r);
            (if RefSet(env, fields, rest) == {} then first else Sift(first, RefRows(env, fields, cells, rest, first)))
            == Sift(start, a * b)
  {
    var first := Sift(start, a);
    var b := set r | r in start && RefsOk(env, fields, cells, rest, r);
    hide GroupOk, GroupMode, RefSet, Order;
    if RefSet(env, fields, rest) == {} {
      SiftSame(start, a, a * b);
    } else {
      hide RefsOk;
      SiftIn(start, a);
      SiftTwice(start, a, RefRows(env, fields, cells, rest, first));
      SiftSame(start, a * RefRows(env, fields, cells, rest, first), a * b);
    }
  }

  lemma ThirdStage(env: Env, fields: seq<Field>, cells: Cells, q: Option<string>, start: seq<string>, a: set<string>)
    ensures var second := Sift(start, a);
            var c := set r | r in start && QPasses(env, fields, cells, q, r);
            (if IsText(q) then Sift(second, QRows(env, fields, cells, q.value, second)) else second)
            == Sift(start, a * c)
  {
    var second := Sift(start, a);
    var c := set r | r in start && QPasses(env, fields, cells, q, r);
    hide RowMatchesQ;
    if IsText(q) {
      SiftIn(start, a);
      SiftTwice(start, a, QRows(env, fields, cells, q.value, second));
      SiftSame(start, a * QRows(env, fields, cells, q.value, second), a * c);
    } else {
      SiftSame(start, a, a * c);
    }
  }

  // ---- the one-line predicate ---------------------------------------------------------------

  /** A reference filter that the full-text index left. */
  predicate AsksRef(env: Env, fields: seq<Field>, index: Index, f: FieldFilter) {
    IsRef(env, fields, f) && !IsFullText(env, fields, index, f)
  }

  /** A multi-reference filter, or one of several that ask a plain reference for different values. */
  ghost predicate IsGrouped(env: Env, fields: seq<Field>, index: Index, fs: seq<FieldFilter>, f: FieldFilter) {
    AsksRef(env, fields, index, f) &&
    (KindOf(fields, f.field) != Reference
     || exists g :: g in fs && AsksRef(env, fields, index, g) && g.field == f.field && g.value != f.value)
  }

  /** What one filter demands of a row, given which others there are. */
  ghost predicate Demands(env: Env, fields: seq<Field>, cells: Cells, index: Index, fs: seq<FieldFilter>,
                          f: FieldFilter, row: string)
  {
    if IsFullText(env, fields, index, f) then IsHit(env, fields, index, f, row)
    else if !IsGrouped(env, fields, index, fs, f) then FilterPasses(env.fold, fields, cells, f, row)
    else if NeedsAll(fields, f) then
      forall g :: g in fs && AsksRef(env, fields, index, g) && g.field == f.field ==> Refers(env, fields, cells, g, row)
    else
      exists g :: g in fs && AsksRef(env, fields, index, g) && g.field == f.field && Refers(env, fields, cells, g, row)
  }

  ghost predicate OneLine(env: Env, fields: seq<Field>, cells: Cells, index: Index, fs: seq<FieldFilter>,
                          q: Option<string>, row: string)
  {
    (forall f :: f in fs ==> Demands(env, fields, cells, index, fs, f, row)) && QPasses(env, fields, cells, q, row)
  }

  function RefFields(env: Env, fields: seq<Field>, fs: seq<FieldFilter>): set<string> {
    set f | f in fs && IsRef(env, fields, f) :: f.field
  }

  function RefCount(env: Env, fields: seq<Field>, fs: seq<FieldFilter>): nat {
    if fs == [] then 0
    else RefCount(env, fields, fs[..|fs| - 1]) + if IsRef(env, fields, fs[|fs| - 1]) then 1 else 0
  }

  /** After these filters the tables still have room: fewer than 32 reference filters, on fewer
      than 16 fields. */
  predicate HasRoom(env: Env, fields: seq<Field>, fs: seq<FieldFilter>) {
    RefCount(env, fields, fs) < MAX_VALUES && |RefFields(env, fields, fs)| < MAX_FIELDS
  }

  ghost predicate Exact(env: Env, fields: seq<Field>, fs: seq<FieldFilter>, p: Pass) {
    |p.handled| == RefCount(env, fields, fs) && Elements(p.names) == RefFields(env, fields, fs)
  }

  lemma RefFieldsSnoc(env: Env, fields: seq<Field>, front: seq<FieldFilter>, f: FieldFilter)
    ensures RefFields(env, fields, front + [f])
            == RefFields(env, fields, front) + if IsRef(env, fields, f) then {f.field} else {}
    ensures RefCount(env, fields, front + [f]) == RefCount(env, fields, front) + if IsRef(env, fields, f) then 1 else 0
  {
    hide IsRef;
    assert (front + [f])[..|front|] == front;
    assert forall g :: g in front + [f] <==> g in front || g == f;
  }

  lemma TakeExact(env: Env, fields: seq<Field>, front: seq<FieldFilter>, f: FieldFilter, p: Pass)
    requires Exact(env, fields, front, p) && Distinct(p.names)
    ensures Full(p) <==> !HasRoom(env, fields, front)
    ensures Exact(env, fields, front + [f], if IsRef(env, fields, f) then Take(p, |front|, f.field) else p)
  {
    hide IsRef, RefFields, RefCount, Distinct, Elements;
    RefFieldsSnoc(env, fields, front, f);
    DistinctSize(p.names);
    TakenNames(p, |front|, f.field);
  }

  lemma TakenNames(p: Pass, i: nat, name: string)
    ensures Elements(Take(p, i, name).names) == Elements(p.names) + {name}
    ensures |Take(p, i, name).handled| == |p.handled| + 1
  {
  }

  lemma RoomShrinks(env: Env, fields: seq<Field>, front: seq<FieldFilter>, f: FieldFilter)
    ensures HasRoom(env, fields, front + [f]) ==> HasRoom(env, fields, front)
  {
    RefFieldsSnoc(env, fields, front, f);
    hide IsRef, RefCount;
    SubsetSize(RefFields(env, fields, front), RefFields(env, fields, front + [f]));
  }

  /** Pass 0 counts every reference filter until a table is full. */
  lemma {:induction false} FullIff(env: Env, fields: seq<Field>, fs: seq<FieldFilter>)
    ensures Full(PassZero(env, fields, fs)) <==> !HasRoom(env, fields, fs)
    ensures HasRoom(env, fields, fs) ==> Exact(env, fields, fs, PassZero(env, fields, fs))
  {
    if fs != [] {
      var front, f := fs[..|fs| - 1], fs[|fs| - 1];
      assert fs == front + [f];
      FullIff(env, fields, front);
      var p := PassZero(env, fields, front);
      PassZeroOk(env, fields, front);
      PassZeroOk(env, fields, fs);
      RoomShrinks(env, fields, front, f);
      hide IsRef, HasRoom, Distinct, PassOk, Exact;
      if HasRoom(env, fields, front) {
        NamesDistinct(env, fields, front, p);
        TakeExact(env, fields, front, f, p);
        NamesDistinct(env, fields, fs, PassZero(env, fields, fs));
        TakeExact(env, fields, fs, f, PassZero(env, fields, fs));
      }
    }
  }

  lemma NamesDistinct(env: Env, fields: seq<Field>, fs: seq<FieldFilter>, p: Pass)
    requires PassOk(env, fields, fs, p)
    ensures Distinct(p.names)
  {
  }

  /** A filter is taken exactly when it is a reference filter that finds room in the tables. */
  lemma {:induction false} TakenIff(env: Env, fields: seq<Field>, fs: seq<FieldFilter>, i: nat)
    ensures i in PassZero(env, fields, fs).handled
            <==> i < |fs| && IsRef(env, fields, fs[i]) && HasRoom(env, fields, fs[..i])
  {
    if fs != [] {
      var front := fs[..|fs| - 1];
      TakenIff(env, fields, front, i);
      FullIff(env, fields, front);
      hide IsRef, HasRoom, Full;
      if i < |front| {
        assert front[..i] == fs[..i];
      } else if i == |front| {
        assert fs[..i] == front;
      }
    }
  }

  /** When its turn comes the tables have room for the filter. */
  predicate HasPlace(env: Env, fields: seq<Field>, index: Index, fs: seq<FieldFilter>, i: nat) {
    i < |fs| && HasRoom(env, fields, AfterFullText(env, fields, index, fs)[..i])
  }

  /** Every filter that belongs to a group finds room in the tables. */
  ghost predicate GroupedTaken(env: Env, fields: seq<Field>, index: Index, fs: seq<FieldFilter>) {
    forall i: nat :: i < |fs| && IsGrouped(env, fields, index, fs, fs[i]) ==> HasPlace(env, fields, index, fs, i)
  }

  /** A filter that finds room asks the same of a field. */
  ghost predicate Twin(env: Env, fields: seq<Field>, index: Index, fs: seq<FieldFilter>, i: nat, j: nat) {
    && i < |fs| && HasPlace(env, fields, index, fs, j) && AsksRef(env, fields, index, fs[j])
    && fs[j].field == fs[i].field && fs[j].value == fs[i].value
  }

  /** Each filter of a group finds room, or repeats one that does. */
  ghost predicate TwinsTaken(env: Env, fields: seq<Field>, index: Index, fs: seq<FieldFilter>) {
    forall i: nat :: i < |fs| && IsGrouped(env, fields, index, fs, fs[i]) ==>
      exists j: nat :: Twin(env, fields, index, fs, i, j)
  }

  /** The filters of groups that find no room are satisfied as texts. */
  ghost predicate SpillsPass(env: Env, fields: seq<Field>, cells: Cells, index: Index, fs: seq<FieldFilter>,
                             row: string)
  {
    forall i: nat ::
      i < |fs| && IsGrouped(env, fields, index, fs, fs[i]) && !HasPlace(env, fields, index, fs, i) ==>
        FilterPasses(env.fold, fields, cells, fs[i], row)
  }

  lemma FrontSlices(fs: seq<FieldFilter>, i: nat)
    requires i <= |fs| && fs != []
    ensures if i < |fs| then fs[..i] == fs[..|fs| - 1][..i] else fs[..i] == fs
    ensures i < |fs| - 1 ==> fs[..|fs| - 1][i] == fs[i]
  {
  }

  lemma {:induction false} FieldsAtMost(env: Env, fields: seq<Field>, fs: seq<FieldFilter>, i: nat)
    requires i <= |fs|
    ensures |RefFields(env, fields, fs)| <= RefCount(env, fields, fs)
    ensures RefCount(env, fields, fs[..i]) <= RefCount(env, fields, fs)
    ensures RefFields(env, fields, fs[..i]) <= RefFields(env, fields, fs)
    ensures i < |fs| && IsRef(env, fields, fs[i]) ==> RefCount(env, fields, fs[..i]) < RefCount(env, fields, fs)
  {
    if fs != [] {
      hide IsRef, RefFields, RefCount;
      var front, f := fs[..|fs| - 1], fs[|fs| - 1];
      assert fs == front + [f];
      RefFieldsSnoc(env, fields, front, f);
      FieldsAtMost(env, fields, front, if i < |fs| then i else 0);
      FrontSlices(fs, i);
    }
  }

  /** So at most 16 reference filters, or at most 32 on fewer than 16 fields, are all taken. */
  lemma FewFilters(env: Env, fields: seq<Field>, index: Index, fs: seq<FieldFilter>)
    requires var rest := AfterFullText(env, fields, index, fs);
             var n := RefCount(env, fields, rest);
             n <= MAX_FIELDS || (n <= MAX_VALUES && |RefFields(env, fields, rest)| < MAX_FIELDS)
    ensures GroupedTaken(env, fields, index, fs)
  {
    var rest := AfterFullText(env, fields, index, fs);
    hide IsRef, RefFields, RefCount;
    forall i: nat | i < |fs| && IsGrouped(env, fields, index, fs, fs[i]) ensures HasPlace(env, fields, index, fs, i) {
      LeftAsks(env, fields, index, fs, i);
      FieldsAtMost(env, fields, rest, i);
      FieldsAtMost(env, fields, rest[..i], 0);
      SubsetSize(RefFields(env, fields, rest[..i]), RefFields(env, fields, rest));
    }
  }

  lemma {:induction false} DistinctSize(s: seq<string>)
    requires Distinct(s)
    ensures |Elements(s)| == |s|
  {
    if s != [] {
      var front, last := s[..|s| - 1], s[|s| - 1];
      DistinctSize(front);
      assert s == front + [last] && Elements(s) == Elements(front) + {last} && last !in Elements(front);
    }
  }

  /** Erasing the full-text filters leaves the reference filters that the index left. */
  lemma LeftAsks(env: Env, fields: seq<Field>, index: Index, fs: seq<FieldFilter>, i: nat)
    requires i < |fs|
    ensures var rest := AfterFullText(env, fields, index, fs);
            && (IsRef(env, fields, rest[i]) <==> AsksRef(env, fields, index, fs[i]))
            && rest[i].field == fs[i].field && rest[i].op == fs[i].op
            && (AsksRef(env, fields, index, fs[i]) ==> rest[i] == fs[i])
  {
    hide KindOf, TargetOf;
  }

  lemma InRefSetIff(env: Env, fields: seq<Field>, index: Index, fs: seq<FieldFilter>, i: nat)
    requires i < |fs| && TwinsTaken(env, fields, index, fs)
    ensures i in RefSet(env, fields, AfterFullText(env, fields, index, fs))
            <==> IsGrouped(env, fields, index, fs, fs[i]) && HasPlace(env, fields, index, fs, i)
  {
    var rest := AfterFullText(env, fields, index, fs);
    var p := PassZero(env, fields, rest);
    forall j: nat
      ensures j in p.handled <==> HasPlace(env, fields, index, fs, j) && AsksRef(env, fields, index, fs[j])
      ensures j < |fs| ==> rest[j].field == fs[j].field
      ensures j in p.handled ==> rest[j] == fs[j]
    {
      TakenIff(env, fields, rest, j);
      if j < |fs| {
        LeftAsks(env, fields, index, fs, j);
      }
    }
    hide AsksRef, HasRoom, PassZero, AfterFullText, KindOf, HasPlace;
    assert IsGrouped(env, fields, index, fs, fs[i]) ==> AsksRef(env, fields, index, fs[i]);
    hide IsGrouped;
    if i in p.handled {
      AskedTwiceIff(env, fields, index, fs, rest, p, i);
    }
  }

  lemma AskedTwiceIff(env: Env, fields: seq<Field>, index: Index, fs: seq<FieldFilter>, rest: seq<FieldFilter>,
                      p: Pass, i: nat)
    requires |rest| == |fs| && i in p.handled && TwinsTaken(env, fields, index, fs)
    requires forall j: nat ::
               j in p.handled <==> HasPlace(env, fields, index, fs, j) && AsksRef(env, fields, index, fs[j])
    requires forall j: nat :: j < |fs| ==> rest[j].field == fs[j].field && (j in p.handled ==> rest[j] == fs[j])
    ensures i < |fs| && (OneValued(fields, rest, p, fs[i].field) <==> !IsGrouped(env, fields, index, fs, fs[i]))
  {
    assert HasPlace(env, fields, index, fs, i);
    hide AsksRef, KindOf, HasRoom, AfterFullText;
    var name := fs[i].field;
    assert fs[i] in fs;
    forall g | g in fs && IsGrouped(env, fields, index, fs, g)
      ensures exists t :: t in p.handled && t < |fs| && rest[t].field == g.field && rest[t].value == g.value
    {
      var j: nat :| j < |fs| && fs[j] == g;
      var t: nat :| Twin(env, fields, index, fs, j, t);
      assert t in p.handled;
    }
    if OneValued(fields, rest, p, name) {
      forall g | g in fs && AsksRef(env, fields, index, g) && g.field == name ensures g.value == fs[i].value {
        assert g.value == fs[i].value || IsGrouped(env, fields, index, fs, g);
      }
    } else if KindOf(fields, name) == Reference {
      var a, b :| a in p.handled && b in p.handled && a < |rest| && b < |rest|
                  && rest[a].field == name && rest[b].field == name && rest[a].value != rest[b].value;
      assert fs[a] in fs && fs[b] in fs;
      assert fs[a].value != fs[i].value || fs[b].value != fs[i].value;
    }
  }

  /** The group of a grouped filter: all the filters on its field that find room. */
  lemma SameGroup(env: Env, fields: seq<Field>, index: Index, fs: seq<FieldFilter>, i: nat, j: nat)
    requires i < |fs| && IsGrouped(env, fields, index, fs, fs[i])
    requires TwinsTaken(env, fields, index, fs)
    ensures var rest := AfterFullText(env, fields, index, fs);
            InGroup(rest, RefSet(env, fields, rest), fs[i].field, j)
            <==> && HasPlace(env, fields, index, fs, j) && AsksRef(env, fields, index, fs[j])
                 && fs[j].field == fs[i].field
  {
    var rest := AfterFullText(env, fields, index, fs);
    if j < |fs| {
      InRefSetIff(env, fields, index, fs, j);
      LeftAsks(env, fields, index, fs, j);
      hide AsksRef, TwinsTaken, AfterFullText, KindOf, RefSet, HasRoom;
      if AsksRef(env, fields, index, fs[j]) && fs[j].field == fs[i].field {
        AsksGrouped(env, fields, index, fs, fs[i], fs[j]);
      }
    }
  }

  /** What asks for the field of a group is in the group. */
  lemma AsksGrouped(env: Env, fields: seq<Field>, index: Index, fs: seq<FieldFilter>, f: FieldFilter, g: FieldFilter)
    requires f in fs && IsGrouped(env, fields, index, fs, f) && AsksRef(env, fields, index, g) && g.field == f.field
    ensures IsGrouped(env, fields, index, fs, g)
  {
    hide AsksRef, KindOf;
    if KindOf(fields, f.field) == Reference {
      var x :| x in fs && AsksRef(env, fields, index, x) && x.field == f.field && x.value != f.value;
      assert x.value != g.value || f.value != g.value;
    }
  }

  lemma AfterAgrees(env: Env, fields: seq<Field>, index: Index, fs: seq<FieldFilter>)
    requires OpsAgree(fs)
    ensures OpsAgree(AfterFullText(env, fields, index, fs))
  {
    hide IsFullText;
  }

  lemma GroupDemands(env: Env, fields: seq<Field>, cells: Cells, index: Index, fs: seq<FieldFilter>, i: nat,
                     row: string)
    requires i < |fs| && IsGrouped(env, fields, index, fs, fs[i]) && OpsAgree(fs)
    requires TwinsTaken(env, fields, index, fs) && HasPlace(env, fields, index, fs, i)
    ensures var rest := AfterFullText(env, fields, index, fs);
            var h, name := RefSet(env, fields, rest), fs[i].field;
            GroupOk(env, fields, cells, rest, h, name, GroupMode(fields, rest, Order(env, fields, rest), name), row)
            <==> Demands(env, fields, cells, index, fs, fs[i], row)
  {
    var rest := AfterFullText(env, fields, index, fs);
    var h, name := RefSet(env, fields, rest), fs[i].field;
    GroupMembers(env, fields, index, fs, i);
    ModeOfGroup(env, fields, index, fs, i);
    assert AsksRef(env, fields, index, fs[i]) && !IsFullText(env, fields, index, fs[i]);
    hide AsksRef, TwinsTaken, AfterFullText, RefSet, InGroup, Refers, IsFullText, KindOf, HasPlace;
    hide NeedsAll, GroupMode, IsGrouped, Order, GroupOk, OpsAgree;
    GroupByMember(env, fields, cells, index, fs, rest, h, name, NeedsAll(fields, fs[i]), row);
  }

  lemma ModeOfGroup(env: Env, fields: seq<Field>, index: Index, fs: seq<FieldFilter>, i: nat)
    requires i < |fs| && IsGrouped(env, fields, index, fs, fs[i]) && OpsAgree(fs)
    requires TwinsTaken(env, fields, index, fs) && HasPlace(env, fields, index, fs, i)
    ensures var rest := AfterFullText(env, fields, index, fs);
            GroupMode(fields, rest, Order(env, fields, rest), fs[i].field) <==> NeedsAll(fields, fs[i])
  {
    var rest := AfterFullText(env, fields, index, fs);
    AfterAgrees(env, fields, index, fs);
    OrderMembers(env, fields, rest);
    SameGroup(env, fields, index, fs, i, i);
    LeftAsks(env, fields, index, fs, i);
    assert AsksRef(env, fields, index, fs[i]);
    hide AsksRef, TwinsTaken, AfterFullText, RefSet, NeedsAll, GroupMode, IsGrouped, Order, HasPlace, KindOf;
    AgreedMode(fields, rest, Order(env, fields, rest), fs[i].field, i);
  }

  /** The members of a group are filters on its field, and stand for all of these. */
  lemma GroupMembers(env: Env, fields: seq<Field>, index: Index, fs: seq<FieldFilter>, i: nat)
    requires i < |fs| && IsGrouped(env, fields, index, fs, fs[i]) && TwinsTaken(env, fields, index, fs)
    ensures var rest := AfterFullText(env, fields, index, fs);
            var h, name := RefSet(env, fields, rest), fs[i].field;
            && (forall j: nat :: InGroup(rest, h, name, j) ==>
                  && j < |fs| && rest[j] == fs[j] && fs[j] in fs && AsksRef(env, fields, index, fs[j])
                  && fs[j].field == name)
            && forall g :: g in fs && AsksRef(env, fields, index, g) && g.field == name ==> StoodFor(rest, h, name, g)
  {
    var rest := AfterFullText(env, fields, index, fs);
    var h, name := RefSet(env, fields, rest), fs[i].field;
    forall j: nat | InGroup(rest, h, name, j)
      ensures && j < |fs| && rest[j] == fs[j] && fs[j] in fs && AsksRef(env, fields, index, fs[j])
              && fs[j].field == name
    {
      SameGroup(env, fields, index, fs, i, j);
      LeftAsks(env, fields, index, fs, j);
      hide AsksRef, TwinsTaken, AfterFullText, KindOf, RefSet, HasRoom;
    }
    forall g | g in fs && AsksRef(env, fields, index, g) && g.field == name ensures StoodFor(rest, h, name, g) {
      var k: nat :| k < |fs| && fs[k] == g;
      AsksGrouped(env, fields, index, fs, fs[i], g);
      var j: nat :| Twin(env, fields, index, fs, k, j);
      SameGroup(env, fields, index, fs, i, j);
      LeftAsks(env, fields, index, fs, j);
      hide AsksRef, TwinsTaken, AfterFullText, KindOf, RefSet, HasRoom;
    }
  }

  /** A member of the group asks for the same value. */
  ghost predicate StoodFor(rest: seq<FieldFilter>, h: set<nat>, name: string, g: FieldFilter) {
    exists j: nat :: InGroup(rest, h, name, j) && rest[j].value == g.value
  }

  lemma StoodForRefers(env: Env, fields: seq<Field>, cells: Cells, rest: seq<FieldFilter>, h: set<nat>, name: string,
                       g: FieldFilter, row: string)
    returns (j: nat)
    requires StoodFor(rest, h, name, g) && g.field == name
    ensures InGroup(rest, h, name, j)
    ensures Refers(env, fields, cells, rest[j], row) <==> Refers(env, fields, cells, g, row)
  {
    j :| InGroup(rest, h, name, j) && rest[j].value == g.value;
    SameValueRefers(env, fields, cells, rest[j], g, row);
  }

  lemma GroupByMember(env: Env, fields: seq<Field>, cells: Cells, index: Index, fs: seq<FieldFilter>,
                      rest: seq<FieldFilter>, h: set<nat>, name: string, all: bool, row: string)
    requires |rest| == |fs|
    requires forall j: nat :: InGroup(rest, h, name, j) ==>
               j < |fs| && rest[j] == fs[j] && fs[j] in fs && AsksRef(env, fields, index, fs[j]) && fs[j].field == name
    requires forall g :: g in fs && AsksRef(env, fields, index, g) && g.field == name ==> StoodFor(rest, h, name, g)
    ensures GroupOk(env, fields, cells, rest, h, name, all, row)
            <==> if all then
                   forall g :: g in fs && AsksRef(env, fields, index, g) && g.field == name ==>
                     Refers(env, fields, cells, g, row)
                 else
                   exists g :: g in fs && AsksRef(env, fields, index, g) && g.field == name
                     && Refers(env, fields, cells, g, row)
  {
    hide AsksRef, Refers, InGroup, StoodFor;
    forall g | g in fs && AsksRef(env, fields, index, g) && g.field == name
      ensures all && GroupOk(env, fields, cells, rest, h, name, all, row) ==> Refers(env, fields, cells, g, row)
      ensures !all && Refers(env, fields, cells, g, row) ==> GroupOk(env, fields, cells, rest, h, name, all, row)
    {
      var j := StoodForRefers(env, fields, cells, rest, h, name, g, row);
    }
  }

  // What the planner makes of the i-th filter.
  ghost predicate Meets(env: Env, fields: seq<Field>, cells: Cells, index: Index, fs: seq<FieldFilter>,
                        h: set<nat>, rest: seq<FieldFilter>, i: nat, row: string)
    requires i < |fs|
  {
    && IsHit(env, fields, index, fs[i], row)
    && (i in h ==> GroupOk(env, fields, cells, rest, h, fs[i].field,
                           GroupMode(fields, rest, Order(env, fields, rest), fs[i].field), row))
    && (!IsFullText(env, fields, index, fs[i]) && i !in h ==> FilterPasses(env.fold, fields, cells, fs[i], row))
  }

  lemma DemandAt(env: Env, fields: seq<Field>, cells: Cells, index: Index, fs: seq<FieldFilter>, i: nat, row: string)
    requires i < |fs| && OpsAgree(fs) && TwinsTaken(env, fields, index, fs)
    ensures var rest := AfterFullText(env, fields, index, fs);
            var meets := Meets(env, fields, cells, index, fs, RefSet(env, fields, rest), rest, i, row);
            if IsGrouped(env, fields, index, fs, fs[i]) && !HasPlace(env, fields, index, fs, i)
            then meets <==> FilterPasses(env.fold, fields, cells, fs[i], row)
            else meets <==> Demands(env, fields, cells, index, fs, fs[i], row)
  {
    InRefSetIff(env, fields, index, fs, i);
    var f := fs[i];
    assert IsGrouped(env, fields, index, fs, f) ==> !IsFullText(env, fields, index, f);
    assert !IsFullText(env, fields, index, f) ==> IsHit(env, fields, index, f, row);
    hide RefSet, GroupOk, GroupMode, IsFullText, IsHit, FilterPasses, AfterFullText, TwinsTaken, IsGrouped, NeedsAll;
    hide HasPlace;
    if IsGrouped(env, fields, index, fs, f) && HasPlace(env, fields, index, fs, i) {
      GroupDemands(env, fields, cells, index, fs, i, row);
    }
  }

  /** A repeat demands what the filter it repeats does. */
  lemma TwinDemands(env: Env, fields: seq<Field>, cells: Cells, index: Index, fs: seq<FieldFilter>, i: nat, j: nat,
                    row: string)
    requires i < |fs| && OpsAgree(fs) && IsGrouped(env, fields, index, fs, fs[i]) && Twin(env, fields, index, fs, i, j)
    ensures j < |fs| && IsGrouped(env, fields, index, fs, fs[j]) && HasPlace(env, fields, index, fs, j)
    ensures Demands(env, fields, cells, index, fs, fs[i], row) <==> Demands(env, fields, cells, index, fs, fs[j], row)
  {
    AsksGrouped(env, fields, index, fs, fs[i], fs[j]);
    assert !IsFullText(env, fields, index, fs[i]) && !IsFullText(env, fields, index, fs[j]);
    hide AsksRef, IsFullText, Refers, IsGrouped, HasRoom, AfterFullText, IsHit, FilterPasses;
    assert NeedsAll(fields, fs[i]) <==> NeedsAll(fields, fs[j]);
    hide NeedsAll;
  }

  lemma KeepsByFilter(env: Env, fields: seq<Field>, cells: Cells, index: Index, fs: seq<FieldFilter>,
                      q: Option<string>, row: string)
    ensures var rest := AfterFullText(env, fields, index, fs);
            var h := RefSet(env, fields, rest);
            Keeps(env, fields, cells, index, fs, q, row)
            <==> && (forall i: nat :: i < |fs| ==> Meets(env, fields, cells, index, fs, h, rest, i, row))
                 && QPasses(env, fields, cells, q, row)
  {
    forall i: nat | i < |fs| ensures AfterFullText(env, fields, index, fs)[i].field == fs[i].field {
      LeftAsks(env, fields, index, fs, i);
    }
    hide RefSet, GroupOk, GroupMode, IsFullText, IsHit, FilterPasses, AfterFullText, QPasses;
    var rest := AfterFullText(env, fields, index, fs);
    var h := RefSet(env, fields, rest);
    if forall i: nat :: i < |fs| ==> Meets(env, fields, cells, index, fs, h, rest, i, row) {
      forall i: nat | i < |fs|
        ensures IsHit(env, fields, index, fs[i], row)
        ensures i in h ==>
                  GroupOk(env, fields, cells, rest, h, rest[i].field,
                          GroupMode(fields, rest, Order(env, fields, rest), rest[i].field), row)
        ensures !IsFullText(env, fields, index, fs[i]) && i !in h ==> FilterPasses(env.fold, fields, cells, fs[i], row)
      {
        assert Meets(env, fields, cells, index, fs, h, rest, i, row);
      }
    }
  }

  lemma OneLineByFilter(env: Env, fields: seq<Field>, cells: Cells, index: Index, fs: seq<FieldFilter>,
                        q: Option<string>, row: string)
    ensures OneLine(env, fields, cells, index, fs, q, row)
            <==> && (forall i: nat :: i < |fs| ==> Demands(env, fields, cells, index, fs, fs[i], row))
                 && QPasses(env, fields, cells, q, row)
  {
    hide Demands, QPasses;
  }

  /** When each filter of a group finds room or repeats one that does, the planner keeps exactly the
      rows of the one-line predicate that also satisfy the repeats without room as texts. */
  lemma KeepsWithTwins(env: Env, fields: seq<Field>, cells: Cells, index: Index, fs: seq<FieldFilter>,
                       q: Option<string>, row: string)
    requires OpsAgree(fs) && TwinsTaken(env, fields, index, fs)
    ensures Keeps(env, fields, cells, index, fs, q, row)
            <==> OneLine(env, fields, cells, index, fs, q, row) && SpillsPass(env, fields, cells, index, fs, row)
  {
    var rest := AfterFullText(env, fields, index, fs);
    KeepsByFilter(env, fields, cells, index, fs, q, row);
    OneLineByFilter(env, fields, cells, index, fs, q, row);
    hide *;
    forall i: nat | i < |fs|
      ensures var meets := Meets(env, fields, cells, index, fs, RefSet(env, fields, rest), rest, i, row);
              if IsGrouped(env, fields, index, fs, fs[i]) && !HasPlace(env, fields, index, fs, i)
              then meets <==> FilterPasses(env.fold, fields, cells, fs[i], row)
              else meets <==> Demands(env, fields, cells, index, fs, fs[i], row)
    {
      DemandAt(env, fields, cells, index, fs, i, row);
    }
    if forall i: nat :: i < |fs| ==> Meets(env, fields, cells, index, fs, RefSet(env, fields, rest), rest, i, row) {
      MetDemands(env, fields, cells, index, fs, row);
    }
    SpillsPassIs(env, fields, cells, index, fs, row);
  }

  lemma SpillsPassIs(env: Env, fields: seq<Field>, cells: Cells, index: Index, fs: seq<FieldFilter>, row: string)
    ensures SpillsPass(env, fields, cells, index, fs, row)
            <==> forall i: nat ::
                   i < |fs| && IsGrouped(env, fields, index, fs, fs[i]) && !HasPlace(env, fields, index, fs, i) ==>
                     FilterPasses(env.fold, fields, cells, fs[i], row)
  {
    hide IsGrouped, HasPlace, FilterPasses;
  }

  lemma MetDemands(env: Env, fields: seq<Field>, cells: Cells, index: Index, fs: seq<FieldFilter>, row: string)
    requires OpsAgree(fs) && TwinsTaken(env, fields, index, fs)
    requires var rest := AfterFullText(env, fields, index, fs);
             forall i: nat :: i < |fs| ==> Meets(env, fields, cells, index, fs, RefSet(env, fields, rest), rest, i, row)
    ensures forall i: nat :: i < |fs| ==> Demands(env, fields, cells, index, fs, fs[i], row)
  {
    hide Meets, Demands, IsGrouped, HasPlace, FilterPasses, AfterFullText, RefSet, OpsAgree, Twin;
    forall i: nat | i < |fs| ensures Demands(env, fields, cells, index, fs, fs[i], row) {
      DemandAt(env, fields, cells, index, fs, i, row);
      if IsGrouped(env, fields, index, fs, fs[i]) && !HasPlace(env, fields, index, fs, i) {
        var j: nat :| Twin(env, fields, index, fs, i, j);
        TwinDemands(env, fields, cells, index, fs, i, j, row);
        DemandAt(env, fields, cells, index, fs, j, row);
      }
    }
  }

  lemma TakenAreTwins(env: Env, fields: seq<Field>, index: Index, fs: seq<FieldFilter>)
    requires GroupedTaken(env, fields, index, fs)
    ensures TwinsTaken(env, fields, index, fs)
  {
    hide HasPlace;
    forall i: nat | i < |fs| && IsGrouped(env, fields, index, fs, fs[i])
      ensures exists j: nat :: Twin(env, fields, index, fs, i, j)
    {
      assert Twin(env, fields, index, fs, i, i);
    }
  }

  /** When the tables hold every grouped filter, the planner keeps exactly the rows of the one-line predicate. */
  lemma KeepsIsOneLine(env: Env, fields: seq<Field>, cells: Cells, index: Index, fs: seq<FieldFilter>,
                       q: Option<string>, row: string)
    requires OpsAgree(fs) && GroupedTaken(env, fields, index, fs)
    ensures Keeps(env, fields, cells, index, fs, q, row) <==> OneLine(env, fields, cells, index, fs, q, row)
  {
    TakenAreTwins(env, fields, index, fs);
    KeepsWithTwins(env, fields, cells, index, fs, q, row);
    hide Keeps, OneLine, IsGrouped, HasPlace, FilterPasses;
  }

  lemma SameMembersDemand(env: Env, fields: seq<Field>, cells: Cells, index: Index, fs: seq<FieldFilter>,
                          gs: seq<FieldFilter>, f: FieldFilter, row: string)
    requires forall g :: g in fs <==> g in gs
    ensures Demands(env, fields, cells, index, fs, f, row) <==> Demands(env, fields, cells, index, gs, f, row)
  {
    hide AsksRef, KindOf, IsFullText, IsHit, FilterPasses, Refers, NeedsAll;
    assert IsGrouped(env, fields, index, fs, f) <==> IsGrouped(env, fields, index, gs, f);
    hide IsGrouped;
  }

  lemma SameMembersOneLine(env: Env, fields: seq<Field>, cells: Cells, index: Index, fs: seq<FieldFilter>,
                           gs: seq<FieldFilter>, q: Option<string>, row: string)
    requires forall g :: g in fs <==> g in gs
    ensures OneLine(env, fields, cells, index, fs, q, row) <==> OneLine(env, fields, cells, index, gs, q, row)
  {
    hide Demands, QPasses;
    forall f ensures Demands(env, fields, cells, index, fs, f, row) <==> Demands(env, fields, cells, index, gs, f, row)
    {
      SameMembersDemand(env, fields, cells, index, fs, gs, f, row);
    }
  }

  /** So neither the order of the filters nor repeating one matters. */
  lemma FilterOrderIrrelevant(env: Env, fields: seq<Field>, cells: Cells, index: Index, fs: seq<FieldFilter>,
                              gs: seq<FieldFilter>, q: Option<string>, row: string)
    requires forall f :: f in fs <==> f in gs
    requires OpsAgree(fs) && GroupedTaken(env, fields, index, fs)
    requires OpsAgree(gs) && GroupedTaken(env, fields, index, gs)
    ensures Keeps(env, fields, cells, index, fs, q, row) <==> Keeps(env, fields, cells, index, gs, q, row)
  {
    hide *;
    KeepsIsOneLine(env, fields, cells, index, fs, q, row);
    KeepsIsOneLine(env, fields, cells, index, gs, q, row);
    SameMembersOneLine(env, fields, cells, index, fs, gs, q, row);
  }
}
