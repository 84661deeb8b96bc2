/** What a query answers, said of its filters, the cells and the index alone. */
module AnswerLaws {
  import opened Collections
  import opened Text
  import opened Wrappers
  import opened Punctuation
  import opened Tokens
  import opened Rows
  import opened View
  import opened Planner
  import opened PlannerLaws
  import opened SearchLaws
  import opened ViewLaws
  import opened Registry
  import QueryFormat

  // ---- fields -------------------------------------------------------------------------------

  /** The first field of the name. */
  predicate FieldAt(fields: seq<Field>, name: string, i: int) {
    0 <= i < |fields| && fields[i].name == name && forall j :: 0 <= j < i ==> fields[j].name != name
  }

  lemma FieldIs(fields: seq<Field>, name: string)
    ensures forall i :: FieldAt(fields, name, i) <==> i == FieldIndex(fields, name) < |fields|
  {
    hide FieldIndex;
  }

  predicate Valued(f: FieldFilter) {
    f.value.Some? && f.value.value != ""
  }

  // ---- full text ----------------------------------------------------------------------------

  /** What the index replies: to the text, or to the phrase between quotation marks. */
  function Reply(env: Env, index: Index, f: FieldFilter): Option<seq<string>> {
    if f.value.None? || f.value.value == "" then None
    else
      var v := f.value.value;
      if v[0] == '"' then
        if |v| >= 3 && v[|v| - 1] == '"' then env.search(index, f.field, v[1..|v| - 1], true) else None
      else env.search(index, f.field, v, false)
  }

  ghost predicate Answered(env: Env, fields: seq<Field>, index: Index, f: FieldFilter) {
    (exists i :: FieldAt(fields, f.field, i) && fields[i].searchable) && Reply(env, index, f).Some?
  }

  lemma AnsweredIff(env: Env, fields: seq<Field>, index: Index, f: FieldFilter)
    ensures IsFullText(env, fields, index, f) <==> Answered(env, fields, index, f)
    ensures IsFullText(env, fields, index, f) ==> Hits(env, index, f) == Reply(env, index, f)
  {
    FieldIs(fields, f.field);
    hide FieldIndex;
  }

  // ---- what one filter wants ------------------------------------------------------------------

  /** All values of the group are wanted: by the operator, or by default. */
  ghost predicate AllWanted(fields: seq<Field>, f: FieldFilter) {
    match f.op
    case Some(op) => op == "and"
    case None => exists i :: FieldAt(fields, f.field, i) && fields[i].combine
  }

  /** The token that a value is stored as: the numeral of its position, or its first 63 bytes. */
  ghost predicate IsToken(target: Target, v: string, t: string) {
    match target.pos(v)
    case Some(n) => Denotes(t, n)
    case None => t == if |v| < 64 then v else v[..63]
  }

  /** The row's cell has a line that is the token of the value. */
  ghost predicate HasValueLine(cells: Cells, row: string, field: string, target: Target, v: string) {
    row in cells && field in cells[row] && exists t :: IsToken(target, v, t) && HasLine(cells[row][field], t)
  }

  /** Filters of the field that have a value and are left to the cells. */
  ghost predicate Alongside(env: Env, fields: seq<Field>, index: Index, fs: seq<FieldFilter>, f: FieldFilter,
                            g: FieldFilter)
  {
    g in fs && g.field == f.field && Valued(g) && !Answered(env, fields, index, g)
  }

  ghost predicate OtherValue(env: Env, fields: seq<Field>, index: Index, fs: seq<FieldFilter>, f: FieldFilter) {
    exists g :: Alongside(env, fields, index, fs, f, g) && g.value != f.value
  }

  /** What a filter of a multi-reference field with a registered target wants, with those alongside. */
  ghost predicate LinesWanted(env: Env, fields: seq<Field>, cells: Cells, index: Index, fs: seq<FieldFilter>,
                              f: FieldFilter, target: Target, row: string)
  {
    if AllWanted(fields, f) then
      forall g :: Alongside(env, fields, index, fs, f, g) ==> HasValueLine(cells, row, f.field, target, g.value.value)
    else
      exists g :: Alongside(env, fields, index, fs, f, g) && HasValueLine(cells, row, f.field, target, g.value.value)
  }

  /** What a filter of a plain reference wants when several values are asked for. */
  ghost predicate ValueWanted(env: Env, fields: seq<Field>, cells: Cells, index: Index, fs: seq<FieldFilter>,
                              f: FieldFilter, row: string)
  {
    && !AllWanted(fields, f) && row in cells && f.field in cells[row]
    && exists g :: Alongside(env, fields, index, fs, f, g) && g.value == Some(cells[row][f.field])
  }

  ghost predicate FieldWants(env: Env, fields: seq<Field>, cells: Cells, index: Index, fs: seq<FieldFilter>,
                             f: FieldFilter, field: Field, row: string)
  {
    if field.kind == MultiReference && field.target.Some? && field.target.value in env.targets then
      LinesWanted(env, fields, cells, index, fs, f, env.targets[field.target.value], row)
    else if field.kind == Reference && OtherValue(env, fields, index, fs, f) then
      ValueWanted(env, fields, cells, index, fs, f, row)
    else CellHas(env.fold, cells, row, f, field.kind == MultiReference)
  }

  /** What a filter wants of a row, given which others there are. */
  ghost predicate Wanted(env: Env, fields: seq<Field>, cells: Cells, index: Index, fs: seq<FieldFilter>,
                         f: FieldFilter, row: string)
  {
    if Answered(env, fields, index, f) then row in Reply(env, index, f).value
    else if !Valued(f) then true
    else if exists i :: FieldAt(fields, f.field, i) then
      exists i :: FieldAt(fields, f.field, i) && FieldWants(env, fields, cells, index, fs, f, fields[i], row)
    else CellHas(env.fold, cells, row, f, false)
  }

  lemma AllWantedIff(fields: seq<Field>, f: FieldFilter)
    ensures NeedsAll(fields, f) <==> AllWanted(fields, f)
  {
    FieldIs(fields, f.field);
    hide FieldIndex;
  }

  lemma TokenIff(env: Env, fields: seq<Field>, g: FieldFilter, target: Target, t: string)
    requires KindOf(fields, g.field) == MultiReference && TargetOf(env, fields, g.field) == Some(target) && Valued(g)
    ensures IsToken(target, g.value.value, t) <==> t == Needle(env, fields, g)
  {
    if target.pos(g.value.value).Some? {
      DenotesIs(t, target.pos(g.value.value).value);
    }
    hide KindOf, TargetOf, Denotes, Digits;
    assert g.value.value[..|g.value.value|] == g.value.value;
  }

  lemma LineIff(env: Env, fields: seq<Field>, cells: Cells, g: FieldFilter, target: Target, row: string)
    requires KindOf(fields, g.field) == MultiReference && TargetOf(env, fields, g.field) == Some(target) && Valued(g)
    ensures Refers(env, fields, cells, g, row) <==> HasValueLine(cells, row, g.field, target, g.value.value)
  {
    forall t ensures IsToken(target, g.value.value, t) <==> t == Needle(env, fields, g) {
      TokenIff(env, fields, g, target, t);
    }
    if row in cells && g.field in cells[row] {
      TokenIsLine(cells[row][g.field], Needle(env, fields, g));
    }
    hide KindOf, TargetOf, Needle, IsToken, HasToken, HasLine;
  }

  lemma ValueIff(env: Env, fields: seq<Field>, cells: Cells, g: FieldFilter, row: string)
    requires KindOf(fields, g.field) == Reference && Valued(g)
    ensures Refers(env, fields, cells, g, row)
            <==> row in cells && g.field in cells[row] && g.value == Some(cells[row][g.field])
  {
    hide KindOf, TargetOf;
  }

  /** Filters alongside are those of the group. */
  lemma AlongsideIff(env: Env, fields: seq<Field>, index: Index, fs: seq<FieldFilter>, f: FieldFilter, g: FieldFilter)
    requires KindOf(fields, f.field) == Reference
             || (KindOf(fields, f.field) == MultiReference && TargetOf(env, fields, f.field).Some?)
    ensures Alongside(env, fields, index, fs, f, g) <==> g in fs && AsksRef(env, fields, index, g) && g.field == f.field
  {
    AnsweredIff(env, fields, index, g);
    hide KindOf, TargetOf, Answered, IsFullText;
  }

  lemma TestIff(env: Env, fields: seq<Field>, cells: Cells, f: FieldFilter, row: string)
    requires Valued(f)
    ensures FilterPasses(env.fold, fields, cells, f, row)
            <==> CellHas(env.fold, cells, row, f, KindOf(fields, f.field) == MultiReference)
  {
    CellHasIff(env.fold, fields, cells, f, row);
    hide CellHas, FilterPasses, FieldIndex;
  }

  lemma UnvaluedPasses(env: Env, fields: seq<Field>, cells: Cells, f: FieldFilter, row: string)
    requires !Valued(f)
    ensures FilterPasses(env.fold, fields, cells, f, row)
  {
    hide RowFieldVal, FieldIndex;
  }

  lemma LinesWantedIff(env: Env, fields: seq<Field>, cells: Cells, index: Index, fs: seq<FieldFilter>, f: FieldFilter,
                       target: Target, row: string)
    requires f in fs && Valued(f) && !Answered(env, fields, index, f)
    requires KindOf(fields, f.field) == MultiReference && TargetOf(env, fields, f.field) == Some(target)
    ensures Demands(env, fields, cells, index, fs, f, row)
            <==> LinesWanted(env, fields, cells, index, fs, f, target, row)
  {
    AllWantedIff(fields, f);
    AnsweredIff(env, fields, index, f);
    forall g
      ensures Alongside(env, fields, index, fs, f, g)
              <==> g in fs && AsksRef(env, fields, index, g) && g.field == f.field
      ensures Alongside(env, fields, index, fs, f, g) ==>
                (Refers(env, fields, cells, g, row) <==> HasValueLine(cells, row, f.field, target, g.value.value))
    {
      AlongsideIff(env, fields, index, fs, f, g);
      if Alongside(env, fields, index, fs, f, g) {
        LineIff(env, fields, cells, g, target, row);
      }
      hide Answered, KindOf, TargetOf, AsksRef, Refers, HasValueLine;
    }
    hide IsFullText, Answered, KindOf, TargetOf, Refers, HasValueLine, NeedsAll, AllWanted, Alongside;
  }

  lemma ValueWantedIff(env: Env, fields: seq<Field>, cells: Cells, index: Index, fs: seq<FieldFilter>, f: FieldFilter,
                       row: string)
    requires f in fs && Valued(f) && !Answered(env, fields, index, f) && KindOf(fields, f.field) == Reference
    ensures IsGrouped(env, fields, index, fs, f) <==> OtherValue(env, fields, index, fs, f)
    ensures OtherValue(env, fields, index, fs, f) ==>
              (Demands(env, fields, cells, index, fs, f, row)
               <==> ValueWanted(env, fields, cells, index, fs, f, row))
  {
    AllWantedIff(fields, f);
    AnsweredIff(env, fields, index, f);
    forall g
      ensures Alongside(env, fields, index, fs, f, g)
              <==> g in fs && AsksRef(env, fields, index, g) && g.field == f.field
      ensures Alongside(env, fields, index, fs, f, g) ==>
                (Refers(env, fields, cells, g, row)
                 <==> row in cells && f.field in cells[row] && g.value == Some(cells[row][f.field]))
    {
      AlongsideIff(env, fields, index, fs, f, g);
      if Alongside(env, fields, index, fs, f, g) {
        ValueIff(env, fields, cells, g, row);
      }
      hide Answered, KindOf, TargetOf, AsksRef, Refers;
    }
    assert Alongside(env, fields, index, fs, f, f);
    hide IsFullText, Answered, KindOf, TargetOf, Refers, NeedsAll, AllWanted, Alongside;
  }

  lemma UngroupedDemands(env: Env, fields: seq<Field>, cells: Cells, index: Index, fs: seq<FieldFilter>, f: FieldFilter,
                         row: string)
    requires !IsFullText(env, fields, index, f) && !IsGrouped(env, fields, index, fs, f)
    ensures Demands(env, fields, cells, index, fs, f, row) <==> FilterPasses(env.fold, fields, cells, f, row)
  {
    hide IsFullText, IsGrouped, FilterPasses;
  }

  lemma UnvaluedUngrouped(env: Env, fields: seq<Field>, index: Index, fs: seq<FieldFilter>, f: FieldFilter)
    requires !Valued(f) || (KindOf(fields, f.field) != Reference
                            && (KindOf(fields, f.field) != MultiReference || TargetOf(env, fields, f.field).None?))
    ensures !IsGrouped(env, fields, index, fs, f)
  {
    hide KindOf, TargetOf, IsFullText;
  }

  lemma FieldWantsIff(env: Env, fields: seq<Field>, cells: Cells, index: Index, fs: seq<FieldFilter>, f: FieldFilter,
                      i: nat, row: string)
    requires f in fs && Valued(f) && !Answered(env, fields, index, f) && FieldAt(fields, f.field, i)
    ensures Demands(env, fields, cells, index, fs, f, row)
            <==> FieldWants(env, fields, cells, index, fs, f, fields[i], row)
  {
    FieldIs(fields, f.field);
    AnsweredIff(env, fields, index, f);
    assert KindOf(fields, f.field) == fields[i].kind;
    assert TargetOf(env, fields, f.field)
           == if fields[i].target.Some? && fields[i].target.value in env.targets
              then Some(env.targets[fields[i].target.value]) else None;
    hide FieldIndex, KindOf, TargetOf, Answered, IsFullText, Demands, IsGrouped, FilterPasses, FieldAt, Valued;
    hide LinesWanted, ValueWanted, CellHas, OtherValue;
    if fields[i].kind == MultiReference && fields[i].target.Some? && fields[i].target.value in env.targets {
      LinesWantedIff(env, fields, cells, index, fs, f, env.targets[fields[i].target.value], row);
    } else if fields[i].kind == Reference {
      ValueWantedIff(env, fields, cells, index, fs, f, row);
      if !OtherValue(env, fields, index, fs, f) {
        UngroupedDemands(env, fields, cells, index, fs, f, row);
        TestIff(env, fields, cells, f, row);
      }
    } else {
      UnvaluedUngrouped(env, fields, index, fs, f);
      UngroupedDemands(env, fields, cells, index, fs, f, row);
      TestIff(env, fields, cells, f, row);
    }
  }

  lemma WantedIff(env: Env, fields: seq<Field>, cells: Cells, index: Index, fs: seq<FieldFilter>, f: FieldFilter,
                  row: string)
    requires f in fs
    ensures Demands(env, fields, cells, index, fs, f, row) <==> Wanted(env, fields, cells, index, fs, f, row)
  {
    AnsweredIff(env, fields, index, f);
    if Answered(env, fields, index, f) {
      assert Demands(env, fields, cells, index, fs, f, row) <==> row in Hits(env, index, f).value;
    } else if !Valued(f) {
      UnvaluedUngrouped(env, fields, index, fs, f);
      UngroupedDemands(env, fields, cells, index, fs, f, row);
      UnvaluedPasses(env, fields, cells, f, row);
    } else if i :| FieldAt(fields, f.field, i) {
      FieldWantsIff(env, fields, cells, index, fs, f, i, row);
      hide Demands, FieldWants, IsFullText, Answered;
      assert forall k :: FieldAt(fields, f.field, k) ==> k == i;
    } else {
      FieldIs(fields, f.field);
      assert !FieldAt(fields, f.field, FieldIndex(fields, f.field));
      assert KindOf(fields, f.field) == Value;
      hide FieldIndex, KindOf, Demands, IsFullText, Answered, CellHas, FilterPasses;
      UnvaluedUngrouped(env, fields, index, fs, f);
      UngroupedDemands(env, fields, cells, index, fs, f, row);
      TestIff(env, fields, cells, f, row);
    }
  }

  // ---- the search text ------------------------------------------------------------------------

  /** A text with punctuation left out of account is in another. */
  ghost predicate Found(env: Env, str: string, q: string) {
    var fsub, fstr := env.fold(256, Norm(256, q)), env.fold(4096, Norm(4096, str));
    q == "" || (fsub.Some? && fstr.Some? && exists i :: FoundAt(fsub.value, fstr.value, i))
  }

  /** The field that labels the rows of a source: the first that is not "id". */
  predicate LabelAt(fields: seq<Field>, i: int) {
    0 <= i < |fields| && fields[i].name != "id" && forall j :: 0 <= j < i ==> fields[j].name == "id"
  }

  /** The label of the row that a line names, by its slug or by the numeral of its position. */
  ghost predicate LabelFound(env: Env, target: Target, line: string, q: string) {
    line != "" &&
    var name := if |line| < 256 then line else line[..255];
    var slug := if '0' <= name[0] <= '9' && target.keyAt(name).Some? then target.keyAt(name).value else name;
    exists i :: LabelAt(target.fields, i) && slug in target.cells && target.fields[i].name in target.cells[slug]
                && Found(env, target.cells[slug][target.fields[i].name], q)
  }

  /** What a field holds for a row: its cell, or what its provider derives. */
  function TextIn(env: Env, cells: Cells, row: string, f: Field): Option<string> {
    if f.kind == Derived then env.derive(row, f.name)
    else if row in cells && f.name in cells[row] then Some(cells[row][f.name]) else None
  }

  /** The search text is in the text of a field, or in the label of something the field refers to. */
  ghost predicate FieldHas(env: Env, cells: Cells, row: string, f: Field, q: string) {
    TextIn(env, cells, row, f).Some? &&
    var text := TextIn(env, cells, row, f).value;
    Found(env, text, q)
    || (f.kind in [Reference, MultiReference] && f.target.Some? && f.target.value in env.targets
        && exists line :: HasLine(text, line) && LabelFound(env, env.targets[f.target.value], line, q))
  }

  ghost predicate RowHasQ(env: Env, fields: seq<Field>, cells: Cells, row: string, q: Option<string>) {
    q.None? || q.value == "" || Found(env, row, q.value)
    || exists i :: 0 <= i < |fields| && FieldHas(env, cells, row, fields[i], q.value)
  }

  lemma {:induction false} LabelIs(fields: seq<Field>)
    ensures forall i :: LabelAt(fields, i) ==> DisplayField(fields) == Some(fields[i].name)
    ensures DisplayField(fields).Some? ==> exists i :: LabelAt(fields, i)
  {
    if fields != [] {
      LabelIs(fields[1..]);
      assert forall i :: 1 <= i < |fields| ==> fields[i] == fields[1..][i - 1];
      if fields[0].name != "id" {
        assert LabelAt(fields, 0);
      } else {
        forall i | LabelAt(fields, i) ensures LabelAt(fields[1..], i - 1) {
        }
        if DisplayField(fields).Some? {
          var i :| LabelAt(fields[1..], i);
          assert LabelAt(fields, i + 1);
        }
      }
    }
  }

  lemma LabelFoundIff(env: Env, target: Target, line: string, q: string)
    ensures LabelFound(env, target, line, q)
            <==> DisplayField(target.fields).Some?
                 && LabelMatches(env, target, DisplayField(target.fields).value, q, line)
  {
    LabelIs(target.fields);
    if line != "" {
      var name := if |line| < 256 then line else line[..255];
      assert line[..|line|] == line;
      assert name == line[..Min(|line|, 255)];
      var slug := if '0' <= name[0] <= '9' && target.keyAt(name).Some? then target.keyAt(name).value else name;
      if DisplayField(target.fields).Some? {
        var shown := Label(target, name, DisplayField(target.fields).value);
        assert shown == Cell(target.cells, slug, DisplayField(target.fields).value);
        if shown.Some? {
          SearchFoundIff(env.fold, shown.value, q);
        }
      }
    }
    hide LabelAt, DisplayField, PunctMatches, Norm, FoundAt, Label;
  }

  lemma FieldHasIff(env: Env, cells: Cells, row: string, f: Field, q: string)
    ensures FieldMatchesQ(env, cells, f, row, q) <==> FieldHas(env, cells, row, f, q)
  {
    var text := TextIn(env, cells, row, f);
    assert Stored(env, cells, f, row) == text;
    if text.Some? {
      SearchFoundIff(env.fold, text.value, q);
      if f.target.Some? && f.target.value in env.targets {
        var target := env.targets[f.target.value];
        forall line
          ensures HasLine(text.value, line) <==> line in Split(text.value, '\n')
          ensures LabelFound(env, target, line, q)
                  <==> DisplayField(target.fields).Some?
                       && LabelMatches(env, target, DisplayField(target.fields).value, q, line)
        {
          TokenIsLine(text.value, line);
          LabelFoundIff(env, target, line, q);
        }
      }
    }
    hide Stored, TextIn, PunctMatches, Norm, FoundAt, HasLine, Split, LabelFound, LabelMatches, DisplayField;
  }

  lemma RowHasQIff(env: Env, fields: seq<Field>, cells: Cells, row: string, q: Option<string>)
    ensures QPasses(env, fields, cells, q, row) <==> RowHasQ(env, fields, cells, row, q)
  {
    if q.Some? && q.value != "" {
      SearchFoundIff(env.fold, row, q.value);
      forall i | 0 <= i < |fields|
        ensures FieldMatchesQ(env, cells, fields[i], row, q.value) <==> FieldHas(env, cells, row, fields[i], q.value)
      {
        FieldHasIff(env, cells, row, fields[i], q.value);
      }
    }
    hide FieldMatchesQ, FieldHas, PunctMatches, Norm, FoundAt;
  }

  /** The one-line predicate is what the filters and the search text want. */
  lemma OneLineMeaning(env: Env, fields: seq<Field>, cells: Cells, index: Index, fs: seq<FieldFilter>,
                       q: Option<string>, row: string)
    ensures OneLine(env, fields, cells, index, fs, q, row)
            <==> (forall f :: f in fs ==> Wanted(env, fields, cells, index, fs, f, row))
                 && RowHasQ(env, fields, cells, row, q)
  {
    RowHasQIff(env, fields, cells, row, q);
    forall f | f in fs
      ensures Demands(env, fields, cells, index, fs, f, row) <==> Wanted(env, fields, cells, index, fs, f, row)
    {
      WantedIff(env, fields, cells, index, fs, f, row);
    }
    hide Demands, Wanted, QPasses, RowHasQ;
  }

  /** The filters of a query that was written come to the planner as they were written. */
  lemma WrittenFilters(q: QueryParser.Query)
    requires QueryFormat.WritableQuery(q)
    ensures QueryFormat.AllWritable(QueryFormat.PartsOf(q))
    ensures var fs := FiltersFrom(QueryFormat.Write(QueryFormat.PartsOf(q)));
            && |fs| == |q.filters|
            && forall i :: 0 <= i < |fs| ==>
                 fs[i] == FieldFilter(q.filters[i].field, Some(q.filters[i].value), q.filters[i].op)
  {
    QueryFormat.ParseInvertsWrite(q);
    hide QueryParser.Meaning, QueryFormat.Write, QueryFormat.PartsOf, QueryFormat.WritableQuery;
  }

  // ---- room in the tables -----------------------------------------------------------------------

  /** A filter of a reference that is left to the cells. */
  ghost predicate AsksReference(env: Env, fields: seq<Field>, index: Index, f: FieldFilter) {
    Valued(f) && !Answered(env, fields, index, f)
    && exists i :: FieldAt(fields, f.field, i)
         && (fields[i].kind == Reference
             || (fields[i].kind == MultiReference && fields[i].target.Some? && fields[i].target.value in env.targets))
  }

  lemma AsksReferenceIff(env: Env, fields: seq<Field>, index: Index, f: FieldFilter)
    ensures AsksRef(env, fields, index, f) <==> AsksReference(env, fields, index, f)
  {
    AnsweredIff(env, fields, index, f);
    FieldIs(fields, f.field);
    hide FieldIndex, Answered, IsFullText;
  }

  ghost function AskersBefore(env: Env, fields: seq<Field>, index: Index, fs: seq<FieldFilter>, i: nat): set<nat>
    requires i <= |fs|
  {
    set j: nat | j < i && AsksReference(env, fields, index, fs[j])
  }

  ghost function NamesAt(fs: seq<FieldFilter>, at: set<nat>): set<string>
    requires forall j :: j in at ==> j < |fs|
  {
    set j | j in at :: fs[j].field
  }

  lemma NamesMore(fs: seq<FieldFilter>, at: set<nat>, i: nat)
    requires (forall j :: j in at ==> j < |fs|) && i < |fs|
    ensures NamesAt(fs, at + {i}) == NamesAt(fs, at) + {fs[i].field}
  {
  }

  lemma AskersMore(env: Env, fields: seq<Field>, index: Index, fs: seq<FieldFilter>, i: nat)
    requires i < |fs|
    ensures var before, now := AskersBefore(env, fields, index, fs, i), AskersBefore(env, fields, index, fs, i + 1);
            if AsksReference(env, fields, index, fs[i]) then
              |now| == |before| + 1 && NamesAt(fs, now) == NamesAt(fs, before) + {fs[i].field}
            else now == before
  {
    hide AsksReference, NamesAt;
    var before, now := AskersBefore(env, fields, index, fs, i), AskersBefore(env, fields, index, fs, i + 1);
    if AsksReference(env, fields, index, fs[i]) {
      assert now == before + {i};
      NamesMore(fs, before, i);
    } else {
      assert now == before;
    }
  }

  lemma {:induction false} AskersCounted(env: Env, fields: seq<Field>, index: Index, fs: seq<FieldFilter>, i: nat)
    requires i <= |fs|
    ensures var rest, before := AfterFullText(env, fields, index, fs), AskersBefore(env, fields, index, fs, i);
            RefCount(env, fields, rest[..i]) == |before| && RefFields(env, fields, rest[..i]) == NamesAt(fs, before)
  {
    var rest := AfterFullText(env, fields, index, fs);
    if i > 0 {
      LeftAsks(env, fields, index, fs, i - 1);
      hide *;
      AskersCounted(env, fields, index, fs, i - 1);
      AsksReferenceIff(env, fields, index, fs[i - 1]);
      assert rest[..i] == rest[..i - 1] + [rest[i - 1]];
      RefFieldsSnoc(env, fields, rest[..i - 1], rest[i - 1]);
      AskersMore(env, fields, index, fs, i - 1);
    } else {
      assert rest[..0] == [];
      assert AskersBefore(env, fields, index, fs, 0) == {};
    }
  }

  /** A filter finds room when fewer than 32 such filters come before it, on fewer than 16 fields. */
  lemma PlaceIff(env: Env, fields: seq<Field>, index: Index, fs: seq<FieldFilter>, i: nat)
    requires i < |fs|
    ensures var before := AskersBefore(env, fields, index, fs, i);
            HasPlace(env, fields, index, fs, i) <==> |before| < 32 && |NamesAt(fs, before)| < 16
  {
    AskersCounted(env, fields, index, fs, i);
    hide AfterFullText, AskersBefore, RefCount, RefFields;
  }

  // ---- the answer -------------------------------------------------------------------------------

  /** The rows of a list at increasing positions. */
  predicate PickedAt(kept: seq<string>, from: seq<string>, at: seq<nat>) {
    && |at| == |kept| && (forall k :: 0 <= k < |at| ==> at[k] < |from| && kept[k] == from[at[k]])
    && forall k, l :: 0 <= k < l < |at| ==> at[k] < at[l]
  }

  ghost predicate PicksInOrder(kept: seq<string>, from: seq<string>) {
    exists at :: PickedAt(kept, from, at)
  }

  lemma PickedMore(kept: seq<string>, from: seq<string>, at: seq<nat>, last: string)
    requires PickedAt(kept, from, at)
    ensures PickedAt(kept, from + [last], at) && PickedAt(kept + [last], from + [last], at + [|from|])
  {
    assert forall k :: 0 <= k < |from| ==> (from + [last])[k] == from[k];
  }

  lemma {:induction false} SiftPicks(s: seq<string>, keep: set<string>)
    ensures PicksInOrder(Sift(s, keep), s)
  {
    if s == [] {
      assert PickedAt([], s, []);
    } else {
      var front, last := s[..|s| - 1], s[|s| - 1];
      assert s == front + [last];
      SiftPicks(front, keep);
      var at :| PickedAt(Sift(front, keep), front, at);
      PickedMore(Sift(front, keep), front, at, last);
      hide PickedAt;
    }
  }

  ghost predicate FirstAnswered(env: Env, fields: seq<Field>, index: Index, fs: seq<FieldFilter>, i: int) {
    && 0 <= i < |fs| && Answered(env, fields, index, fs[i])
    && forall j :: 0 <= j < i ==> !Answered(env, fields, index, fs[j])
  }

  /** Where the rows come from: the reply to the first filter that is answered, or else the source. */
  ghost predicate StartsWith(env: Env, fields: seq<Field>, index: Index, fs: seq<FieldFilter>, rows: seq<string>,
                             start: seq<string>)
  {
    if exists i :: FirstAnswered(env, fields, index, fs, i)
    then exists i :: FirstAnswered(env, fields, index, fs, i) && Some(start) == Reply(env, index, fs[i])
    else start == rows && forall f :: f in fs ==> !Answered(env, fields, index, f)
  }

  lemma FirstAnsweredMore(env: Env, fields: seq<Field>, index: Index, fs: seq<FieldFilter>)
    requires fs != []
    ensures forall i :: FirstAnswered(env, fields, index, fs[..|fs| - 1], i) ==>
              FirstAnswered(env, fields, index, fs, i) && fs[i] == fs[..|fs| - 1][i]
  {
    hide Answered;
    assert forall i :: 0 <= i < |fs| - 1 ==> fs[i] == fs[..|fs| - 1][i];
  }

  lemma {:induction false} FirstReply(env: Env, fields: seq<Field>, index: Index, fs: seq<FieldFilter>)
    ensures match FirstHits(env, fields, index, fs)
            case None => forall i :: 0 <= i < |fs| ==> !Answered(env, fields, index, fs[i])
            case Some(start) =>
              exists i :: FirstAnswered(env, fields, index, fs, i) && Some(start) == Reply(env, index, fs[i])
  {
    if fs != [] {
      FirstReply(env, fields, index, fs[..|fs| - 1]);
      AnsweredIff(env, fields, index, fs[|fs| - 1]);
      FirstAnsweredMore(env, fields, index, fs);
      hide Answered, IsFullText, Hits, Reply;
      var before := FirstHits(env, fields, index, fs[..|fs| - 1]);
      if before.Some? {
        hide FirstAnswered;
      } else {
        assert forall i :: 0 <= i < |fs| - 1 ==> fs[i] == fs[..|fs| - 1][i];
        assert FirstAnswered(env, fields, index, fs, |fs| - 1) || !Answered(env, fields, index, fs[|fs| - 1]);
      }
    }
  }

  lemma StartIs(env: Env, fields: seq<Field>, index: Index, fs: seq<FieldFilter>, rows: seq<string>)
    ensures StartsWith(env, fields, index, fs, rows, Start(env, fields, index, fs, rows))
  {
    FirstReply(env, fields, index, fs);
    hide Answered, Reply, FirstHits;
  }

  lemma KeepsMeaning(env: Env, fields: seq<Field>, cells: Cells, index: Index, fs: seq<FieldFilter>, q: Option<string>)
    requires OpsAgree(fs) && GroupedTaken(env, fields, index, fs)
    ensures forall r :: Keeps(env, fields, cells, index, fs, q, r) <==> Satisfies(env, fields, cells, index, fs, q, r)
  {
    hide *;
    forall r
      ensures Keeps(env, fields, cells, index, fs, q, r) <==> Satisfies(env, fields, cells, index, fs, q, r)
    {
      KeepsIsOneLine(env, fields, cells, index, fs, q, r);
      OneLineMeaning(env, fields, cells, index, fs, q, r);
      SatisfiesIs(env, fields, cells, index, fs, q, r);
    }
  }

  /** A row has what every filter and the search text want. */
  ghost predicate Satisfies(env: Env, fields: seq<Field>, cells: Cells, index: Index, fs: seq<FieldFilter>,
                            q: Option<string>, row: string)
  {
    (forall f :: f in fs ==> Wanted(env, fields, cells, index, fs, f, row)) && RowHasQ(env, fields, cells, row, q)
  }

  lemma SatisfiesIs(env: Env, fields: seq<Field>, cells: Cells, index: Index, fs: seq<FieldFilter>, q: Option<string>,
                    row: string)
    ensures Satisfies(env, fields, cells, index, fs, q, row)
            <==> (forall f :: f in fs ==> Wanted(env, fields, cells, index, fs, f, row))
                 && RowHasQ(env, fields, cells, row, q)
  {
    hide Wanted, RowHasQ;
  }

  lemma KeptIs(env: Env, fields: seq<Field>, cells: Cells, index: Index, fs: seq<FieldFilter>, q: Option<string>,
               rows: seq<string>)
    ensures var start, kept := Start(env, fields, index, fs, rows), KeptRows(env, fields, cells, index, fs, q, rows);
            && PicksInOrder(kept, start) && |kept| <= |start|
            && forall r :: r in kept <==> r in start && Keeps(env, fields, cells, index, fs, q, r)
  {
    hide Keeps, Start, PicksInOrder;
    var start := Start(env, fields, index, fs, rows);
    var keep := set r | r in start && Keeps(env, fields, cells, index, fs, q, r);
    SiftPicks(start, keep);
    SiftIn(start, keep);
  }

  /** When every grouped filter finds room, a query shows a page of exactly the rows that satisfy what
      its filters and its search text want, in the order they start in. */
  lemma AnswerMeaning(env: Env, parse: Parse, fields: seq<Field>, cells: Cells, tokens: Records.TokenMap,
                      query: RowQuery, rows: seq<string>, out: seq<string>, total: nat)
    returns (start: seq<string>, kept: seq<string>)
    requires Answers(env, parse, fields, cells, Rebuilt(fields, rows, cells, tokens), query, rows, out, total)
    requires SearchLaw(env.search) && Distinct(rows) && |rows| < UINT32 && OpsAgree(query.filters)
    requires GroupedTaken(env, fields, Rebuilt(fields, rows, cells, tokens), query.filters)
    ensures StartsWith(env, fields, Rebuilt(fields, rows, cells, tokens), query.filters, rows, start)
    ensures PicksInOrder(kept, start) && Shows(query.view, kept, out, total)
    ensures IsPage(parse, cells, query.view, kept, out, total)
    ensures forall r :: r in kept <==>
              && r in start
              && Satisfies(env, fields, cells, Rebuilt(fields, rows, cells, tokens), query.filters, query.q, r)
  {
    var index, fs := Rebuilt(fields, rows, cells, tokens), query.filters;
    start, kept := Start(env, fields, index, fs, rows), KeptRows(env, fields, cells, index, fs, query.q, rows);
    assert IsPage(parse, cells, query.view, kept, out, total);
    hide *;
    StartIs(env, fields, index, fs, rows);
    StartInside(env, fields, cells, tokens, fs, rows);
    KeptIs(env, fields, cells, index, fs, query.q, rows);
    KeepsMeaning(env, fields, cells, index, fs, query.q);
    PageIsShown(parse, cells, query.view, kept, out, total);
  }
}
