/** When the planner keeps exactly the rows that the filters ask for: the condition on the filters,
    over all lawful environments and all cells. */
module PlannerExact {
  import opened Text
  import opened Wrappers
  import opened Matching
  import opened Tokens
  import opened Rows
  import opened View
  import opened Planner
  import opened PlannerLaws
  import opened Environments

  // ---- the condition ---------------------------------------------------------------------------

  /** A filter of a group that finds no room in the tables. */
  ghost predicate Spilled(env: Env, fields: seq<Field>, index: Index, fs: seq<FieldFilter>, i: nat) {
    i < |fs| && IsGrouped(env, fields, index, fs, fs[i]) && !HasPlace(env, fields, index, fs, i)
  }

  ghost predicate PlacedOn(env: Env, fields: seq<Field>, index: Index, fs: seq<FieldFilter>, name: string, j: nat) {
    j < |fs| && HasPlace(env, fields, index, fs, j) && AsksRef(env, fields, index, fs[j]) && fs[j].field == name
  }

  /** A row whose key for this field outgrows the buffer fails one of the other text tests as well. */
  ghost predicate CutTogether(env: Env, fields: seq<Field>, index: Index, fs: seq<FieldFilter>, name: string) {
    forall row :: HitsAll(env, fields, index, fs, row) && Overlong(row, name) ==>
      exists g :: g in fs && TextTested(env, fields, index, fs, g) && Overlong(row, g.field)
  }

  ghost predicate InAll(env: Env, fields: seq<Field>, index: Index, fs: seq<FieldFilter>, f: FieldFilter) {
    forall g :: g in fs && AsksRef(env, fields, index, g) && g.field == f.field ==>
      Occurs(f.value.GetOr(""), g.value.GetOr(""))
  }

  /** A spilled filter that changes nothing: it repeats a value asked of a plain reference by one
      filter that finds room, another value is asked by another one, its value occurs in every value
      asked of the field, and its text test fails for overlong keys only with others. */
  ghost predicate Harmless(env: Env, fields: seq<Field>, index: Index, fs: seq<FieldFilter>, f: FieldFilter) {
    && KindOf(fields, f.field) == Reference && InAll(env, fields, index, fs, f)
    && (exists j: nat :: PlacedOn(env, fields, index, fs, f.field, j) && fs[j].value == f.value)
    && (exists j: nat :: PlacedOn(env, fields, index, fs, f.field, j) && fs[j].value != f.value)
    && CutTogether(env, fields, index, fs, f.field)
  }

  ghost predicate AllHarmless(env: Env, fields: seq<Field>, index: Index, fs: seq<FieldFilter>) {
    forall i: nat :: Spilled(env, fields, index, fs, i) ==> Harmless(env, fields, index, fs, fs[i])
  }

  // ---- enough ------------------------------------------------------------------------------------

  lemma HarmlessTwins(env: Env, fields: seq<Field>, index: Index, fs: seq<FieldFilter>)
    requires AllHarmless(env, fields, index, fs)
    ensures TwinsTaken(env, fields, index, fs)
  {
    hide HasPlace, KindOf, InAll, CutTogether;
    forall i: nat | i < |fs| && IsGrouped(env, fields, index, fs, fs[i])
      ensures exists j: nat :: Twin(env, fields, index, fs, i, j)
    {
      if HasPlace(env, fields, index, fs, i) {
        assert Twin(env, fields, index, fs, i, i);
      } else {
        assert Spilled(env, fields, index, fs, i);
        var j: nat :| PlacedOn(env, fields, index, fs, fs[i].field, j) && fs[j].value == fs[i].value;
        assert Twin(env, fields, index, fs, i, j);
      }
    }
  }

  /** A row that the filters ask for has keys that fit wherever a text test needs them. */
  lemma AskedFits(env: Env, fields: seq<Field>, cells: Cells, index: Index, fs: seq<FieldFilter>, q: Option<string>,
                  row: string)
    requires OneLine(env, fields, cells, index, fs, q, row)
    ensures HitsAll(env, fields, index, fs, row)
    ensures forall g :: g in fs && TextTested(env, fields, index, fs, g) ==> !Overlong(row, g.field)
  {
    hide QPasses;
    forall i | 0 <= i < |fs| ensures IsHit(env, fields, index, fs[i], row) {
      assert Demands(env, fields, cells, index, fs, fs[i], row);
      hide IsFullText, Hits, IsGrouped, NeedsAll, FilterPasses;
    }
    forall g | g in fs && TextTested(env, fields, index, fs, g) ensures !Overlong(row, g.field) {
      assert Demands(env, fields, cells, index, fs, g, row);
      hide IsFullText, IsGrouped, NeedsAll, HasToken, TextMatches;
    }
  }

  lemma OccursInside(fold: Fold, full: string -> string, sub: string, text: string)
    requires FoldLaw(fold, full) && Occurs(sub, text)
    ensures Matches(fold, Some(text), Some(sub))
  {
    var i :| 0 <= i <= |text| && OccursAt(sub, text, i);
    assert text == text[..i] + sub + text[i + |sub|..];
    hide Matches, FoldLaw, Occurs;
    SearchFinds(fold, full, text[..i], sub, text[i + |sub|..]);
  }

  /** A group of a plain reference holds of a row whose cell is one of the values asked. */
  lemma AskedCell(env: Env, fields: seq<Field>, cells: Cells, index: Index, fs: seq<FieldFilter>, f: FieldFilter,
                  row: string)
    returns (g: FieldFilter)
    requires f in fs && IsGrouped(env, fields, index, fs, f) && KindOf(fields, f.field) == Reference
    requires Demands(env, fields, cells, index, fs, f, row)
    ensures !NeedsAll(fields, f) && g in fs && AsksRef(env, fields, index, g) && g.field == f.field && g.value.Some?
    ensures Cell(cells, row, f.field) == g.value
  {
    hide IsFullText, KindOf, NeedsAll, HasToken;
    var x :| x in fs && AsksRef(env, fields, index, x) && x.field == f.field && x.value != f.value;
    assert !(Refers(env, fields, cells, f, row) && Refers(env, fields, cells, x, row));
    g :| g in fs && AsksRef(env, fields, index, g) && g.field == f.field && Refers(env, fields, cells, g, row);
  }

  lemma SpillPasses(env: Env, full: string -> string, fields: seq<Field>, cells: Cells, index: Index,
                    fs: seq<FieldFilter>, q: Option<string>, row: string, i: nat)
    requires FoldLaw(env.fold, full) && OneLine(env, fields, cells, index, fs, q, row)
    requires Spilled(env, fields, index, fs, i) && Harmless(env, fields, index, fs, fs[i])
    ensures FilterPasses(env.fold, fields, cells, fs[i], row)
  {
    SpilledFilter(env, fields, index, fs, i);
    var f := fs[i];
    hide *;
    AskedFits(env, fields, cells, index, fs, q, row);
    DemandOf(env, fields, cells, index, fs, q, row, f);
    var g := AskedCell(env, fields, cells, index, fs, f, row);
    HarmlessParts(env, fields, index, fs, f, g, row);
    OccursInside(env.fold, full, f.value.value, g.value.value);
    CellMatches(env.fold, fields, cells, f, row);
  }

  lemma SpilledFilter(env: Env, fields: seq<Field>, index: Index, fs: seq<FieldFilter>, i: nat)
    requires Spilled(env, fields, index, fs, i)
    ensures i < |fs| && fs[i] in fs && IsGrouped(env, fields, index, fs, fs[i]) && HasValue(fs[i]) && fs[i].value.Some?
    ensures Harmless(env, fields, index, fs, fs[i]) ==> KindOf(fields, fs[i].field) == Reference
  {
    hide IsFullText, KindOf, HasPlace, InAll, CutTogether, PlacedOn;
  }

  lemma DemandOf(env: Env, fields: seq<Field>, cells: Cells, index: Index, fs: seq<FieldFilter>, q: Option<string>,
                 row: string, f: FieldFilter)
    requires OneLine(env, fields, cells, index, fs, q, row) && f in fs
    ensures Demands(env, fields, cells, index, fs, f, row)
  {
    hide Demands, QPasses;
  }

  lemma HarmlessParts(env: Env, fields: seq<Field>, index: Index, fs: seq<FieldFilter>, f: FieldFilter, g: FieldFilter,
                      row: string)
    requires Harmless(env, fields, index, fs, f) && f.value.Some? && HitsAll(env, fields, index, fs, row)
    requires forall g :: g in fs && TextTested(env, fields, index, fs, g) ==> !Overlong(row, g.field)
    requires g in fs && AsksRef(env, fields, index, g) && g.field == f.field && g.value.Some?
    ensures Occurs(f.value.value, g.value.value) && !Overlong(row, f.field)
  {
    hide TextTested, HitsAll, AsksRef, Occurs, PlacedOn, KindOf, Overlong;
  }

  lemma CellMatches(fold: Fold, fields: seq<Field>, cells: Cells, f: FieldFilter, row: string)
    requires KindOf(fields, f.field) == Reference && !Overlong(row, f.field)
    requires Matches(fold, Cell(cells, row, f.field), f.value)
    ensures FilterPasses(fold, fields, cells, f, row)
  {
    hide Matches, Cell;
  }

  lemma HarmlessAgree(env: Env, fields: seq<Field>, cells: Cells, index: Index, fs: seq<FieldFilter>,
                      q: Option<string>, row: string)
    requires Lawful(env) && OpsAgree(fs) && AllHarmless(env, fields, index, fs)
    ensures Keeps(env, fields, cells, index, fs, q, row) <==> OneLine(env, fields, cells, index, fs, q, row)
  {
    var full :| FoldLaw(env.fold, full);
    hide *;
    HarmlessTwins(env, fields, index, fs);
    KeepsWithTwins(env, fields, cells, index, fs, q, row);
    if OneLine(env, fields, cells, index, fs, q, row) {
      forall i: nat | Spilled(env, fields, index, fs, i) ensures FilterPasses(env.fold, fields, cells, fs[i], row) {
        HarmlessAt(env, fields, index, fs, i);
        SpillPasses(env, full, fields, cells, index, fs, q, row, i);
      }
      SpillsAre(env, fields, cells, index, fs, row);
    }
  }

  lemma HarmlessAt(env: Env, fields: seq<Field>, index: Index, fs: seq<FieldFilter>, i: nat)
    requires AllHarmless(env, fields, index, fs) && Spilled(env, fields, index, fs, i)
    ensures i < |fs| && Harmless(env, fields, index, fs, fs[i])
  {
    hide Harmless, IsGrouped, HasPlace;
  }

  lemma SpillsAre(env: Env, fields: seq<Field>, cells: Cells, index: Index, fs: seq<FieldFilter>, row: string)
    requires forall i: nat :: Spilled(env, fields, index, fs, i) ==>
               i < |fs| && FilterPasses(env.fold, fields, cells, fs[i], row)
    ensures SpillsPass(env, fields, cells, index, fs, row)
  {
    hide IsGrouped, HasPlace, FilterPasses;
    forall i: nat | i < |fs| && IsGrouped(env, fields, index, fs, fs[i]) && !HasPlace(env, fields, index, fs, i)
      ensures FilterPasses(env.fold, fields, cells, fs[i], row)
    {
      assert Spilled(env, fields, index, fs, i);
    }
  }

  // ---- needed ------------------------------------------------------------------------------------

  /** A filter that is not in the groups is tested as text, in any environment alike. */
  lemma UngroupedIsText(env: Env, other: Env, fields: seq<Field>, cells: Cells, index: Index, fs: seq<FieldFilter>,
                        row: string, i: nat)
    requires Like(env, other) && i < |fs| && AsksRef(env, fields, index, fs[i])
    requires i !in RefSet(other, fields, AfterFullText(other, fields, index, fs))
    requires Keeps(other, fields, cells, index, fs, None, row)
    ensures FilterPasses(other.fold, fields, cells, fs[i], row)
  {
    LikeFilter(env, other, fields, index, fs[i]);
    assert !IsFullText(other, fields, index, fs[i]);
    hide RefSet, IsFullText, FilterPasses, RefsOk, HitsAll, QPasses;
  }

  /** So a row that fails the text test of a spilled filter is lost. */
  lemma SpilledIsText(env: Env, other: Env, fields: seq<Field>, cells: Cells, index: Index, fs: seq<FieldFilter>,
                      row: string, i: nat)
    requires Like(env, other) && Spilled(env, fields, index, fs, i)
    requires !FilterPasses(other.fold, fields, cells, fs[i], row)
    ensures !Keeps(other, fields, cells, index, fs, None, row)
  {
    NotPlaced(env, other, fields, index, fs, i);
    assert AsksRef(env, fields, index, fs[i]);
    hide Keeps, RefSet, FilterPasses, AsksRef, HasPlace, IsGrouped;
    if Keeps(other, fields, cells, index, fs, None, row) {
      UngroupedIsText(env, other, fields, cells, index, fs, row, i);
    }
  }

  /** Only filters that find room are in the groups. */
  lemma NotPlaced(env: Env, other: Env, fields: seq<Field>, index: Index, fs: seq<FieldFilter>, i: nat)
    requires Like(env, other)
    ensures i in RefSet(other, fields, AfterFullText(other, fields, index, fs)) ==>
              i < |fs| && PlacedOn(env, fields, index, fs, fs[i].field, i)
  {
    LikePlace(env, other, fields, index, fs, i);
    TakenIff(other, fields, AfterFullText(other, fields, index, fs), i);
    if i < |fs| {
      LeftAsks(other, fields, index, fs, i);
      LikeFilter(env, other, fields, index, fs[i]);
    }
    hide AsksRef, HasRoom, OneValued, IsRef, PassZero;
  }

  lemma FailsPlainly(env: Env, fields: seq<Field>, cells: Cells, f: FieldFilter, row: string, c: string)
    requires KindOf(fields, f.field) == Reference && HasValue(f)
    requires Cell(cells, row, f.field) == Some(c) && (!Occurs(f.value.value, c) || Overlong(row, f.field))
    ensures !FilterPasses(Plainly(env).fold, fields, cells, f, row)
  {
    hide Cell, Occurs, TokenMatches;
  }

  /** Not every value asked has the value of the filter in it: a row that holds such a one is lost. */
  lemma LostByText(env: Env, fields: seq<Field>, cells: Cells, index: Index, fs: seq<FieldFilter>, row: string, i: nat,
                   g: FieldFilter)
    requires OneLine(env, fields, cells, index, fs, None, row) && row in cells && Spilled(env, fields, index, fs, i)
    requires CanHold(env, fields, index, fs, Some(g)) && g.field == fs[i].field
    requires HasValue(fs[i]) && HasValue(g) && !Occurs(fs[i].value.value, g.value.value)
    ensures var other, cells' := Plainly(env), Held(env, fields, cells, index, fs, row, row, Some(g));
            OneLine(other, fields, cells', index, fs, None, row) && !Keeps(other, fields, cells', index, fs, None, row)
  {
    var other, cells' := Plainly(env), Held(env, fields, cells, index, fs, row, row, Some(g));
    assert Like(env, other);
    AskedFits(env, fields, cells, index, fs, None, row);
    HoldableCell(env, fields, cells, index, fs, row, g);
    HereRefers(env, fields, cells, index, fs, row, row, g);
    assert KindOf(fields, g.field) == Reference;
    hide *;
    HoldingOneLine(env, fields, cells, index, fs, row, row, Some(g));
    FailsPlainly(env, fields, cells', fs[i], row, g.value.value);
    SpilledIsText(env, other, fields, cells', index, fs, row, i);
  }

  lemma HoldableCell(env: Env, fields: seq<Field>, cells: Cells, index: Index, fs: seq<FieldFilter>, row: string,
                     g: FieldFilter)
    requires OneLine(env, fields, cells, index, fs, None, row) && CanHold(env, fields, index, fs, Some(g))
    ensures Cell(cells, row, g.field).Some?
  {
    DemandOf(env, fields, cells, index, fs, None, row, g);
    hide OneLine, Demands, IsGrouped;
    GroupHere(env, fields, cells, index, fs, g, row);
  }

  /** No filter that finds room asks for the value, or none for another: a row that holds it is lost. */
  lemma LostByGroup(env: Env, fields: seq<Field>, cells: Cells, index: Index, fs: seq<FieldFilter>, row: string, i: nat)
    requires OneLine(env, fields, cells, index, fs, None, row) && row in cells && Spilled(env, fields, index, fs, i)
    requires CanHold(env, fields, index, fs, Some(fs[i])) && HasValue(fs[i]) && InAll(env, fields, index, fs, fs[i])
    requires !(&& (exists j: nat :: PlacedOn(env, fields, index, fs, fs[i].field, j) && fs[j].value == fs[i].value)
               && (exists j: nat :: PlacedOn(env, fields, index, fs, fs[i].field, j) && fs[j].value != fs[i].value))
    ensures var other, cells' := Plainly(env), Held(env, fields, cells, index, fs, row, row, Some(fs[i]));
            OneLine(other, fields, cells', index, fs, None, row) && !Keeps(other, fields, cells', index, fs, None, row)
  {
    var f := fs[i];
    var other, cells' := Plainly(env), Held(env, fields, cells, index, fs, row, row, Some(f));
    assert Like(env, other);
    var k := OtherAsked(env, fields, index, fs, i);
    AskedFits(env, fields, cells, index, fs, None, row);
    HoldableCell(env, fields, cells, index, fs, row, f);
    HereRefers(env, fields, cells, index, fs, row, row, f);
    hide OneLine, Keeps, IsGrouped, HasPlace, AsksRef, InAll, Held, Plainly, HitsAll, TextTested, RefSet, Occurs, Like;
    HoldingOneLine(env, fields, cells, index, fs, row, row, Some(f));
    FailsPlainly(env, fields, cells', fs[k], row, f.value.value);
    hide PlacedOn, CanHold, Spilled;
    if Keeps(other, fields, cells', index, fs, None, row) {
      if k in RefSet(other, fields, AfterFullText(other, fields, index, fs)) {
        GroupFails(env, other, fields, cells', index, fs, row, k, f);
      } else {
        UngroupedIsText(env, other, fields, cells', index, fs, row, k);
      }
    }
  }

  /** A filter on the field that asks for another value, one that finds room if there is such a one:
      its value does not occur in that of the spilled filter. */
  lemma OtherAsked(env: Env, fields: seq<Field>, index: Index, fs: seq<FieldFilter>, i: nat) returns (k: nat)
    requires i < |fs| && CanHold(env, fields, index, fs, Some(fs[i])) && HasValue(fs[i])
    requires InAll(env, fields, index, fs, fs[i])
    requires !(&& (exists j: nat :: PlacedOn(env, fields, index, fs, fs[i].field, j) && fs[j].value == fs[i].value)
               && (exists j: nat :: PlacedOn(env, fields, index, fs, fs[i].field, j) && fs[j].value != fs[i].value))
    ensures k < |fs| && AsksRef(env, fields, index, fs[k]) && fs[k].field == fs[i].field && fs[k].value != fs[i].value
    ensures HasValue(fs[k]) && !Occurs(fs[k].value.value, fs[i].value.value) && KindOf(fields, fs[i].field) == Reference
    ensures PlacedOn(env, fields, index, fs, fs[k].field, k) ==>
              forall j: nat :: PlacedOn(env, fields, index, fs, fs[i].field, j) ==> fs[j].value != fs[i].value
  {
    hide HasPlace, IsFullText, KindOf;
    var name := fs[i].field;
    if j: nat :| PlacedOn(env, fields, index, fs, name, j) && fs[j].value != fs[i].value {
      k := j;
    } else {
      var g :| g in fs && AsksRef(env, fields, index, g) && g.field == name && g.value != fs[i].value;
      k :| 0 <= k < |fs| && fs[k] == g;
    }
    assert fs[k] in fs && HasValue(fs[k]);
    hide AsksRef, PlacedOn;
    LongerOutside(fs[i].value.value, fs[k].value.value);
  }

  lemma LongerOutside(v: string, w: string)
    requires Occurs(v, w) && v != w
    ensures !Occurs(w, v)
  {
    var i :| 0 <= i <= |w| && OccursAt(v, w, i);
    assert |v| == |w| ==> v == w[..] == w;
  }

  /** No member of the group asks for the value that the row holds. */
  lemma GroupFails(env: Env, other: Env, fields: seq<Field>, cells: Cells, index: Index, fs: seq<FieldFilter>,
                   row: string, k: nat, f: FieldFilter)
    requires Like(env, other) && k in RefSet(other, fields, AfterFullText(other, fields, index, fs))
    requires k < |fs| && fs[k].field == f.field && KindOf(fields, f.field) == Reference
    requires f.value.Some? && Cell(cells, row, f.field) == f.value
    requires PlacedOn(env, fields, index, fs, fs[k].field, k) ==>
               forall j: nat :: PlacedOn(env, fields, index, fs, f.field, j) ==> fs[j].value != f.value
    ensures !Keeps(other, fields, cells, index, fs, None, row)
  {
    var rest := AfterFullText(other, fields, index, fs);
    var h := RefSet(other, fields, rest);
    NotPlaced(env, other, fields, index, fs, k);
    forall j: nat | InGroup(rest, h, f.field, j) ensures !Refers(other, fields, cells, rest[j], row) {
      NotPlaced(env, other, fields, index, fs, j);
      LeftAsks(other, fields, index, fs, j);
      LikeFilter(env, other, fields, index, fs[j]);
      assert HasValue(fs[j]);
      hide AsksRef, RefSet, IsFullText, KindOf, Cell, HasToken, HasPlace;
    }
    LeftAsks(other, fields, index, fs, k);
    assert InGroup(rest, h, f.field, k);
    hide Refers, RefSet, GroupMode, Order, HitsAll, RestPasses, QPasses, InGroup, IsFullText, PlacedOn;
  }

  /** A row whose key for the field outgrows the buffer is lost, if it passes the other text tests. */
  lemma LostByLength(env: Env, fields: seq<Field>, cells: Cells, index: Index, fs: seq<FieldFilter>, row: string,
                     i: nat, r: string)
    requires OneLine(env, fields, cells, index, fs, None, row) && row in cells && Spilled(env, fields, index, fs, i)
    requires CanHold(env, fields, index, fs, Some(fs[i])) && HasValue(fs[i])
    requires HitsAll(env, fields, index, fs, r) && Overlong(r, fs[i].field)
    requires forall g :: g in fs && TextTested(env, fields, index, fs, g) ==> !Overlong(r, g.field)
    ensures var other, cells' := Plainly(env), Held(env, fields, cells, index, fs, row, r, None);
            OneLine(other, fields, cells', index, fs, None, r) && !Keeps(other, fields, cells', index, fs, None, r)
  {
    var f := fs[i];
    var other, cells' := Plainly(env), Held(env, fields, cells, index, fs, row, r, None);
    assert Like(env, other) && KindOf(fields, f.field) == Reference;
    HoldableCell(env, fields, cells, index, fs, row, f);
    assert CanHold(env, fields, index, fs, None);
    assert exists c :: Cell(cells', r, f.field) == Some(c) by {
      hide KindOf, GroupedName, Everything, OneLine, IsGrouped, Cell, Placed;
    }
    var c :| Cell(cells', r, f.field) == Some(c);
    hide *;
    HoldingOneLine(env, fields, cells, index, fs, row, r, None);
    FailsPlainly(env, fields, cells', f, r, c);
    SpilledIsText(env, other, fields, cells', index, fs, r, i);
  }

  /** A spilled filter on a multi-reference field: a row that refers to its value by number is lost. */
  lemma LostByNumber(env: Env, fields: seq<Field>, cells: Cells, index: Index, fs: seq<FieldFilter>, row: string,
                     i: nat, base: nat)
    requires OneLine(env, fields, cells, index, fs, None, row) && row in cells && Spilled(env, fields, index, fs, i)
    requires IsRef(env, fields, fs[i]) && KindOf(fields, fs[i].field) == MultiReference
    requires Avoids(base, Lower(fs[i].value.value))
    ensures var other, cells' := Numbered(env, Values(fs), base), NumberedCells(env, fields, cells, fs, row, base);
            OneLine(other, fields, cells', index, fs, None, row) && !Keeps(other, fields, cells', index, fs, None, row)
  {
    var other, cells' := Numbered(env, Values(fs), base), NumberedCells(env, fields, cells, fs, row, base);
    hide *;
    NumberedLike(env, Values(fs), base);
    SpilledFilter(env, fields, index, fs, i);
    NumberedOneLine(env, fields, cells, index, fs, row, base);
    NumberedFails(env, fields, cells, fs, fs[i], row, base);
    SpilledIsText(env, other, fields, cells', index, fs, row, i);
  }

  /** From a row that the filters ask for, and a spilled filter that is not harmless, a lawful
      environment, cells and a row that the filters ask for and the planner loses. */
  lemma Lost(env: Env, fields: seq<Field>, cells: Cells, index: Index, fs: seq<FieldFilter>, row: string, i: nat)
    returns (other: Env, cells': Cells, r: string)
    requires Lawful(env) && OneLine(env, fields, cells, index, fs, None, row)
    requires Spilled(env, fields, index, fs, i) && !Harmless(env, fields, index, fs, fs[i])
    ensures Like(env, other) && Lawful(other)
    ensures OneLine(other, fields, cells', index, fs, None, r) && !Keeps(other, fields, cells', index, fs, None, r)
  {
    hide *;
    SpilledFilter(env, fields, index, fs, i);
    var f := fs[i];
    DemandOf(env, fields, cells, index, fs, None, row, f);
    GroupedCell(env, fields, cells, index, fs, f, row);
    SpilledKind(env, fields, index, fs, f);
    PlainlyLawful(env);
    r := row;
    if KindOf(fields, f.field) != Reference {
      var base := AvoidingBase(Lower(f.value.value));
      other, cells' := Numbered(env, Values(fs), base), NumberedCells(env, fields, cells, fs, row, base);
      NumberedLawful(env, Values(fs), base);
      LostByNumber(env, fields, cells, index, fs, row, i, base);
    } else {
      other := Plainly(env);
      if !InAll(env, fields, index, fs, f) {
        var g := NotInAll(env, fields, index, fs, f);
        cells' := Held(env, fields, cells, index, fs, row, row, Some(g));
        LostByText(env, fields, cells, index, fs, row, i, g);
      } else if !(&& (exists j: nat :: PlacedOn(env, fields, index, fs, f.field, j) && fs[j].value == f.value)
                  && (exists j: nat :: PlacedOn(env, fields, index, fs, f.field, j) && fs[j].value != f.value)) {
        cells' := Held(env, fields, cells, index, fs, row, row, Some(f));
        LostByGroup(env, fields, cells, index, fs, row, i);
      } else {
        r := NotCutTogether(env, fields, index, fs, f);
        cells' := Held(env, fields, cells, index, fs, row, r, None);
        LostByLength(env, fields, cells, index, fs, row, i, r);
      }
    }
  }

  lemma SpilledKind(env: Env, fields: seq<Field>, index: Index, fs: seq<FieldFilter>, f: FieldFilter)
    requires f in fs && IsGrouped(env, fields, index, fs, f) && IsRef(env, fields, f)
    ensures HasValue(f)
    ensures if KindOf(fields, f.field) == Reference then CanHold(env, fields, index, fs, Some(f))
            else KindOf(fields, f.field) == MultiReference
    ensures forall j: nat, name :: PlacedOn(env, fields, index, fs, name, j) ==> j < |fs|
  {
    hide IsGrouped, KindOf, TargetOf, HasPlace;
  }

  lemma NotInAll(env: Env, fields: seq<Field>, index: Index, fs: seq<FieldFilter>, f: FieldFilter)
    returns (g: FieldFilter)
    requires f in fs && IsGrouped(env, fields, index, fs, f) && KindOf(fields, f.field) == Reference
    requires HasValue(f) && !InAll(env, fields, index, fs, f)
    ensures CanHold(env, fields, index, fs, Some(g)) && g.field == f.field && HasValue(g)
    ensures !Occurs(f.value.value, g.value.value)
  {
    hide IsFullText, KindOf, Occurs;
    g :| g in fs && AsksRef(env, fields, index, g) && g.field == f.field
         && !Occurs(f.value.GetOr(""), g.value.GetOr(""));
    SameFieldGrouped(env, fields, index, fs, g, f);
  }

  lemma NotCutTogether(env: Env, fields: seq<Field>, index: Index, fs: seq<FieldFilter>, f: FieldFilter)
    returns (r: string)
    requires KindOf(fields, f.field) == Reference && InAll(env, fields, index, fs, f)
    requires && (exists j: nat :: PlacedOn(env, fields, index, fs, f.field, j) && fs[j].value == f.value)
             && (exists j: nat :: PlacedOn(env, fields, index, fs, f.field, j) && fs[j].value != f.value)
    requires !Harmless(env, fields, index, fs, f)
    ensures HitsAll(env, fields, index, fs, r) && Overlong(r, f.field)
    ensures forall g :: g in fs && TextTested(env, fields, index, fs, g) ==> !Overlong(r, g.field)
  {
    hide KindOf, InAll, PlacedOn, HitsAll, TextTested, Overlong;
    assert !CutTogether(env, fields, index, fs, f.field);
    r :| HitsAll(env, fields, index, fs, r) && Overlong(r, f.field)
         && !exists g :: g in fs && TextTested(env, fields, index, fs, g) && Overlong(r, g.field);
  }

  lemma LikeHarmless(env: Env, other: Env, fields: seq<Field>, index: Index, fs: seq<FieldFilter>)
    requires Like(env, other) && AllHarmless(env, fields, index, fs)
    ensures AllHarmless(other, fields, index, fs)
  {
    forall f
      ensures AsksRef(other, fields, index, f) <==> AsksRef(env, fields, index, f)
      ensures IsFullText(other, fields, index, f) <==> IsFullText(env, fields, index, f)
      ensures forall row :: IsHit(other, fields, index, f, row) <==> IsHit(env, fields, index, f, row)
      ensures IsGrouped(other, fields, index, fs, f) <==> IsGrouped(env, fields, index, fs, f)
    {
      LikeFilter(env, other, fields, index, f);
      LikeGrouped(env, other, fields, index, fs, f);
    }
    forall i: nat ensures HasPlace(other, fields, index, fs, i) <==> HasPlace(env, fields, index, fs, i) {
      LikePlace(env, other, fields, index, fs, i);
    }
    hide AsksRef, IsFullText, IsHit, IsGrouped, HasPlace, KindOf, Occurs, Overlong;
    forall name, j: nat
      ensures PlacedOn(other, fields, index, fs, name, j) <==> PlacedOn(env, fields, index, fs, name, j)
    {
    }
    forall i: nat ensures Spilled(other, fields, index, fs, i) <==> Spilled(env, fields, index, fs, i) {
    }
    forall name ensures CutTogether(other, fields, index, fs, name) <==> CutTogether(env, fields, index, fs, name) {
      forall row ensures HitsAll(other, fields, index, fs, row) <==> HitsAll(env, fields, index, fs, row) {
      }
      forall g ensures TextTested(other, fields, index, fs, g) <==> TextTested(env, fields, index, fs, g) {
      }
      hide HitsAll, TextTested;
    }
    forall f ensures InAll(other, fields, index, fs, f) <==> InAll(env, fields, index, fs, f) {
    }
    hide PlacedOn, Spilled, CutTogether, InAll;
  }

  /** Provided some row can satisfy the filters at all: the planner keeps exactly the rows they ask
      for, in every lawful environment like this one and for all cells, exactly when every filter of
      a group that finds no room is harmless. */
  lemma AgreesIff(env: Env, fields: seq<Field>, cells: Cells, index: Index, fs: seq<FieldFilter>, row: string)
    requires Lawful(env) && OpsAgree(fs) && OneLine(env, fields, cells, index, fs, None, row)
    ensures AllHarmless(env, fields, index, fs)
            <==> forall other: Env, cells': Cells, q: Option<string>, r: string ::
                   Like(env, other) && Lawful(other) ==>
                     (Keeps(other, fields, cells', index, fs, q, r)
                      <==> OneLine(other, fields, cells', index, fs, q, r))
  {
    hide Like, OneLine, Keeps, Lawful, Harmless, OpsAgree;
    if AllHarmless(env, fields, index, fs) {
      forall other: Env, cells': Cells, q: Option<string>, r: string | Like(env, other) && Lawful(other)
        ensures Keeps(other, fields, cells', index, fs, q, r) <==> OneLine(other, fields, cells', index, fs, q, r)
      {
        LikeHarmless(env, other, fields, index, fs);
        HarmlessAgree(other, fields, cells', index, fs, q, r);
      }
    } else {
      hide Spilled;
      var i: nat :| Spilled(env, fields, index, fs, i) && !Harmless(env, fields, index, fs, fs[i]);
      var other, cells', r := Lost(env, fields, cells, index, fs, row, i);
    }
  }
}
