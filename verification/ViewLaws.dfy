/** The order of a sorted view, said of the cells of the rows alone. */
module ViewLaws {
  import opened Wrappers
  import opened Matching
  import opened Punctuation
  import opened Tokens
  import opened Rows
  import opened View
  import opened SearchLaws

  /** The cell of a row as a view sees it: the key `"row:field"` has at most 511 bytes. */
  function Seen(cells: Cells, row: string, field: string): Option<string> {
    if |row| + |field| <= 510 && row in cells && field in cells[row] then Some(cells[row][field]) else None
  }

  // ---- what passes ------------------------------------------------------------------------------

  /** The test of a filter with a value: a line of the cell, or a text in it. */
  ghost predicate CellHas(fold: Fold, cells: Cells, row: string, f: FieldFilter, lines: bool) {
    var cell := Seen(cells, row, f.field);
    cell.Some? && f.value.Some?
    && if lines then LineAlike(cell.value, f.value.value) else TextFound(fold, cell.value, f.value.value)
  }

  lemma SeenIs(cells: Cells, row: string, field: string)
    ensures RowFieldVal(cells, row, field) == Seen(cells, row, field)
  {
  }

  lemma CellHasIff(fold: Fold, fields: seq<Field>, cells: Cells, f: FieldFilter, row: string)
    requires f.value.Some? && f.value.value != ""
    ensures FilterPasses(fold, fields, cells, f, row) <==> CellHas(fold, cells, row, f, IsMultiRef(fields, f.field))
  {
    SeenIs(cells, row, f.field);
    var cell := Seen(cells, row, f.field);
    if cell.Some? {
      LineAlikeIff(cell.value, f.value.value);
      TextFoundIff(fold, cell.value, f.value.value);
    }
    hide Seen, RowFieldVal, IsMultiRef, HasToken, Lower, TextMatches, TextFound, LineAlike;
  }

  /** The first field of the name is a multi-reference. */
  ghost predicate LinesIn(fields: seq<Field>, name: string) {
    exists i :: 0 <= i < |fields| && fields[i].name == name && fields[i].kind == MultiReference
                && forall j :: 0 <= j < i ==> fields[j].name != name
  }

  lemma LinesInIff(fields: seq<Field>, name: string)
    ensures IsMultiRef(fields, name) <==> LinesIn(fields, name)
  {
    hide FieldIndex;
    if i :| 0 <= i < |fields| && fields[i].name == name && fields[i].kind == MultiReference
            && forall j :: 0 <= j < i ==> fields[j].name != name {
      assert FieldIndex(fields, name) == i;
    }
  }

  /** The folded normal form of the search text is in that of a text. */
  ghost predicate Contains(fold: Fold, str: string, fq: string) {
    var fstr := fold(4096, Norm(4096, str));
    fq == "" || (fstr.Some? && exists i :: FoundAt(fq, fstr.value, i))
  }

  /** The search text is in the row's id, in a listed field but "id", or in any if none are listed. A
      text that does not fold is not searched for. */
  ghost predicate Searched(fold: Fold, fields: seq<Field>, cells: Cells, q: Option<string>, row: string) {
    q.None? || q.value == "" || fold(256, Norm(256, q.value)).None?
    || var fq := fold(256, Norm(256, q.value)).value;
       Contains(fold, row, fq)
       || if fields == [] then
            |row| < 254 && row in cells && exists f :: f in cells[row] && Contains(fold, cells[row][f], fq)
          else
            exists f :: f in fields && f.name != "id" && Seen(cells, row, f.name).Some?
                        && Contains(fold, Seen(cells, row, f.name).value, fq)
  }

  lemma ContainsIff(fold: Fold, str: string, fq: string)
    ensures TextHas(fold, str, fq) <==> Contains(fold, str, fq)
  {
    var fstr := fold(4096, Norm(4096, str));
    if fstr.Some? {
      OccursIff(fq, fstr.value);
    }
    hide Norm, Occurs, FoundAt;
  }

  lemma SearchedIff(fold: Fold, fields: seq<Field>, cells: Cells, q: Option<string>, row: string)
    ensures SearchPasses(fold, fields, cells, q, row) <==> Searched(fold, fields, cells, q, row)
  {
    forall str, fq ensures TextHas(fold, str, fq) <==> Contains(fold, str, fq) {
      ContainsIff(fold, str, fq);
    }
    forall name ensures RowFieldVal(cells, row, name) == Seen(cells, row, name) {
      SeenIs(cells, row, name);
    }
    hide Norm, TextHas, Contains, RowFieldVal, Seen;
    if f :| f in fields && f.name != "id" {
      assert exists i :: 0 <= i < |fields| && fields[i] == f;
    }
  }

  /** The rows that pass are those that every filter with a value, and the search, find. */
  lemma PassingMeaning(fold: Fold, fields: seq<Field>, cells: Cells, q: Option<string>, filters: seq<FieldFilter>,
                       rows: seq<string>)
    ensures forall r :: r in Passing(fold, fields, cells, q, filters, rows) <==>
              && r in rows && Searched(fold, fields, cells, q, r)
              && forall f :: f in filters && f.value.Some? && f.value.value != "" ==>
                   CellHas(fold, cells, r, f, LinesIn(fields, f.field))
  {
    forall r
      ensures AllPass(fold, fields, cells, filters, r)
              <==> forall f :: f in filters && f.value.Some? && f.value.value != "" ==>
                     CellHas(fold, cells, r, f, LinesIn(fields, f.field))
      ensures SearchPasses(fold, fields, cells, q, r) <==> Searched(fold, fields, cells, q, r)
    {
      SearchedIff(fold, fields, cells, q, r);
      forall f
        ensures FilterPasses(fold, fields, cells, f, r)
                <==> (f.value.Some? && f.value.value != "" ==> CellHas(fold, cells, r, f, LinesIn(fields, f.field)))
      {
        LinesInIff(fields, f.field);
        if f.value.Some? && f.value.value != "" {
          CellHasIff(fold, fields, cells, f, r);
        }
        hide LinesIn, CellHas, RowFieldVal;
      }
      hide FilterPasses, CellHas, LinesIn, SearchPasses, Searched;
    }
    hide AllPass, SearchPasses, Searched, CellHas, LinesIn;
  }

  // ---- order --------------------------------------------------------------------------------------

  /** One text stands before another in a dictionary without capitals. */
  ghost predicate Before(a: string, b: string) {
    exists k :: BeforeAt(a, b, k)
  }

  predicate BeforeAt(a: string, b: string, k: int) {
    && 0 <= k <= |a| && k <= |b| && (forall i :: 0 <= i < k ==> SmallLetter(a[i]) == SmallLetter(b[i]))
    && k < |b| && (k < |a| ==> SmallLetter(a[k]) < SmallLetter(b[k]))
  }

  predicate Smaller(a: Double, b: Double) {
    || (a.Finite? && b.Finite? && a.r < b.r) || (a == NegInf && (b.Finite? || b == PosInf))
    || (a.Finite? && b == PosInf)
  }

  /** No cell comes first, then the empty text, then numbers by value or texts as in a dictionary. */
  ghost predicate Earlier(parse: Parse, numeric: bool, x: Option<string>, y: Option<string>) {
    if x.None? || y.None? then x.None? && y.Some?
    else if x.value == "" || y.value == "" then x.value == "" && y.value != ""
    else if numeric then
      parse(x.value).Some? && parse(y.value).Some? && Smaller(parse(x.value).value, parse(y.value).value)
    else Before(x.value, y.value)
  }

  /** Every text of the field is a number. */
  ghost predicate Numeric(parse: Parse, cells: Cells, field: string, rows: seq<string>) {
    forall r, t :: r in rows && Seen(cells, r, field) == Some(t) && t != "" ==> parse(t).Some?
  }

  /** The field is numeric and has a NaN among different numbers. */
  ghost predicate NaNAmong(parse: Parse, cells: Cells, field: string, rows: seq<string>) {
    && Numeric(parse, cells, field, rows)
    && exists n, x, y ::
         && n in rows && x in rows && y in rows && Holds(parse, cells, field, n) && Holds(parse, cells, field, x)
         && Holds(parse, cells, field, y) && NumberAt(parse, cells, field, n) == NaN
         && Smaller(NumberAt(parse, cells, field, x), NumberAt(parse, cells, field, y))
  }

  predicate Holds(parse: Parse, cells: Cells, field: string, row: string) {
    var t := Seen(cells, row, field);
    t.Some? && t.value != "" && parse(t.value).Some?
  }

  function NumberAt(parse: Parse, cells: Cells, field: string, row: string): Double
    requires Holds(parse, cells, field, row)
  {
    parse(Seen(cells, row, field).value).value
  }

  /** No row stands after a later one of the order, ascending or descending. */
  ghost predicate InOrder(parse: Parse, cells: Cells, field: string, asc: bool, numeric: bool, out: seq<string>) {
    forall i, j :: 0 <= i < j < |out| ==>
      var x, y := Seen(cells, out[i], field), Seen(cells, out[j], field);
      if asc then !Earlier(parse, numeric, y, x) else !Earlier(parse, numeric, x, y)
  }

  // ---- the code's order is this one --------------------------------------------------------------

  lemma {:induction false} DictionaryOrder(a: string, b: string)
    ensures CaseCompare(a, b) < 0 <==> Before(a, b)
  {
    if a == "" || b == "" {
      if a == "" && b != "" {
        assert BeforeAt(a, b, 0);
      }
    } else {
      DictionaryOrder(a[1..], b[1..]);
      if SmallLetter(a[0]) < SmallLetter(b[0]) {
        assert BeforeAt(a, b, 0);
      } else if SmallLetter(a[0]) == SmallLetter(b[0]) {
        TailBefore(a, b);
      }
    }
  }

  lemma TailBefore(a: string, b: string)
    requires a != "" && b != "" && SmallLetter(a[0]) == SmallLetter(b[0])
    ensures Before(a, b) <==> Before(a[1..], b[1..])
  {
    hide SmallLetter;
    if k :| BeforeAt(a, b, k) {
      assert BeforeAt(a[1..], b[1..], k - 1);
    }
    if k :| BeforeAt(a[1..], b[1..], k) {
      assert forall i :: 1 <= i <= k ==> a[i] == a[1..][i - 1] && b[i] == b[1..][i - 1];
      assert BeforeAt(a, b, k + 1);
    }
  }

  lemma NumericIs(parse: Parse, cells: Cells, field: string, rows: seq<string>)
    ensures AllNumbers(parse, cells, field, rows) <==> Numeric(parse, cells, field, rows)
  {
    forall r ensures RowFieldVal(cells, r, field) == Seen(cells, r, field) {
      SeenIs(cells, r, field);
    }
    hide RowFieldVal, Seen;
    if AllNumbers(parse, cells, field, rows) {
      forall r, t | r in rows && Seen(cells, r, field) == Some(t) && t != "" ensures parse(t).Some? {
        var i :| 0 <= i < |rows| && rows[i] == r;
      }
    }
  }

  lemma EntryIs(parse: Parse, cells: Cells, field: string, numeric: bool, r: string)
    ensures var e := EntryOf(parse, cells, field, numeric, r);
            && e.id == r && (e.isNum <==> numeric && Holds(parse, cells, field, r))
            && (e.isNum ==> e.num == NumberAt(parse, cells, field, r))
  {
    SeenIs(cells, r, field);
    hide Seen, RowFieldVal;
  }

  lemma EntryBack(parse: Parse, cells: Cells, field: string, rows: seq<string>, e: SortEntry)
    requires e in SortInput(parse, cells, field, rows)
    ensures e.id in rows && e == EntryOf(parse, cells, field, AllNumbers(parse, cells, field, rows), e.id)
  {
    var s := SortInput(parse, cells, field, rows);
    var i :| 0 <= i < |s| && s[i] == e;
    EntryIs(parse, cells, field, AllNumbers(parse, cells, field, rows), rows[i]);
    hide EntryOf, AllNumbers, Holds;
  }

  lemma BelowIs(a: Double, b: Double)
    ensures Below(a, b) <==> Smaller(a, b)
  {
  }

  lemma TroubleIs(parse: Parse, cells: Cells, field: string, rows: seq<string>)
    ensures NaNTrouble(SortInput(parse, cells, field, rows)) <==> NaNAmong(parse, cells, field, rows)
  {
    NumericIs(parse, cells, field, rows);
    hide *;
    if NaNTrouble(SortInput(parse, cells, field, rows)) {
      TroubleTo(parse, cells, field, rows);
    }
    if NaNAmong(parse, cells, field, rows) {
      AmongNumeric(parse, cells, field, rows);
      TroubleFrom(parse, cells, field, rows);
    }
  }

  lemma AmongNumeric(parse: Parse, cells: Cells, field: string, rows: seq<string>)
    requires NaNAmong(parse, cells, field, rows)
    ensures Numeric(parse, cells, field, rows)
  {
    hide Numeric, Holds, NumberAt, Smaller;
  }

  lemma NumberIn(parse: Parse, cells: Cells, field: string, rows: seq<string>, e: SortEntry)
    requires e in SortInput(parse, cells, field, rows) && e.isNum
    ensures e.id in rows && AllNumbers(parse, cells, field, rows) && Holds(parse, cells, field, e.id)
    ensures e.num == NumberAt(parse, cells, field, e.id)
  {
    hide SortInput, EntryOf, AllNumbers, Holds, NumberAt;
    EntryBack(parse, cells, field, rows, e);
    EntryIs(parse, cells, field, AllNumbers(parse, cells, field, rows), e.id);
  }

  lemma TroubleTo(parse: Parse, cells: Cells, field: string, rows: seq<string>)
    requires NaNTrouble(SortInput(parse, cells, field, rows))
    ensures NaNAmong(parse, cells, field, rows)
  {
    NumericIs(parse, cells, field, rows);
    hide SortInput, AllNumbers, Numeric, Holds, NumberAt, Below, Smaller;
    var s := SortInput(parse, cells, field, rows);
    var n, x, y :| n in s && x in s && y in s && n.isNum && x.isNum && y.isNum && n.num.NaN? && Below(x.num, y.num);
    NumberIn(parse, cells, field, rows, n);
    NumberIn(parse, cells, field, rows, x);
    NumberIn(parse, cells, field, rows, y);
    BelowIs(x.num, y.num);
  }

  lemma TroubleFrom(parse: Parse, cells: Cells, field: string, rows: seq<string>)
    requires NaNAmong(parse, cells, field, rows) && AllNumbers(parse, cells, field, rows)
    ensures NaNTrouble(SortInput(parse, cells, field, rows))
  {
    hide SortInput, EntryOf, AllNumbers, Numeric, Holds, NumberAt, Below, Smaller;
    var n, x, y :| n in rows && x in rows && y in rows && Holds(parse, cells, field, n)
      && Holds(parse, cells, field, x) && Holds(parse, cells, field, y) && NumberAt(parse, cells, field, n) == NaN
      && Smaller(NumberAt(parse, cells, field, x), NumberAt(parse, cells, field, y));
    EntryIn(parse, cells, field, rows, n);
    EntryIn(parse, cells, field, rows, x);
    EntryIn(parse, cells, field, rows, y);
    EntryIs(parse, cells, field, true, n);
    EntryIs(parse, cells, field, true, x);
    EntryIs(parse, cells, field, true, y);
    BelowIs(NumberAt(parse, cells, field, x), NumberAt(parse, cells, field, y));
  }

  lemma EntryIn(parse: Parse, cells: Cells, field: string, rows: seq<string>, r: string)
    requires r in rows
    ensures EntryOf(parse, cells, field, AllNumbers(parse, cells, field, rows), r)
            in SortInput(parse, cells, field, rows)
  {
    hide EntryOf, AllNumbers;
    var i :| 0 <= i < |rows| && rows[i] == r;
    assert SortInput(parse, cells, field, rows)[i] in SortInput(parse, cells, field, rows);
  }

  lemma EarlierIs(parse: Parse, cells: Cells, field: string, rows: seq<string>, a: string, b: string)
    requires a in rows && b in rows && !NaNAmong(parse, cells, field, rows)
    ensures var numeric := AllNumbers(parse, cells, field, rows);
            Compare(EntryOf(parse, cells, field, numeric, a), EntryOf(parse, cells, field, numeric, b)) < 0
            <==> Earlier(parse, numeric, Seen(cells, a, field), Seen(cells, b, field))
  {
    TroubleIs(parse, cells, field, rows);
    OrderByKey(parse, cells, field, rows, a, b);
    SeenIs(cells, a, field);
    SeenIs(cells, b, field);
    var x, y := Seen(cells, a, field), Seen(cells, b, field);
    if x.Some? && y.Some? {
      DictionaryOrder(x.value, y.value);
    }
    hide Compare, EntryOf, AllNumbers, RowFieldVal, Seen, NaNTrouble, NaNAmong, SortInput, CaseCompare, Before;
  }

  /** What a sorted view shows without paging is a permutation of the rows in this order. */
  lemma SortedMeaning(parse: Parse, cells: Cells, v: ViewQuery, rows: seq<string>, out: seq<string>, total: nat)
    requires IsPage(parse, cells, v, rows, out, total) && (v.page == 0 || v.perPage == 0) && v.sort.Some?
    requires !NaNAmong(parse, cells, v.sort.value, rows)
    ensures multiset(out) == multiset(rows)
    ensures InOrder(parse, cells, v.sort.value, v.asc, Numeric(parse, cells, v.sort.value, rows), out)
  {
    var field := v.sort.value;
    TroubleIs(parse, cells, field, rows);
    NumericIs(parse, cells, field, rows);
    hide NaNTrouble, NaNAmong, SortInput, SortedRows, AllNumbers, Numeric;
    assert SortOutcome(parse, cells, v, rows, out);
    forall r ensures r in out <==> r in rows {
      assert r in out <==> r in multiset(out);
      assert r in rows <==> r in multiset(rows);
    }
    OrderIs(parse, cells, field, v.asc, rows, out);
  }

  lemma OrderIs(parse: Parse, cells: Cells, field: string, asc: bool, rows: seq<string>, out: seq<string>)
    requires SortedRows(parse, cells, field, asc, AllNumbers(parse, cells, field, rows), out)
    requires !NaNAmong(parse, cells, field, rows) && forall r :: r in out ==> r in rows
    ensures InOrder(parse, cells, field, asc, AllNumbers(parse, cells, field, rows), out)
  {
    hide NaNAmong, AllNumbers, Earlier, Seen, EntryOf;
    var numeric := AllNumbers(parse, cells, field, rows);
    forall i, j | 0 <= i < j < |out|
      ensures var x, y := Seen(cells, out[i], field), Seen(cells, out[j], field);
              if asc then !Earlier(parse, numeric, y, x) else !Earlier(parse, numeric, x, y)
    {
      var a, b := EntryOf(parse, cells, field, numeric, out[i]), EntryOf(parse, cells, field, numeric, out[j]);
      assert CompareIn(asc, a, b) <= 0;
      CompareFlips(true, a, b);
      EarlierIs(parse, cells, field, rows, out[i], out[j]);
      EarlierIs(parse, cells, field, rows, out[j], out[i]);
      hide Compare;
    }
  }
}
