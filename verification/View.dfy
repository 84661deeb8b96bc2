/** `hyle_apply_view`: filter, sort, paginate. */
module View {
  import opened Text
  import opened Wrappers
  import opened Matching
  import opened Punctuation
  import opened Tokens
  import opened Rows

  // ---- filtering -------------------------------------------------------------------

  predicate IsMultiRef(fields: seq<Field>, name: string) {
    var i := FieldIndex(fields, name);
    i < |fields| && fields[i].kind == MultiReference
  }

  /** A row passes a filter: by token for a multi-reference field, else by substring. */
  predicate FilterPasses(fold: Fold, fields: seq<Field>, cells: Cells, f: FieldFilter, row: string) {
    var cell := RowFieldVal(cells, row, f.field);
    if IsMultiRef(fields, f.field) then TokenMatches(cell, f.value) else Matches(fold, cell, f.value)
  }

  predicate AllPass(fold: Fold, fields: seq<Field>, cells: Cells, filters: seq<FieldFilter>, row: string) {
    forall i :: 0 <= i < |filters| ==> FilterPasses(fold, fields, cells, filters[i], row)
  }

  predicate IsText(cell: Option<string>) {
    cell.Some? && cell.value != ""
  }

  /** The normalised, folded search text occurs in a text treated alike. */
  predicate TextHas(fold: Fold, str: string, fq: string) {
    fq == "" || (fold(STR_SIZE, Norm(STR_SIZE, str)).Some? && Occurs(fq, fold(STR_SIZE, Norm(STR_SIZE, str)).value))
  }

  /** It occurs in the row's id or in a field: one of those listed, or any if none are. */
  predicate RowHas(fold: Fold, fields: seq<Field>, cells: Cells, row: string, fq: string) {
    TextHas(fold, row, fq)
    || if fields != [] then
         exists i :: 0 <= i < |fields| && fields[i].name != "id"
                     && RowFieldVal(cells, row, fields[i].name).Some?
                     && TextHas(fold, RowFieldVal(cells, row, fields[i].name).value, fq)
       else |row| + 2 < SUB_SIZE && row in cells && exists f :: f in cells[row] && TextHas(fold, cells[row][f], fq)
  }

  /** The search text as the row loop uses it; None when there is none, or it does not fold. */
  function FoldedQ(fold: Fold, q: Option<string>): Option<string> {
    if IsText(q) then fold(SUB_SIZE, Norm(SUB_SIZE, q.value)) else None
  }

  predicate SearchPasses(fold: Fold, fields: seq<Field>, cells: Cells, q: Option<string>, row: string) {
    FoldedQ(fold, q).Some? ==> RowHas(fold, fields, cells, row, FoldedQ(fold, q).value)
  }

  function Passing(fold: Fold, fields: seq<Field>, cells: Cells, q: Option<string>, filters: seq<FieldFilter>,
                   rows: seq<string>): set<string>
  {
    set r | r in rows && AllPass(fold, fields, cells, filters, r) && SearchPasses(fold, fields, cells, q, r)
  }

  /** `ci_substr_punct_folded`. */
  method FindFolded(fold: Fold, str: string, fq: string) returns (found: bool)
    ensures found <==> TextHas(fold, str, fq)
  {
    if fq == "" {
      return true;
    }
    var buf := new char[STR_SIZE](_ => '\0');
    var n := PunctNormalize(buf, str);
    hide Occurs, Norm;
    var fstr := fold(STR_SIZE, buf[..n]);
    if fstr.None? {
      return false;
    }
    found := FindSub(fstr.value, fq);
  }

  /** The search in one row. */
  method RowSearch(fold: Fold, fields: seq<Field>, cells: Cells, row: string, fq: string) returns (found: bool)
    ensures found <==> RowHas(fold, fields, cells, row, fq)
  {
    hide TextHas, RowFieldVal;
    found := FindFolded(fold, row, fq);
    if found {
      return;
    }
    if fields != [] {
      for i := 0 to |fields|
        invariant forall k :: 0 <= k < i ==>
                    !(fields[k].name != "id" && RowFieldVal(cells, row, fields[k].name).Some?
                      && TextHas(fold, RowFieldVal(cells, row, fields[k].name).value, fq))
      {
        if fields[i].name != "id" {
          var cell := RowFieldVal(cells, row, fields[i].name);
          if cell.Some? {
            found := FindFolded(fold, cell.value, fq);
            if found {
              return;
            }
          }
        }
      }
    } else if |row| + 2 < SUB_SIZE && row in cells {
      var todo := cells[row].Keys;
      while todo != {}
        invariant todo <= cells[row].Keys
        invariant forall f :: f in cells[row] && f !in todo ==> !TextHas(fold, cells[row][f], fq)
        decreases |todo|
      {
        var f :| f in todo;
        todo := todo - {f};
        found := FindFolded(fold, cells[row][f], fq);
        if found {
          return;
        }
      }
    }
    found := false;
  }

  datatype PreFilter = PreFilter(folded: string, isMulti: bool, raw: Option<string>)

  /** What is computed once per filter before the row loop. */
  function PreFold(fold: Fold, fields: seq<Field>, f: FieldFilter): PreFilter {
    var isMulti := IsMultiRef(fields, f.field);
    var folded := if !isMulti && f.value.Some? && f.value.value != "" then fold(SUB_SIZE, f.value.value) else None;
    PreFilter(folded.GetOr(""), isMulti, f.value)
  }

  /** The filters of one row, up to the first that fails. */
  method RowPasses(fold: Fold, fields: seq<Field>, cells: Cells, filters: seq<FieldFilter>, pre: array<PreFilter>,
                   row: string)
    returns (ok: bool)
    requires pre.Length == |filters|
    requires forall i :: 0 <= i < |filters| ==> pre[i] == PreFold(fold, fields, filters[i])
    ensures ok <==> AllPass(fold, fields, cells, filters, row)
  {
    hide Matches, TokenMatches, IsMultiRef, RowFieldVal;
    for i := 0 to |filters|
      invariant forall k :: 0 <= k < i ==> FilterPasses(fold, fields, cells, filters[k], row)
    {
      var cell := RowFieldVal(cells, row, filters[i].field);
      if pre[i].isMulti {
        ok := TokenMatch(cell, pre[i].raw);
      } else if pre[i].folded != "" {
        ok := CiSubstrFolded(fold, cell, pre[i].folded, pre[i].raw.value);
      } else {
        ok := CiSubstr(fold, cell, pre[i].raw);
      }
      if !ok {
        return false;
      }
    }
    ok := true;
  }

  /** `hyle_filter_rows`: folding the values and the search text before the row loop gives what
      folding them for every row would. */
  method FilterRows(fold: Fold, fields: seq<Field>, cells: Cells, rows: seq<string>, q: Option<string>,
                    filters: seq<FieldFilter>)
    returns (out: seq<string>)
    ensures out == Sift(rows, Passing(fold, fields, cells, q, filters, rows))
  {
    var pre := new PreFilter[|filters|](_ => PreFilter("", false, None));
    for i := 0 to |filters|
      invariant forall k :: 0 <= k < i ==> pre[k] == PreFold(fold, fields, filters[k])
    {
      pre[i] := PreFold(fold, fields, filters[i]);
    }
    var fq := FoldedQ(fold, q);
    hide PreFold, AllPass, RowHas, FoldedQ;
    ghost var keep := Passing(fold, fields, cells, q, filters, rows);
    out := [];
    assert rows[..0] == [];
    for i := 0 to |rows|
      invariant out == Sift(rows[..i], keep)
      invariant forall k :: 0 <= k < |filters| ==> pre[k] == PreFold(fold, fields, filters[k])
    {
      SiftSnoc(rows, i, keep);
      var ok := RowPasses(fold, fields, cells, filters, pre, rows[i]);
      if !ok {
        continue;
      }
      if fq.Some? {
        var found := RowSearch(fold, fields, cells, rows[i], fq.value);
        if !found {
          continue;
        }
      }
      out := out + [rows[i]];
    }
    assert rows[..|rows|] == rows;
  }

  // ---- sorting ---------------------------------------------------------------------

  /** The values of a C double. */
  datatype Double = Finite(r: real) | PosInf | NegInf | NaN

  /** `a < b`; false when either is NaN. */
  predicate Below(a: Double, b: Double) {
    match (a, b)
    case (Finite(x), Finite(y)) => x < y
    case (NegInf, Finite(_)) => true
    case (NegInf, PosInf) => true
    case (Finite(_), PosInf) => true
    case _ => false
  }

  /** `strtod` when it consumes the whole text. */
  type Parse = string -> Option<Double>

  datatype SortEntry = SortEntry(id: string, str: Option<string>, num: Double, isNum: bool)

  /** The sign of `strcasecmp`. */
  function CaseCompare(a: string, b: string): (c: int)
    ensures -1 <= c <= 1
  {
    if a == "" then (if b == "" then 0 else -1)
    else if b == "" then 1
    else if LowerChar(a[0]) < LowerChar(b[0]) then -1
    else if LowerChar(b[0]) < LowerChar(a[0]) then 1
    else CaseCompare(a[1..], b[1..])
  }

  /** `sort_cmp_asc`. */
  function Compare(a: SortEntry, b: SortEntry): (c: int)
    ensures -1 <= c <= 1
  {
    if a.str.None? && b.str.None? then 0
    else if a.str.None? then -1
    else if b.str.None? then 1
    else if a.isNum && b.isNum then
      if Below(a.num, b.num) then -1 else if Below(b.num, a.num) then 1 else 0
    else CaseCompare(a.str.value, b.str.value)
  }

  /** `sort_cmp_desc`. */
  function CompareIn(asc: bool, a: SortEntry, b: SortEntry): int {
    if asc then Compare(a, b) else -Compare(a, b)
  }

  ghost predicate Chains(asc: bool, a: SortEntry, b: SortEntry, c: SortEntry) {
    CompareIn(asc, a, b) <= 0 && CompareIn(asc, b, c) <= 0 ==> CompareIn(asc, a, c) <= 0
  }

  /** The comparator is a total preorder on these entries: swapping its arguments swaps its
      answer, and it is transitive. */
  ghost predicate IsOrder(asc: bool, s: seq<SortEntry>) {
    && (forall a, b :: a in s && b in s ==> CompareIn(asc, a, b) == -CompareIn(asc, b, a))
    && (forall a, b, c :: a in s && b in s && c in s ==> Chains(asc, a, b, c))
  }

  ghost predicate Sorted(asc: bool, s: seq<SortEntry>) {
    forall i, j :: 0 <= i < j < |s| ==> CompareIn(asc, s[i], s[j]) <= 0
  }

  /** `qsort`: given a total preorder, it sorts. */
  type Qsort = (bool, seq<SortEntry>) -> seq<SortEntry>

  ghost predicate QsortLaw(qsort: Qsort) {
    forall asc, s :: |qsort(asc, s)| == |s|
                     && (IsOrder(asc, s) ==> multiset(qsort(asc, s)) == multiset(s) && Sorted(asc, qsort(asc, s)))
  }

  /** Every text of the sort field in these rows is a number. */
  predicate AllNumbers(parse: Parse, cells: Cells, field: string, rows: seq<string>) {
    forall i :: 0 <= i < |rows| ==>
      IsText(RowFieldVal(cells, rows[i], field)) ==> parse(RowFieldVal(cells, rows[i], field).value).Some?
  }

  /** A row's sort entry, once it is known whether the field is numeric. */
  function EntryOf(parse: Parse, cells: Cells, field: string, numeric: bool, row: string): SortEntry {
    var cell := RowFieldVal(cells, row, field);
    if IsText(cell) && parse(cell.value).Some?
    then SortEntry(row, cell, parse(cell.value).value, numeric)
    else SortEntry(row, cell, Finite(0.0), false)
  }

  function EntriesOf(parse: Parse, cells: Cells, field: string, numeric: bool, rows: seq<string>): (s: seq<SortEntry>)
    ensures |s| == |rows| && forall i :: 0 <= i < |rows| ==> s[i] == EntryOf(parse, cells, field, numeric, rows[i])
  {
    seq(|rows|, i requires 0 <= i < |rows| => EntryOf(parse, cells, field, numeric, rows[i]))
  }

  /** The entries that `qsort` is given. */
  function SortInput(parse: Parse, cells: Cells, field: string, rows: seq<string>): seq<SortEntry> {
    EntriesOf(parse, cells, field, AllNumbers(parse, cells, field, rows), rows)
  }

  /** A NaN among different numbers. */
  ghost predicate NaNTrouble(s: seq<SortEntry>) {
    exists n, x, y :: n in s && x in s && y in s && n.isNum && x.isNum && y.isNum
                      && n.num.NaN? && Below(x.num, y.num)
  }

  /** What entries of one list have in common after the all-numbers pass. */
  ghost predicate Uniform(s: seq<SortEntry>) {
    && (forall e :: e in s && e.isNum ==> IsText(e.str))
    && (forall a, b :: a in s && b in s && a.isNum && IsText(b.str) ==> b.isNum)
  }

  lemma {:induction false} CaseFlips(a: string, b: string)
    ensures CaseCompare(a, b) == -CaseCompare(b, a)
  {
    if a != "" && b != "" {
      CaseFlips(a[1..], b[1..]);
    }
  }

  lemma {:induction false} CaseChains(a: string, b: string, c: string)
    requires CaseCompare(a, b) <= 0 && CaseCompare(b, c) <= 0
    ensures CaseCompare(a, c) <= 0
  {
    if a != "" && b != "" && c != "" {
      if LowerChar(a[0]) == LowerChar(b[0]) == LowerChar(c[0]) {
        CaseChains(a[1..], b[1..], c[1..]);
      }
    }
  }

  lemma InputUniform(parse: Parse, cells: Cells, field: string, rows: seq<string>)
    ensures Uniform(SortInput(parse, cells, field, rows))
  {
    hide RowFieldVal;
  }

  lemma CompareFlips(asc: bool, a: SortEntry, b: SortEntry)
    ensures CompareIn(asc, a, b) == -CompareIn(asc, b, a)
  {
    if a.str.Some? && b.str.Some? {
      CaseFlips(a.str.value, b.str.value);
    }
  }

  lemma AscChains(s: seq<SortEntry>, a: SortEntry, b: SortEntry, c: SortEntry)
    requires Uniform(s) && !NaNTrouble(s) && a in s && b in s && c in s
    ensures Chains(true, a, b, c)
  {
    if Compare(a, b) <= 0 && Compare(b, c) <= 0 {
      if a.str.Some? && b.str.Some? && c.str.Some? {
        if a.isNum && b.isNum && c.isNum {
          assert !(b.num.NaN? && Below(c.num, a.num));
          assert !(a.num.NaN? && Below(c.num, b.num)) && !(c.num.NaN? && Below(b.num, a.num));
        } else if !a.isNum && !b.isNum && !c.isNum {
          CaseChains(a.str.value, b.str.value, c.str.value);
        }
      }
    }
  }

  /** After the all-numbers pass the comparator is a total preorder exactly when no NaN stands
      among different numbers; the descending one is its reverse, so it is one too. */
  lemma ComparatorIsOrderIff(parse: Parse, cells: Cells, field: string, rows: seq<string>, asc: bool)
    ensures var s := SortInput(parse, cells, field, rows);
            IsOrder(asc, s) <==> !NaNTrouble(s)
  {
    var s := SortInput(parse, cells, field, rows);
    InputUniform(parse, cells, field, rows);
    hide SortInput, Uniform, NaNTrouble;
    if NaNTrouble(s) {
      TroubleBreaksOrder(s, asc);
    } else {
      OrderWithoutTrouble(s, asc);
    }
  }

  lemma TroubleBreaksOrder(s: seq<SortEntry>, asc: bool)
    requires Uniform(s) && NaNTrouble(s)
    ensures !IsOrder(asc, s)
  {
    var n, x, y :| n in s && x in s && y in s && n.isNum && x.isNum && y.isNum
                   && n.num.NaN? && Below(x.num, y.num);
    assert if asc then !Chains(asc, y, n, x) else !Chains(asc, x, n, y);
  }

  /** Three rows with the cells "1", "nan" and "2". */
  function ThreeCells(): Cells {
    map["x" := map["n" := "1"], "y" := map["n" := "nan"], "z" := map["n" := "2"]]
  }

  lemma ThreeNumbers(parse: Parse)
    requires parse("1") == Some(Finite(1.0)) && parse("2") == Some(Finite(2.0)) && parse("nan") == Some(NaN)
    ensures SortInput(parse, ThreeCells(), "n", ["x", "y", "z"])
            == [SortEntry("x", Some("1"), Finite(1.0), true), SortEntry("y", Some("nan"), NaN, true),
                SortEntry("z", Some("2"), Finite(2.0), true)]
  {
    var cells, rows := ThreeCells(), ["x", "y", "z"];
    assert RowFieldVal(cells, "x", "n") == Some("1") && RowFieldVal(cells, "y", "n") == Some("nan")
           && RowFieldVal(cells, "z", "n") == Some("2");
    hide RowFieldVal, ThreeCells;
    assert AllNumbers(parse, cells, "n", rows);
  }

  /** The NaN ties with both numbers, and they do not tie. */
  lemma NaNTiesWithAll(parse: Parse, asc: bool)
    requires parse("1") == Some(Finite(1.0)) && parse("2") == Some(Finite(2.0)) && parse("nan") == Some(NaN)
    ensures var s := SortInput(parse, ThreeCells(), "n", ["x", "y", "z"]);
            && |s| == 3 && Compare(s[0], s[1]) == 0 && Compare(s[1], s[2]) == 0 && Compare(s[0], s[2]) < 0
            && !IsOrder(asc, s)
  {
    ThreeNumbers(parse);
    var s := SortInput(parse, ThreeCells(), "n", ["x", "y", "z"]);
    ComparatorIsOrderIff(parse, ThreeCells(), "n", ["x", "y", "z"], asc);
    hide *;
    ThreeTie(s[0], s[1], s[2]);
    assert s == [s[0], s[1], s[2]];
  }

  lemma ThreeTie(x: SortEntry, n: SortEntry, y: SortEntry)
    requires x.isNum && n.isNum && y.isNum && x.str.Some? && n.str.Some? && y.str.Some?
    requires n.num.NaN? && Below(x.num, y.num)
    ensures Compare(x, n) == 0 && Compare(n, y) == 0 && Compare(x, y) < 0 && NaNTrouble([x, n, y])
  {
    var s := [x, n, y];
    assert s[0] in s && s[1] in s && s[2] in s;
  }

  lemma OrderWithoutTrouble(s: seq<SortEntry>, asc: bool)
    requires Uniform(s) && !NaNTrouble(s)
    ensures IsOrder(asc, s)
  {
    forall a, b | a in s && b in s ensures CompareIn(asc, a, b) == -CompareIn(asc, b, a) {
      CompareFlips(asc, a, b);
    }
    forall a, b, c | a in s && b in s && c in s ensures Chains(asc, a, b, c) {
      AscChains(s, a, b, c);
      AscChains(s, c, b, a);
      CompareFlips(true, a, b);
      CompareFlips(true, b, c);
      CompareFlips(true, a, c);
    }
  }

  /** In order: no cell, then the empty text, then numbers by value or texts without case. */
  lemma OrderByKey(parse: Parse, cells: Cells, field: string, rows: seq<string>, a: string, b: string)
    requires a in rows && b in rows && !NaNTrouble(SortInput(parse, cells, field, rows))
    ensures var numeric := AllNumbers(parse, cells, field, rows);
            var x, y := RowFieldVal(cells, a, field), RowFieldVal(cells, b, field);
            Compare(EntryOf(parse, cells, field, numeric, a), EntryOf(parse, cells, field, numeric, b)) < 0
            <==> if x.None? || y.None? then x.None? && y.Some?
                 else if x.value == "" || y.value == "" then x.value == "" && y.value != ""
                 else if numeric then Below(parse(x.value).value, parse(y.value).value)
                 else CaseCompare(x.value, y.value) < 0
    ensures AllNumbers(parse, cells, field, rows) ==>
              forall r :: r in rows && IsText(RowFieldVal(cells, r, field)) ==>
                            parse(RowFieldVal(cells, r, field).value).Some?
  {
    hide RowFieldVal;
  }

  /** Without that pass it is no order: 9 < 10 as numbers, "10" < "1a" < "9" as texts. */
  lemma MixedComparesInACircle(parse: Parse)
    requires parse("9") == Some(Finite(9.0)) && parse("10") == Some(Finite(10.0)) && parse("1a") == None
    ensures var nine := SortEntry("x", Some("9"), Finite(9.0), true);
            var ten := SortEntry("y", Some("10"), Finite(10.0), true);
            var word := SortEntry("z", Some("1a"), Finite(0.0), false);
            && Compare(nine, ten) < 0 && Compare(ten, word) < 0 && Compare(word, nine) < 0
            && !IsOrder(true, [nine, ten, word])
  {
    var nine, ten := SortEntry("x", Some("9"), Finite(9.0), true), SortEntry("y", Some("10"), Finite(10.0), true);
    var word := SortEntry("z", Some("1a"), Finite(0.0), false);
    assert "10"[1..] == "0" && "1a"[1..] == "a";
    assert CaseCompare("10", "1a") == CaseCompare("0", "a") == -1;
    assert !Chains(true, nine, ten, word) || !Chains(true, ten, word, nine);
  }

  function Ids(s: seq<SortEntry>): (r: seq<string>)
    ensures |r| == |s| && forall i :: 0 <= i < |s| ==> r[i] == s[i].id
  {
    seq(|s|, i requires 0 <= i < |s| => s[i].id)
  }

  lemma IdsConcat(s: seq<SortEntry>, t: seq<SortEntry>)
    ensures Ids(s + t) == Ids(s) + Ids(t)
  {
  }

  lemma OneOut<T>(x: T, rest: seq<T>, a: seq<T>, b: seq<T>)
    ensures multiset([x] + rest) == multiset(a + [x] + b) <==> multiset(rest) == multiset(a + b)
  {
    var r, ab := multiset(rest), multiset(a + b);
    assert multiset([x] + rest) == r + multiset{x} && multiset(a + [x] + b) == ab + multiset{x};
    assert r == r + multiset{x} - multiset{x} && ab == ab + multiset{x} - multiset{x};
  }

  lemma FindIn<T>(x: T, t: seq<T>) returns (k: nat)
    requires x in multiset(t)
    ensures k < |t| && t == t[..k] + [x] + t[k + 1..]
  {
    k :| 0 <= k < |t| && t[k] == x;
  }

  lemma {:induction false} IdsMultiset(s: seq<SortEntry>, t: seq<SortEntry>)
    requires multiset(s) == multiset(t)
    ensures multiset(Ids(s)) == multiset(Ids(t))
  {
    if s == [] {
      assert |multiset(t)| == 0;
      assert Ids(s) == [] && Ids(t) == [];
    } else {
      assert s[0] in multiset(s);
      var k := FindIn(s[0], t);
      var a, b := t[..k], t[k + 1..];
      assert s == [s[0]] + s[1..] && Ids([s[0]]) == [s[0].id];
      hide Ids;
      OneOut(s[0], s[1..], a, b);
      IdsMultiset(s[1..], a + b);
      IdsConcat([s[0]], s[1..]);
      IdsConcat(a + [s[0]], b);
      IdsConcat(a, [s[0]]);
      IdsConcat(a, b);
      OneOut(s[0].id, Ids(s[1..]), Ids(a), Ids(b));
    }
  }

  /** The rows in the order of their sort entries. */
  ghost predicate SortedRows(parse: Parse, cells: Cells, field: string, asc: bool, numeric: bool, out: seq<string>) {
    forall i, j :: 0 <= i < j < |out| ==>
      CompareIn(asc, EntryOf(parse, cells, field, numeric, out[i]), EntryOf(parse, cells, field, numeric, out[j])) <= 0
  }

  lemma SortedResult(parse: Parse, cells: Cells, field: string, asc: bool, rows: seq<string>, r: seq<SortEntry>)
    requires multiset(r) == multiset(SortInput(parse, cells, field, rows)) && Sorted(asc, r)
    ensures multiset(Ids(r)) == multiset(rows)
    ensures SortedRows(parse, cells, field, asc, AllNumbers(parse, cells, field, rows), Ids(r))
  {
    var numeric := AllNumbers(parse, cells, field, rows);
    var s := SortInput(parse, cells, field, rows);
    IdsMultiset(r, s);
    assert Ids(s) == rows;
    forall i | 0 <= i < |r| ensures r[i] == EntryOf(parse, cells, field, numeric, r[i].id) {
      assert r[i] in multiset(s);
    }
    hide AllNumbers, EntryOf, CompareIn;
  }

  /** `hyle_sort_rows`: a sorted permutation of the rows. */
  method SortRows(parse: Parse, qsort: Qsort, cells: Cells, rows: seq<string>, field: Option<string>, asc: bool)
    returns (out: seq<string>)
    requires QsortLaw(qsort)
    ensures |out| == |rows| && (field.None? ==> out == rows)
    ensures field.Some? && !NaNTrouble(SortInput(parse, cells, field.value, rows)) ==>
              && multiset(out) == multiset(rows)
              && SortedRows(parse, cells, field.value, asc, AllNumbers(parse, cells, field.value, rows), out)
  {
    if field.None? {
      return rows;
    }
    var entries := LoadEntries(parse, cells, field.value, rows);
    hide QsortLaw, SortInput, AllNumbers, NaNTrouble, SortedRows, Ids;
    var sorted := qsort(asc, entries[..]);
    SameLength(qsort, asc, entries[..]);
    if !NaNTrouble(SortInput(parse, cells, field.value, rows)) {
      ComparatorIsOrderIff(parse, cells, field.value, rows, asc);
      ByQsort(qsort, asc, entries[..]);
      SortedResult(parse, cells, field.value, asc, rows, sorted);
    }
    out := Ids(sorted);
  }

  lemma SameLength(qsort: Qsort, asc: bool, s: seq<SortEntry>)
    requires QsortLaw(qsort)
    ensures |qsort(asc, s)| == |s|
  {
  }

  lemma ByQsort(qsort: Qsort, asc: bool, s: seq<SortEntry>)
    requires QsortLaw(qsort) && IsOrder(asc, s)
    ensures multiset(qsort(asc, s)) == multiset(s) && Sorted(asc, qsort(asc, s))
  {
  }

  /** The entry loop, and the second pass that takes numbers back to texts. */
  method LoadEntries(parse: Parse, cells: Cells, field: string, rows: seq<string>) returns (entries: array<SortEntry>)
    ensures fresh(entries) && entries[..] == SortInput(parse, cells, field, rows)
  {
    hide RowFieldVal;
    entries := new SortEntry[|rows|](_ => SortEntry("", None, Finite(0.0), false));
    var allNum := true;
    for i := 0 to |rows|
      invariant forall k :: 0 <= k < i ==> entries[k] == EntryOf(parse, cells, field, true, rows[k])
      invariant allNum <==> forall k :: 0 <= k < i ==>
                  IsText(RowFieldVal(cells, rows[k], field)) ==> parse(RowFieldVal(cells, rows[k], field).value).Some?
    {
      entries[i] := EntryOf(parse, cells, field, true, rows[i]);
      if IsText(entries[i].str) && !entries[i].isNum {
        allNum := false;
      }
    }
    assert allNum == AllNumbers(parse, cells, field, rows);
    hide EntryOf, AllNumbers;
    if !allNum {
      ToTexts(parse, cells, field, rows, entries);
    }
    assert entries[..] == EntriesOf(parse, cells, field, allNum, rows);
  }

  method ToTexts(parse: Parse, cells: Cells, field: string, rows: seq<string>, entries: array<SortEntry>)
    requires entries.Length == |rows|
    requires forall k :: 0 <= k < |rows| ==> entries[k] == EntryOf(parse, cells, field, true, rows[k])
    modifies entries
    ensures forall k :: 0 <= k < |rows| ==> entries[k] == EntryOf(parse, cells, field, false, rows[k])
  {
    for i := 0 to |rows|
      invariant forall k :: 0 <= k < i ==> entries[k] == EntryOf(parse, cells, field, false, rows[k])
      invariant forall k :: i <= k < |rows| ==> entries[k] == EntryOf(parse, cells, field, true, rows[k])
    {
      entries[i] := entries[i].(isNum := false);
    }
  }

  // ---- paginating --------------------------------------------------------------------

  const UINT32: nat := 0x1_0000_0000

  /** `(page - 1) * per_page` in 32 bits. */
  function Skip(page: nat, perPage: nat): nat
    requires page > 0
  {
    ((page - 1) * perPage) % UINT32
  }

  function PageOf(rows: seq<string>, page: nat, perPage: nat): seq<string> {
    if page == 0 || perPage == 0 then rows
    else
      var skip := Skip(page, perPage);
      if skip >= |rows| then [] else rows[skip..skip + Min(|rows| - skip, perPage)]
  }

  /** `hyle_paginate`: one page, and the number of rows whatever the page. */
  method Paginate(rows: seq<string>, page: nat, perPage: nat) returns (out: seq<string>, total: nat)
    requires |rows| < UINT32 && page < UINT32 && perPage < UINT32
    ensures out == PageOf(rows, page, perPage) && total == |rows|
  {
    total := |rows|;
    if page == 0 || perPage == 0 {
      return rows, total;
    }
    out := [];
    var skip := Skip(page, perPage);
    hide Skip;
    if skip >= total {
      return;
    }
    var remain := total - skip;
    var take := if remain < perPage then remain else perPage;
    var pos, emitted := 0, 0;
    while pos < |rows| && emitted < take
      invariant 0 <= pos <= |rows| && emitted == |out| <= take
      invariant emitted == (if pos < skip then 0 else pos - skip)
      invariant out == if pos < skip then [] else rows[skip..pos]
      decreases |rows| - pos
    {
      if pos >= skip {
        assert rows[skip..pos + 1] == rows[skip..pos] + [rows[pos]];
        out := out + [rows[pos]];
        emitted := emitted + 1;
      }
      pos := pos + 1;
    }
  }

  /** A page that starts inside the rows starts where it should: no wrap-around. */
  lemma InRangeNeverWraps(total: nat, page: nat, perPage: nat)
    requires page > 0 && total < UINT32 && (page - 1) * perPage < total
    ensures Skip(page, perPage) == (page - 1) * perPage
  {
    assert 0 <= (page - 1) * perPage;
  }

  /** A page past the end is empty exactly when its 32-bit start is past the end. */
  lemma PastEndEmptyIff(rows: seq<string>, page: nat, perPage: nat)
    requires page > 0 && perPage > 0 && (page - 1) * perPage >= |rows|
    ensures PageOf(rows, page, perPage) == [] <==> ((page - 1) * perPage) % UINT32 >= |rows|
  {
  }

  /** Page 2147483649 of two rows each is page 1 again. */
  lemma FarPageRepeatsFirst(rows: seq<string>)
    ensures PageOf(rows, 0x8000_0001, 2) == PageOf(rows, 1, 2)
    ensures rows != [] ==> PageOf(rows, 0x8000_0001, 2) != []
  {
    assert Skip(0x8000_0001, 2) == 0 && Skip(1, 2) == 0;
  }

  /** The pages 1 to k, one after the other. */
  function PagesUpTo(rows: seq<string>, k: nat, perPage: nat): seq<string> {
    if k == 0 then [] else PagesUpTo(rows, k - 1, perPage) + PageOf(rows, k, perPage)
  }

  lemma {:induction false} PagesArePrefix(rows: seq<string>, k: nat, perPage: nat)
    requires perPage > 0 && |rows| < UINT32
    requires k > 0 ==> (k - 1) * perPage < |rows|
    ensures PagesUpTo(rows, k, perPage) == rows[..Min(|rows|, k * perPage)]
  {
    if k > 0 {
      assert (k - 1) * perPage == if k == 1 then 0 else (k - 2) * perPage + perPage;
      PagesArePrefix(rows, k - 1, perPage);
      InRangeNeverWraps(|rows|, k, perPage);
      var a := (k - 1) * perPage;
      assert k * perPage == a + perPage;
      hide Skip;
      PageAt(rows, k, perPage, a);
    }
  }

  lemma PageAt(rows: seq<string>, k: nat, perPage: nat, a: nat)
    requires k > 0 && perPage > 0 && a < |rows| && Skip(k, perPage) == a
    ensures rows[..a] + PageOf(rows, k, perPage) == rows[..Min(|rows|, a + perPage)]
  {
  }

  /** Pages 1 to the last one concatenate to exactly the rows. */
  lemma PagesCover(rows: seq<string>, perPage: nat)
    requires perPage > 0 && |rows| < UINT32
    ensures PagesUpTo(rows, (|rows| + perPage - 1) / perPage, perPage) == rows
  {
    var k := (|rows| + perPage - 1) / perPage;
    LastPage(|rows|, perPage, k);
    PagesArePrefix(rows, k, perPage);
    assert rows[..|rows|] == rows;
  }

  lemma LastPage(n: nat, p: nat, k: nat)
    requires p > 0 && k == (n + p - 1) / p
    ensures n <= k * p && (k > 0 ==> (k - 1) * p < n)
  {
    assert n + p - 1 == k * p + (n + p - 1) % p;
    assert k > 0 ==> (k - 1) * p == k * p - p;
  }

  // ---- the pipeline --------------------------------------------------------------------

  datatype ViewQuery = ViewQuery(sort: Option<string>, asc: bool, page: nat, perPage: nat)

  /** The outcome of sorting: the rows as they are, or a sorted permutation of them. */
  ghost predicate SortOutcome(parse: Parse, cells: Cells, v: ViewQuery, rows: seq<string>, out: seq<string>) {
    && (v.sort.None? ==> out == rows)
    && (v.sort.Some? && !NaNTrouble(SortInput(parse, cells, v.sort.value, rows)) ==>
          && multiset(out) == multiset(rows)
          && SortedRows(parse, cells, v.sort.value, v.asc, AllNumbers(parse, cells, v.sort.value, rows), out))
  }

  /** A page of these rows, sorted, and their number. */
  ghost predicate IsPage(parse: Parse, cells: Cells, v: ViewQuery, rows: seq<string>, out: seq<string>, total: nat) {
    exists sorted :: SortOutcome(parse, cells, v, rows, sorted) && |sorted| == |rows| == total
                     && out == PageOf(sorted, v.page, v.perPage)
  }

  /** Without paging every row is shown, without a sort field in the order there is. */
  lemma UnpagedShowsAll(parse: Parse, cells: Cells, v: ViewQuery, rows: seq<string>, out: seq<string>, total: nat)
    requires IsPage(parse, cells, v, rows, out, total) && (v.page == 0 || v.perPage == 0)
    ensures |out| == |rows| == total && (v.sort.None? ==> out == rows)
  {
    hide SortOutcome;
    var sorted :| SortOutcome(parse, cells, v, rows, sorted) && |sorted| == |rows| == total
                  && out == PageOf(sorted, v.page, v.perPage);
    SortKeeps(parse, cells, v, rows, sorted);
  }

  lemma SortKeeps(parse: Parse, cells: Cells, v: ViewQuery, rows: seq<string>, sorted: seq<string>)
    requires SortOutcome(parse, cells, v, rows, sorted)
    ensures v.sort.None? ==> sorted == rows
  {
  }

  /** Of the rows that the query shows without paging, a page that starts inside them shows those
      from its start on, as many as there are or fit. */
  lemma PageShows(parse: Parse, cells: Cells, v: ViewQuery, rows: seq<string>, out: seq<string>, total: nat,
                  start: nat)
    returns (all: seq<string>)
    requires IsPage(parse, cells, v, rows, out, total) && v.page > 0 && v.perPage > 0
    requires start == (v.page - 1) * v.perPage && start < |rows| < UINT32
    ensures IsPage(parse, cells, v.(page := 0), rows, all, total) && |all| == |rows| == total
    ensures |out| == if |rows| - start < v.perPage then |rows| - start else v.perPage
    ensures forall k :: 0 <= k < |out| ==> out[k] == all[start + k]
  {
    hide SortOutcome;
    all :| SortOutcome(parse, cells, v, rows, all) && |all| == |rows| == total
           && out == PageOf(all, v.page, v.perPage);
    SortAlike(parse, cells, v, rows, all);
    InRangeNeverWraps(|rows|, v.page, v.perPage);
    hide Skip;
    PageFrom(all, v.page, v.perPage, start);
    assert PageOf(all, 0, v.perPage) == all;
    assert SortOutcome(parse, cells, v.(page := 0), rows, all);
  }

  lemma SortAlike(parse: Parse, cells: Cells, v: ViewQuery, rows: seq<string>, sorted: seq<string>)
    ensures SortOutcome(parse, cells, v, rows, sorted) <==> SortOutcome(parse, cells, v.(page := 0), rows, sorted)
  {
    hide NaNTrouble, SortInput, SortedRows, AllNumbers;
  }

  lemma PageFrom(rows: seq<string>, page: nat, perPage: nat, start: nat)
    requires page > 0 && perPage > 0 && start < |rows| && Skip(page, perPage) == start
    ensures var out := PageOf(rows, page, perPage);
            && |out| == (if |rows| - start < perPage then |rows| - start else perPage)
            && forall k :: 0 <= k < |out| ==> out[k] == rows[start + k]
  {
    hide Skip;
  }

  /** The rows are counted; all are shown without paging, else those of the page from its start on,
      as many as there are or fit. */
  ghost predicate Shows(v: ViewQuery, kept: seq<string>, out: seq<string>, total: nat) {
    && total == |kept|
    && if v.page == 0 || v.perPage == 0 then |out| == |kept| && (v.sort.None? ==> out == kept)
       else
         var start := (v.page - 1) * v.perPage;
         start < |kept| ==>
           && |out| == (if |kept| - start < v.perPage then |kept| - start else v.perPage)
           && (v.sort.None? ==> forall k :: 0 <= k < |out| ==> out[k] == kept[start + k])
  }

  /** So they are for every page of the rows. */
  lemma PageIsShown(parse: Parse, cells: Cells, v: ViewQuery, rows: seq<string>, out: seq<string>, total: nat)
    requires IsPage(parse, cells, v, rows, out, total) && |rows| < UINT32
    ensures Shows(v, rows, out, total)
  {
    hide IsPage;
    if v.page == 0 || v.perPage == 0 {
      UnpagedShowsAll(parse, cells, v, rows, out, total);
    } else if (v.page - 1) * v.perPage < |rows| {
      var all := PageShows(parse, cells, v, rows, out, total, (v.page - 1) * v.perPage);
      UnpagedShowsAll(parse, cells, v.(page := 0), rows, all, total);
    } else {
      Counted(parse, cells, v, rows, out, total);
    }
  }

  lemma Counted(parse: Parse, cells: Cells, v: ViewQuery, rows: seq<string>, out: seq<string>, total: nat)
    requires IsPage(parse, cells, v, rows, out, total)
    ensures total == |rows|
  {
    hide SortOutcome, PageOf;
  }

  /** `hyle_apply_view`. */
  method ApplyView(fold: Fold, parse: Parse, qsort: Qsort, fields: seq<Field>, cells: Cells, rows: seq<string>,
                   q: Option<string>, filters: seq<FieldFilter>, v: ViewQuery)
    returns (out: seq<string>, total: nat)
    requires QsortLaw(qsort) && |rows| < UINT32 && v.page < UINT32 && v.perPage < UINT32
    ensures IsPage(parse, cells, v, Sift(rows, Passing(fold, fields, cells, q, filters, rows)), out, total)
    ensures Shows(v, Sift(rows, Passing(fold, fields, cells, q, filters, rows)), out, total)
  {
    var filtered := rows;
    if IsText(q) || filters != [] {
      filtered := FilterRows(fold, fields, cells, rows, q, filters);
    } else {
      SiftAll(rows, Passing(fold, fields, cells, q, filters, rows));
    }
    hide *;
    var sorted := SortRows(parse, qsort, cells, filtered, v.sort, v.asc);
    out, total := Paginate(sorted, v.page, v.perPage);
    PageIs(parse, cells, v, filtered, sorted);
    PageIsShown(parse, cells, v, filtered, out, total);
  }

  lemma PageIs(parse: Parse, cells: Cells, v: ViewQuery, rows: seq<string>, sorted: seq<string>)
    requires |sorted| == |rows| && (v.sort.None? ==> sorted == rows)
    requires v.sort.Some? && !NaNTrouble(SortInput(parse, cells, v.sort.value, rows)) ==>
               && multiset(sorted) == multiset(rows)
               && SortedRows(parse, cells, v.sort.value, v.asc, AllNumbers(parse, cells, v.sort.value, rows), sorted)
    ensures IsPage(parse, cells, v, rows, PageOf(sorted, v.page, v.perPage), |rows|)
  {
    hide NaNTrouble, SortInput, SortedRows, AllNumbers, PageOf;
    assert SortOutcome(parse, cells, v, rows, sorted);
  }
}
