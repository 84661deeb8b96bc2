/** A registered record source: rows, cells, a lazy full-text index, and queries. */
module Registry {
  import opened Collections
  import opened Wrappers
  import opened Records
  import opened Rows
  import opened View
  import opened Planner
  import opened PlannerLaws
  import QueryParser
  import QueryLaws

  // ---- the full-text index ---------------------------------------------------------------

  /** What a rebuild indexes for one field of a row. */
  function Posted(f: Field, cells: Cells, tokens: TokenMap, row: string): seq<Posting> {
    if !f.searchable || f.name == "" || row == "" then []
    else if TokenKey(row, f.name) in tokens then [Posting(f.name, row, Tokens(tokens[TokenKey(row, f.name)]))]
    else if IsText(Cell(cells, row, f.name)) then [Posting(f.name, row, Words(Cell(cells, row, f.name).value))]
    else []
  }

  function RowPostings(fields: seq<Field>, cells: Cells, tokens: TokenMap, row: string): Index {
    if fields == [] then []
    else RowPostings(fields[..|fields| - 1], cells, tokens, row) + Posted(fields[|fields| - 1], cells, tokens, row)
  }

  /** The index of the current rows: row by row, field by field. */
  function Rebuilt(fields: seq<Field>, rows: seq<string>, cells: Cells, tokens: TokenMap): Index {
    if rows == [] then []
    else Rebuilt(fields, rows[..|rows| - 1], cells, tokens) + RowPostings(fields, cells, tokens, rows[|rows| - 1])
  }

  lemma {:induction false} RowPostingsOfRow(fields: seq<Field>, cells: Cells, tokens: TokenMap, row: string)
    ensures forall p :: p in RowPostings(fields, cells, tokens, row) ==> p.row == row
  {
    if fields != [] {
      RowPostingsOfRow(fields[..|fields| - 1], cells, tokens, row);
    }
  }

  lemma {:induction false} RebuiltOfRows(fields: seq<Field>, rows: seq<string>, cells: Cells, tokens: TokenMap)
    ensures forall p :: p in Rebuilt(fields, rows, cells, tokens) ==> p.row in rows
  {
    if rows != [] {
      RebuiltOfRows(fields, rows[..|rows| - 1], cells, tokens);
      RowPostingsOfRow(fields, cells, tokens, rows[|rows| - 1]);
    }
  }

  // ---- what the index holds --------------------------------------------------------------

  /** What is indexed under one field of a row: its token stream if there is one, else its text. */
  ghost predicate Indexed(f: Field, cells: Cells, tokens: TokenMap, p: Posting) {
    && f.searchable && f.name != "" && p.row != "" && p.field == f.name
    && var key := TokenKey(p.row, f.name);
       if key in tokens then p.doc == Tokens(tokens[key])
       else
         && p.row in cells && f.name in cells[p.row] && cells[p.row][f.name] != ""
         && p.doc == Words(cells[p.row][f.name])
  }

  lemma PostedIff(f: Field, cells: Cells, tokens: TokenMap, row: string, p: Posting)
    ensures p in Posted(f, cells, tokens, row) <==> p.row == row && Indexed(f, cells, tokens, p)
  {
    hide TokenKey;
  }

  lemma PostedOnce(f: Field, cells: Cells, tokens: TokenMap, row: string)
    ensures |Posted(f, cells, tokens, row)| <= 1
  {
    hide TokenKey;
  }

  lemma {:induction false} RowPostingsIff(fields: seq<Field>, cells: Cells, tokens: TokenMap, row: string, p: Posting)
    ensures p in RowPostings(fields, cells, tokens, row)
            <==> p.row == row && exists j :: 0 <= j < |fields| && Indexed(fields[j], cells, tokens, p)
  {
    hide Posted, Indexed;
    if fields != [] {
      var front, last := fields[..|fields| - 1], fields[|fields| - 1];
      RowPostingsIff(front, cells, tokens, row, p);
      PostedIff(last, cells, tokens, row, p);
      assert forall j :: 0 <= j < |front| ==> front[j] == fields[j];
    }
  }

  /** The index holds, for each row and each searchable field of it, the token stream or else the
      text that the row has there, and nothing more. */
  lemma {:induction false} RebuiltIff(fields: seq<Field>, rows: seq<string>, cells: Cells, tokens: TokenMap, p: Posting)
    ensures p in Rebuilt(fields, rows, cells, tokens)
            <==> p.row in rows && exists j :: 0 <= j < |fields| && Indexed(fields[j], cells, tokens, p)
  {
    hide RowPostings, Indexed;
    if rows != [] {
      var front, last := rows[..|rows| - 1], rows[|rows| - 1];
      RebuiltIff(fields, front, cells, tokens, p);
      RowPostingsIff(fields, cells, tokens, last, p);
      assert rows == front + [last];
    }
  }

  /** Searchable fields with a name have different ones. */
  predicate NamesDiffer(fields: seq<Field>) {
    forall i, j :: 0 <= i < j < |fields| && fields[i].searchable && fields[j].searchable ==>
      fields[i].name != fields[j].name
  }

  lemma {:induction false} RowPostingsOnce(fields: seq<Field>, cells: Cells, tokens: TokenMap, row: string)
    requires NamesDiffer(fields)
    ensures Distinct(RowPostings(fields, cells, tokens, row))
  {
    if fields != [] {
      var front, last := fields[..|fields| - 1], fields[|fields| - 1];
      RowPostingsOnce(front, cells, tokens, row);
      var before, here := RowPostings(front, cells, tokens, row), Posted(last, cells, tokens, row);
      forall p | p in before ensures p !in here {
        RowPostingsIff(front, cells, tokens, row, p);
        PostedIff(last, cells, tokens, row, p);
        hide TokenKey;
      }
      PostedOnce(last, cells, tokens, row);
      hide Posted, RowPostings;
      DistinctJoin(before, here);
    }
  }

  lemma DistinctJoin<T>(a: seq<T>, b: seq<T>)
    requires Distinct(a) && Distinct(b) && forall x :: x in a ==> x !in b
    ensures Distinct(a + b)
  {
    forall i, j | 0 <= i < j < |a + b| ensures (a + b)[i] != (a + b)[j] {
      if i < |a| <= j {
        assert (a + b)[i] in a && b[j - |a|] in b;
      }
    }
  }

  /** Each posting stands in it once. */
  lemma {:induction false} RebuiltOnce(fields: seq<Field>, rows: seq<string>, cells: Cells, tokens: TokenMap)
    requires NamesDiffer(fields) && Distinct(rows)
    ensures Distinct(Rebuilt(fields, rows, cells, tokens))
  {
    if rows != [] {
      var front, last := rows[..|rows| - 1], rows[|rows| - 1];
      RebuiltOnce(fields, front, cells, tokens);
      RebuiltOfRows(fields, front, cells, tokens);
      RowPostingsOnce(fields, cells, tokens, last);
      RowPostingsOfRow(fields, cells, tokens, last);
      hide RowPostings;
      DistinctJoin(Rebuilt(fields, front, cells, tokens), RowPostings(fields, cells, tokens, last));
    }
  }

  /** Postings of an earlier row stand before those of a later one. */
  ghost predicate InRowOrder(rows: seq<string>, index: Index) {
    forall a, b, i, j ::
      0 <= a <= b < |index| && 0 <= i < |rows| && 0 <= j < |rows| && index[a].row == rows[i] && index[b].row == rows[j]
      ==> i <= j
  }

  lemma {:induction false} RebuiltInOrder(fields: seq<Field>, rows: seq<string>, cells: Cells, tokens: TokenMap)
    requires Distinct(rows)
    ensures InRowOrder(rows, Rebuilt(fields, rows, cells, tokens))
  {
    if rows != [] {
      var front, last := rows[..|rows| - 1], rows[|rows| - 1];
      RebuiltInOrder(fields, front, cells, tokens);
      RebuiltOfRows(fields, front, cells, tokens);
      RowPostingsOfRow(fields, cells, tokens, last);
      hide RowPostings, Rebuilt;
      OrderJoin(front, last, Rebuilt(fields, front, cells, tokens), RowPostings(fields, cells, tokens, last));
      assert Rebuilt(fields, rows, cells, tokens)
             == Rebuilt(fields, front, cells, tokens) + RowPostings(fields, cells, tokens, last) by {
        RebuiltSnoc(fields, rows, cells, tokens);
      }
      assert rows == front + [last];
    }
  }

  lemma RebuiltSnoc(fields: seq<Field>, rows: seq<string>, cells: Cells, tokens: TokenMap)
    requires rows != []
    ensures Rebuilt(fields, rows, cells, tokens)
            == Rebuilt(fields, rows[..|rows| - 1], cells, tokens)
               + RowPostings(fields, cells, tokens, rows[|rows| - 1])
  {
  }

  lemma OrderJoin(front: seq<string>, last: string, before: Index, here: Index)
    requires Distinct(front + [last]) && InRowOrder(front, before)
    requires (forall p :: p in before ==> p.row in front) && (forall p :: p in here ==> p.row == last)
    ensures InRowOrder(front + [last], before + here)
  {
    var rows, index := front + [last], before + here;
    assert rows[|front|] == last && forall k :: 0 <= k < |front| ==> rows[k] == front[k];
    assert last !in front;
    forall a, b, i, j | 0 <= a <= b < |index| && 0 <= i < |rows| && 0 <= j < |rows|
                        && index[a].row == rows[i] && index[b].row == rows[j]
      ensures i <= j
    {
      if b < |before| {
        assert before[a] in before && before[b] in before;
        assert i < |front| && j < |front|;
      } else {
        assert here[b - |before|] in here;
      }
    }
  }

  /** Hits come from the field's own postings, each row once. */
  ghost predicate SearchLaw(search: Search) {
    forall index: Index, field, text, phrase :: search(index, field, text, phrase).Some? ==>
      var hits := search(index, field, text, phrase).value;
      Distinct(hits) && forall r :: r in hits ==> exists p :: p in index && p.field == field && p.row == r
  }

  // ---- from the query string -------------------------------------------------------------

  function FromParsed(f: QueryParser.Filter): FieldFilter {
    FieldFilter(f.field, Some(f.value), f.op)
  }

  function FiltersFrom(s: string): seq<FieldFilter> {
    var fs := QueryParser.Meaning(s).filters;
    seq(|fs|, i requires 0 <= i < |fs| => FromParsed(fs[i]))
  }

  /** Whatever the query string, its filters agree on the operator of a field. */
  lemma ParsedOpsAgree(s: string)
    ensures OpsAgree(FiltersFrom(s))
  {
    var fs := QueryParser.Meaning(s).filters;
    forall i: nat, j: nat | i < |fs| && j < |fs| && fs[i].field == fs[j].field ensures fs[i].op == fs[j].op {
      QueryLaws.SameFieldSameOp(s, i, j);
    }
    hide QueryParser.Meaning;
  }

  // ---- the source ------------------------------------------------------------------------

  /** What a put writes: entries with a name, each value as the record type stores it. */
  function StoredEntries(resolve: (string, string) -> string, entries: seq<Entry>): (r: seq<Entry>)
    ensures |r| == |entries|
  {
    if entries == [] then []
    else
      var e := entries[|entries| - 1];
      StoredEntries(resolve, entries[..|entries| - 1])
      + [if e.name.Some? then Entry(e.name, Some(resolve(e.name.value, e.value.GetOr("")))) else e]
  }

  function RecordOf(cells: Cells, row: string): Record {
    if row in cells then cells[row] else map[]
  }

  lemma CellOfRecord(cells: Cells, r: string, f: string)
    ensures Cell(cells, r, f) == if f in RecordOf(cells, r) then Some(RecordOf(cells, r)[f]) else None
  {
  }

  function WithCell(cells: Cells, row: string, field: string, value: string): Cells {
    cells[row := RecordOf(cells, row)[field := value]]
  }

  function AddRow(rows: seq<string>, row: string): seq<string> {
    if row in rows then rows else rows + [row]
  }

  lemma StoredStep(resolve: (string, string) -> string, entries: seq<Entry>, i: nat)
    requires i < |entries|
    ensures var e := entries[i];
            ItemOf(StoredEntries(resolve, entries[..i + 1]))
            == if e.name.None? then ItemOf(StoredEntries(resolve, entries[..i]))
               else ItemOf(StoredEntries(resolve, entries[..i]))
                    [e.name.value := resolve(e.name.value, e.value.GetOr(""))]
  {
    assert entries[..i + 1][..i] == entries[..i];
    var s := StoredEntries(resolve, entries[..i]);
    var last := StoredEntries(resolve, entries[..i + 1])[i];
    assert (s + [last])[..i] == s;
  }

  /** The record of one row grew by these fields; no other record changed. */
  ghost predicate Grown(before: Cells, after: Cells, row: string, item: Record) {
    forall r :: RecordOf(after, r) == if r == row then RecordOf(before, r) + item else RecordOf(before, r)
  }

  lemma GrownStep(before: Cells, cells: Cells, row: string, item: Record, name: string, value: string)
    requires Grown(before, cells, row, item)
    ensures Grown(before, WithCell(cells, row, name, value), row, item[name := value])
  {
    assert RecordOf(before, row) + item[name := value] == (RecordOf(before, row) + item)[name := value];
  }

  /** The entry loop of `hyle_registry_put`. */
  method PutEntries(cells: Cells, tokens: TokenMap, row: string, entries: seq<Entry>,
                    resolve: (string, string) -> string, encode: Encode)
    returns (outCells: Cells, outTokens: TokenMap)
    ensures Grown(cells, outCells, row, ItemOf(StoredEntries(resolve, entries)))
    ensures outTokens == TokensAfter(encode, tokens, row, entries)
  {
    outCells, outTokens := cells, tokens;
    assert entries[..0] == [] && entries[..|entries|] == entries;
    assert RecordOf(cells, row) + map[] == RecordOf(cells, row);
    assert Grown(cells, cells, row, ItemOf(StoredEntries(resolve, [])));
    assert TokensAfter(encode, tokens, row, []) == tokens;
    hide *;
    for i := 0 to |entries|
      invariant Grown(cells, outCells, row, ItemOf(StoredEntries(resolve, entries[..i])))
      invariant outTokens == TokensAfter(encode, tokens, row, entries[..i])
    {
      StoredStep(resolve, entries, i);
      TokensStep(encode, tokens, row, entries, i);
      outTokens := CodeEntry(encode, outTokens, row, entries[i]);
      if entries[i].name.Some? {
        var name := entries[i].name.value;
        var value := resolve(name, entries[i].value.GetOr(""));
        GrownStep(cells, outCells, row, ItemOf(StoredEntries(resolve, entries[..i])), name, value);
        outCells := WithCell(outCells, row, name, value);
      }
    }
  }

  /** A page of the rows that one predicate keeps, sorted, and their number. */
  ghost predicate Answers(env: Env, parse: Parse, fields: seq<Field>, cells: Cells, index: Index, query: RowQuery,
                          rows: seq<string>, out: seq<string>, total: nat)
  {
    IsPage(parse, cells, query.view, KeptRows(env, fields, cells, index, query.filters, query.q, rows), out, total)
  }

  lemma AnswerIs(env: Env, parse: Parse, fields: seq<Field>, cells: Cells, index: Index, query: RowQuery,
                 rows: seq<string>, out: seq<string>, total: nat)
    requires IsPage(parse, cells, query.view,
                    KeptRows(env, fields, cells, index, query.filters, query.q, rows), out, total)
    ensures Answers(env, parse, fields, cells, index, query, rows, out, total)
  {
  }

  const NAME_SIZE := 64

  /** Reference field names are compared through a 64-byte buffer. */
  predicate NamesFit(fields: seq<Field>) {
    forall i :: 0 <= i < |fields| && (fields[i].kind == Reference || fields[i].kind == MultiReference) ==>
      |fields[i].name| < NAME_SIZE
  }

  /** No derived field is searchable: what its provider answers may change unnoticed. */
  predicate NoDerivedIndex(fields: seq<Field>) {
    forall i :: 0 <= i < |fields| && fields[i].searchable ==> fields[i].kind != Derived
  }

  /** The keys of a row's fields fit their 1024-byte buffer. */
  predicate KeysFit(fields: seq<Field>, row: string) {
    forall i :: 0 <= i < |fields| ==> |Comp(row, fields[i].name)| < KEY_SIZE
  }

  /** The inner loop of the rebuild: one row, field by field. */
  method IndexRow(fields: seq<Field>, cells: Cells, tokens: TokenMap, row: string, index: Index) returns (out: Index)
    ensures out == index + RowPostings(fields, cells, tokens, row)
  {
    out := index;
    assert fields[..0] == [] && fields[..|fields|] == fields && index + [] == index;
    for j := 0 to |fields|
      invariant out == index + RowPostings(fields[..j], cells, tokens, row)
    {
      assert fields[..j + 1][..j] == fields[..j];
      hide Posted;
      out := out + Posted(fields[j], cells, tokens, row);
    }
  }

  datatype RowQuery = RowQuery(q: Option<string>, filters: seq<FieldFilter>, view: ViewQuery)

  /** The registry entry of a record source that is not ordered. */
  class Source {
    const fields: seq<Field>
    const indexed: bool
    var rows: seq<string>
    var cells: Cells
    var tokens: TokenMap
    var index: Index
    var dirty: bool

    ghost function Rebuild(): Index
      reads this
    {
      Rebuilt(fields, rows, cells, tokens)
    }

    /** Unless marked dirty, the index is that of the current rows. */
    ghost predicate Valid()
      reads this
    {
      && (indexed <==> exists i :: 0 <= i < |fields| && fields[i].searchable)
      && Distinct(rows) && NamesFit(fields) && NoDerivedIndex(fields) && (forall r :: r in rows ==> KeysFit(fields, r))
      && (indexed && !dirty ==> index == Rebuild())
    }

    /** `hyle_registry_register`. */
    constructor (fields: seq<Field>)
      requires NamesFit(fields) && NoDerivedIndex(fields)
      ensures Valid() && this.fields == fields && rows == [] && cells == map[] && tokens == map[]
    {
      this.fields := fields;
      indexed := exists i :: 0 <= i < |fields| && fields[i].searchable;
      rows, cells, tokens, index, dirty := [], map[], map[], [], true;
    }

    /** `hyle_registry_put`. */
    method Put(row: string, entries: seq<Entry>, resolve: (string, string) -> string, encode: Encode)
      requires Valid() && KeysFit(fields, row)
      modifies this
      ensures Valid() && rows == AddRow(old(rows), row)
      ensures old(rows) <= rows && forall r :: r in rows <==> r in old(rows) || r == row
      ensures Grown(old(cells), cells, row, ItemOf(StoredEntries(resolve, entries)))
      ensures tokens == TokensAfter(encode, old(tokens), row, entries)
    {
      rows := AddRow(rows, row);
      cells, tokens := PutEntries(cells, tokens, row, entries, resolve, encode);
      if indexed {
        dirty := true;
      }
    }

    /** `hyle_registry_put_tokens`: the number of tokens is kept in 16 bits. */
    method PutTokens(row: string, field: string, code: seq<nat>)
      requires Valid() && KeysFit(fields, row)
      modifies this
      ensures Valid() && rows == AddRow(old(rows), row) && cells == old(cells)
      ensures tokens == old(tokens)[TokenKey(row, field) := code[..|code| % 0x1_0000]]
    {
      tokens := tokens[TokenKey(row, field) := code[..|code| % 0x1_0000]];
      rows := AddRow(rows, row);
      if indexed {
        dirty := true;
      }
    }

    /** `hyle_registry_del`: the row and its record go, its token streams stay. */
    method Del(row: string)
      requires Valid()
      modifies this
      ensures Valid() && rows == Sift(old(rows), Elements(old(rows)) - {row})
      ensures forall r :: r in rows <==> r in old(rows) && r != row
      ensures cells == old(cells) - {row} && tokens == old(tokens)
    {
      SiftIn(rows, Elements(rows) - {row});
      rows := Sift(rows, Elements(rows) - {row});
      cells := cells - {row};
      if indexed {
        dirty := true;
      }
    }

    lemma RebuildIs()
      requires Valid()
      ensures forall p :: p in Rebuild()
                <==> p.row in rows && exists j :: 0 <= j < |fields| && Indexed(fields[j], cells, tokens, p)
      ensures NamesDiffer(fields) ==> Distinct(Rebuild())
    {
      hide Indexed, Rebuilt, NamesDiffer, Distinct;
      forall p
        ensures p in Rebuild()
                <==> p.row in rows && exists j :: 0 <= j < |fields| && Indexed(fields[j], cells, tokens, p)
      {
        RebuiltIff(fields, rows, cells, tokens, p);
      }
      if NamesDiffer(fields) {
        RebuiltOnce(fields, rows, cells, tokens);
      }
    }

    /** The rebuild in `prefilter_fts`. */
    method RebuildIndex()
      requires Valid()
      modifies this`index, this`dirty
      ensures Valid() && !dirty && index == Rebuild()
      ensures forall p :: p in index
                <==> p.row in rows && exists j :: 0 <= j < |fields| && Indexed(fields[j], cells, tokens, p)
      ensures NamesDiffer(fields) ==> Distinct(index)
    {
      index := [];
      assert rows[..0] == [] && rows[..|rows|] == rows;
      for i := 0 to |rows|
        invariant index == Rebuilt(fields, rows[..i], cells, tokens)
      {
        assert rows[..i + 1][..i] == rows[..i];
        hide RowPostings;
        index := IndexRow(fields, cells, tokens, rows[i], index);
      }
      dirty := false;
      RebuildIs();
    }

    /** The refresh at the head of `prefilter_fts`: only when a searchable field is asked for. */
    method Refresh(filters: seq<FieldFilter>) returns (asked: bool)
      requires Valid()
      modifies this`index, this`dirty
      ensures Valid()
      ensures asked ==> index == Rebuild()
      ensures !asked ==> forall i :: 0 <= i < |filters| ==> !Searchable(fields, filters[i].field)
    {
      asked := false;
      if !indexed {
        return;
      }
      var fi := 0;
      while fi < |filters| && !Searchable(fields, filters[fi].field)
        invariant 0 <= fi <= |filters| && forall k :: 0 <= k < fi ==> !Searchable(fields, filters[k].field)
      {
        fi := fi + 1;
      }
      if fi < |filters| {
        asked := true;
        if dirty {
          RebuildIndex();
        }
      }
    }

    /** `hyle_registry_query`: full text, references, search text, then the view.  Answered as
        from an index of the current rows, and keeping the rows of one predicate. */
    method Query(env: Env, parse: Parse, qsort: Qsort, query: RowQuery)
      returns (out: seq<string>, total: nat)
      requires Valid() && QsortLaw(qsort) && SearchLaw(env.search)
      requires |rows| < UINT32 && query.view.page < UINT32 && query.view.perPage < UINT32
      modifies this`index, this`dirty
      ensures Valid()
      ensures Answers(env, parse, fields, cells, Rebuild(), query, rows, out, total)
    {
      var filters := new FieldFilter[|query.filters|](i requires 0 <= i < |query.filters| => query.filters[i]);
      assert filters[..] == query.filters;
      var asked := Refresh(query.filters);
      ghost var idx := Rebuild();
      assert Distinct(rows) && idx == Rebuilt(fields, rows, cells, tokens);
      hide *;
      var base := Prefilter(env, fields, cells, rows, index, asked, filters, query.q, idx);
      StagesKeep(env, fields, cells, idx, query.filters, query.q, rows);
      StagedIs(env, fields, cells, idx, query.filters, query.q, rows);
      StartInside(env, fields, cells, tokens, query.filters, rows);
      PrefilteredFits(env, fields, cells, idx, query.filters, query.q, rows);
      out, total := ApplyView(env.fold, parse, qsort, fields, cells, base, None, filters[..], query.view);
      AnswerIs(env, parse, fields, cells, idx, query, rows, out, total);
    }
  }

  /** The three pre-filters of `hyle_registry_query`, one after the other. */
  method Prefilter(env: Env, fields: seq<Field>, cells: Cells, rows: seq<string>, index: Index, asked: bool,
                   filters: array<FieldFilter>, q: Option<string>, ghost idx: Index)
    returns (base: seq<string>)
    requires asked ==> index == idx
    requires !asked ==> forall i :: 0 <= i < filters.Length ==> !Searchable(fields, filters[i].field)
    modifies filters
    ensures filters[..] == Remaining(env, fields, idx, old(filters[..]))
    ensures base == Prefiltered(env, fields, cells, idx, old(filters[..]), q, rows)
  {
    ghost var fs := filters[..];
    if !asked {
      NotAsked(env, fields, idx, fs);
    }
    hide *;
    var fts: Option<seq<string>> := None;
    if asked {
      fts := PrefilterFullText(env, fields, index, filters);
    }
    assert filters[..] == AfterFullText(env, fields, idx, fs);
    base := if fts.Some? then fts.value else rows;
    var pre := PrefilterMultiRef(env, fields, cells, filters, base);
    PrefilteredIs(env, fields, cells, idx, fs, q, rows);
    if pre.Some? {
      base := pre.value;
    }
    if q.Some? && q.value != "" {
      base := PrefilterQ(env, fields, cells, q.value, base);
    }
  }

  lemma PrefilteredIs(env: Env, fields: seq<Field>, cells: Cells, index: Index, fs: seq<FieldFilter>,
                      q: Option<string>, rows: seq<string>)
    ensures var rest := AfterFullText(env, fields, index, fs);
            var h, fts := RefSet(env, fields, rest), FullTextRows(env, fields, index, fs);
            var first := if fts.Some? then fts.value else rows;
            var second := if h == {} then first else Sift(first, RefRows(env, fields, cells, rest, first));
            && Prefiltered(env, fields, cells, index, fs, q, rows)
               == (if q.Some? && q.value != "" then Sift(second, QRows(env, fields, cells, q.value, second))
                   else second)
            && Remaining(env, fields, index, fs) == Cleared(rest, h)
  {
    hide AfterFullText, RefSet, FullTextRows, RefRows, QRows, Cleared, Sift;
  }

  lemma PrefilteredFits(env: Env, fields: seq<Field>, cells: Cells, index: Index, fs: seq<FieldFilter>,
                        q: Option<string>, rows: seq<string>)
    ensures |Prefiltered(env, fields, cells, index, fs, q, rows)| <= |Start(env, fields, index, fs, rows)|
  {
    FirstStage(env, fields, index, fs, rows);
    hide AfterFullText, RefSet, FullTextRows, RefRows, QRows, HitSet, Start;
  }

  lemma {:induction false} FirstHitsInside(env: Env, fields: seq<Field>, index: Index, fs: seq<FieldFilter>)
    requires SearchLaw(env.search) && FirstHits(env, fields, index, fs).Some?
    ensures Distinct(FirstHits(env, fields, index, fs).value)
    ensures forall r :: r in FirstHits(env, fields, index, fs).value ==> exists p :: p in index && p.row == r
  {
    hide Distinct, Searchable;
    if FirstHits(env, fields, index, fs[..|fs| - 1]).Some? {
      FirstHitsInside(env, fields, index, fs[..|fs| - 1]);
    } else {
      HitsInside(env, index, fs[|fs| - 1]);
    }
  }

  lemma HitsInside(env: Env, index: Index, f: FieldFilter)
    requires SearchLaw(env.search) && HasValue(f) && Hits(env, index, f).Some?
    ensures Distinct(Hits(env, index, f).value)
    ensures forall r :: r in Hits(env, index, f).value ==> exists p :: p in index && p.row == r
  {
    hide Distinct;
  }

  /** The starting rows are rows of the source, each once. */
  lemma StartInside(env: Env, fields: seq<Field>, cells: Cells, tokens: TokenMap, fs: seq<FieldFilter>,
                    rows: seq<string>)
    requires SearchLaw(env.search) && Distinct(rows)
    ensures var start := Start(env, fields, Rebuilt(fields, rows, cells, tokens), fs, rows);
            Distinct(start) && (forall r :: r in start ==> r in rows) && |start| <= |rows|
  {
    var index := Rebuilt(fields, rows, cells, tokens);
    var start := Start(env, fields, index, fs, rows);
    RebuiltOfRows(fields, rows, cells, tokens);
    hide Rebuilt, FirstHits, SearchLaw, Distinct;
    if FirstHits(env, fields, index, fs).Some? {
      FirstHitsInside(env, fields, index, fs);
      DistinctSize(start);
      DistinctSize(rows);
      SubsetSize(Elements(start), Elements(rows));
    }
  }

  /** Kept rows are rows of the source, each once; with no full-text filter, in its order. */
  lemma KeptInside(env: Env, fields: seq<Field>, cells: Cells, tokens: TokenMap, fs: seq<FieldFilter>,
                   q: Option<string>, rows: seq<string>)
    requires SearchLaw(env.search) && Distinct(rows)
    ensures var index := Rebuilt(fields, rows, cells, tokens);
            var kept := KeptRows(env, fields, cells, index, fs, q, rows);
            && Distinct(kept)
            && (forall r :: r in kept ==> r in rows && Keeps(env, fields, cells, index, fs, q, r))
            && ((forall i :: 0 <= i < |fs| ==> !IsFullText(env, fields, index, fs[i])) ==>
                  forall r :: r in rows && Keeps(env, fields, cells, index, fs, q, r) ==> r in kept)
  {
    var index := Rebuilt(fields, rows, cells, tokens);
    var start := Start(env, fields, index, fs, rows);
    StartInside(env, fields, cells, tokens, fs, rows);
    FirstHitsNoneIff(env, fields, index, fs);
    hide Rebuilt, FirstHits, SearchLaw, Distinct, Keeps, IsFullText, Sift;
    SiftIn(start, set r | r in start && Keeps(env, fields, cells, index, fs, q, r));
  }

  lemma StagedIs(env: Env, fields: seq<Field>, cells: Cells, index: Index, fs: seq<FieldFilter>,
                 q: Option<string>, rows: seq<string>)
    ensures var left := Prefiltered(env, fields, cells, index, fs, q, rows);
            StagedRows(env, fields, cells, index, fs, q, rows)
            == Sift(left, Passing(env.fold, fields, cells, None, Remaining(env, fields, index, fs), left))
  {
    hide Prefiltered, Remaining, Passing, Sift;
  }

  lemma NotAsked(env: Env, fields: seq<Field>, index: Index, fs: seq<FieldFilter>)
    requires forall i :: 0 <= i < |fs| ==> !Searchable(fields, fs[i].field)
    ensures AfterFullText(env, fields, index, fs) == fs && FullTextRows(env, fields, index, fs) == None
  {
    FullTextMeaning(env, fields, index, fs);
    FirstHitsNoneIff(env, fields, index, fs);
  }
}
