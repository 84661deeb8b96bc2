/** What the full-text index holds after a log of puts, stored tokens and deletes. */
module IndexLaws {
  import opened Wrappers
  import opened Records
  import opened Rows
  import opened Planner
  import opened Registry

  /** `hyle_registry_put`, `hyle_registry_put_tokens` and `hyle_registry_del`. */
  datatype Event =
    | Stored(row: string, entries: seq<Entry>)
    | Tokenized(row: string, field: string, code: seq<nat>)
    | Deleted(row: string)

  /** The tokens that a 16-bit count keeps. */
  function Counted(code: seq<nat>): seq<nat> {
    code[..|code| % 0x1_0000]
  }

  /** How the record type stores a text of a field. */
  type Resolve = (string, string) -> string

  // ---- what a log leaves -------------------------------------------------------------

  /** The text a row has in a field: the last one put since its last delete. */
  function Present(resolve: Resolve, log: seq<Event>, row: string, field: string): Option<string> {
    if log == [] then None
    else
      var before, e := Present(resolve, log[..|log| - 1], row, field), log[|log| - 1];
      if e.row != row || e.Tokenized? then before
      else if e.Deleted? then None
      else
        var item := ItemOf(StoredEntries(resolve, e.entries));
        if field in item then Some(item[field]) else before
  }

  /** The token streams: a delete leaves them, and stored tokens replace them. */
  function Streams(encode: Encode, log: seq<Event>): TokenMap {
    if log == [] then map[]
    else
      var before, e := Streams(encode, log[..|log| - 1]), log[|log| - 1];
      if e.Stored? then TokensAfter(encode, before, e.row, e.entries)
      else if e.Tokenized? then before[TokenKey(e.row, e.field) := Counted(e.code)]
      else before
  }

  /** The source holds what the log says. */
  ghost predicate Holds(resolve: Resolve, encode: Encode, log: seq<Event>, cells: Cells, tokens: TokenMap) {
    tokens == Streams(encode, log) && forall r, f :: Cell(cells, r, f) == Present(resolve, log, r, f)
  }

  lemma HoldsStep(resolve: Resolve, encode: Encode, log: seq<Event>, i: nat, before: Cells, after: Cells,
                  tokens: TokenMap, code: TokenMap)
    requires i < |log| && Holds(resolve, encode, log[..i], before, tokens)
    requires if log[i].Stored? then
               && Grown(before, after, log[i].row, ItemOf(StoredEntries(resolve, log[i].entries)))
               && code == TokensAfter(encode, tokens, log[i].row, log[i].entries)
             else if log[i].Tokenized? then
               after == before && code == tokens[TokenKey(log[i].row, log[i].field) := Counted(log[i].code)]
             else after == before - {log[i].row} && code == tokens
    ensures Holds(resolve, encode, log[..i + 1], after, code)
  {
    assert log[..i + 1][..i] == log[..i];
    hide ItemOf, StoredEntries, TokensAfter;
    forall r, f ensures Cell(after, r, f) == Present(resolve, log[..i + 1], r, f) {
      assert Cell(before, r, f) == Present(resolve, log[..i], r, f);
      CellOfRecord(before, r, f);
      CellOfRecord(after, r, f);
    }
  }

  /** Replaying a log on a source leaves the texts and token streams that the log says. */
  method Replay(src: Source, log: seq<Event>, resolve: Resolve, encode: Encode)
    requires src.Valid() && src.cells == map[] && src.tokens == map[]
    requires forall i :: 0 <= i < |log| ==> KeysFit(src.fields, log[i].row)
    modifies src
    ensures src.Valid() && Holds(resolve, encode, log, src.cells, src.tokens)
  {
    assert log[..|log|] == log;
    for i := 0 to |log|
      invariant src.Valid() && Holds(resolve, encode, log[..i], src.cells, src.tokens)
    {
      ghost var cells, tokens := src.cells, src.tokens;
      hide Holds, Source.Valid, TokensAfter, KeysFit;
      match log[i] {
        case Stored(r, entries) => src.Put(r, entries, resolve, encode);
        case Tokenized(r, field, code) => src.PutTokens(r, field, code);
        case Deleted(r) => src.Del(r);
      }
      HoldsStep(resolve, encode, log, i, cells, src.cells, tokens, src.tokens);
    }
  }

  // ---- is a posting true -----------------------------------------------------------------

  /** A posting stands for a text: it is the text, or the text's token stream. */
  ghost predicate Stands(encode: Encode, doc: Doc, text: string) {
    match doc
    case Words(t) => t == text
    case Tokens(code) => encode(text) == Some(code)
  }

  /** Whatever a rebuild posts for the field of the row stands for the row's present text. */
  ghost predicate PostsTruth(encode: Encode, f: Field, cells: Cells, tokens: TokenMap, row: string) {
    forall p :: p in Posted(f, cells, tokens, row) ==>
      Cell(cells, row, f.name).Some? && Stands(encode, p.doc, Cell(cells, row, f.name).value)
  }

  /** It does exactly when the row has no token stream there, or that of its present text. */
  lemma PostsTruthIff(encode: Encode, f: Field, cells: Cells, tokens: TokenMap, row: string)
    requires f.searchable && f.name != "" && row != ""
    ensures PostsTruth(encode, f, cells, tokens, row)
            <==> TokenKey(row, f.name) !in tokens
                 || (Cell(cells, row, f.name).Some?
                     && encode(Cell(cells, row, f.name).value) == Some(tokens[TokenKey(row, f.name)]))
  {
    hide TokenKey;
    var posts := Posted(f, cells, tokens, row);
    if posts != [] {
      assert posts[0] in posts;
    }
  }

  /** The tokens last put for a field of a row, by a text or as such. */
  function Coded(encode: Encode, log: seq<Event>, row: string, field: string): Option<seq<nat>> {
    if log == [] then None
    else
      var before, e := Coded(encode, log[..|log| - 1], row, field), log[|log| - 1];
      if e.Stored? && e.row == row && LastCode(encode, e.entries, field).Some?
      then LastCode(encode, e.entries, field)
      else if e.Tokenized? && e.row == row && e.field == field then Some(Counted(e.code))
      else before
  }

  /** Keys that fit their buffer, of rows none of which goes on with a colon after another. */
  predicate PlainLog(log: seq<Event>, row: string) {
    forall i :: 0 <= i < |log| ==>
      && Apart(log[i].row, row)
      && (log[i].Stored? ==> PlainEntries(log[i].row, log[i].entries))
      && (log[i].Tokenized? ==> |Comp(log[i].row, log[i].field)| < KEY_SIZE)
  }

  lemma SameTokenKey(r: string, f: string, row: string, field: string)
    requires Apart(r, row) && |Comp(r, f)| < KEY_SIZE && |Comp(row, field)| < KEY_SIZE
    ensures TokenKey(r, f) == TokenKey(row, field) <==> r == row && f == field
  {
    CompInjective(r, f, row, field);
    hide Comp, Apart;
  }

  /** Under plain keys the stream kept for a field of a row is that of the last text put there. */
  lemma {:induction false} StreamsAreCoded(encode: Encode, log: seq<Event>, row: string, field: string)
    requires PlainLog(log, row) && |Comp(row, field)| < KEY_SIZE
    ensures var key := TokenKey(row, field);
            && (key in Streams(encode, log) <==> Coded(encode, log, row, field).Some?)
            && (key in Streams(encode, log) ==> Streams(encode, log)[key] == Coded(encode, log, row, field).value)
  {
    hide Comp, TokenKey, Apart, PlainEntries, TokensAfter, LastCode;
    if log != [] {
      var front, e := log[..|log| - 1], log[|log| - 1];
      assert log == front + [e];
      StreamsAreCoded(encode, front, row, field);
      if e.Stored? {
        CodedEntries(encode, Streams(encode, front), e.row, e.entries, row, field);
      } else if e.Tokenized? {
        SameTokenKey(e.row, e.field, row, field);
      }
    }
  }

  /** After any such log: the index is true of the field of the row exactly when no tokens were
      ever put there, or the present text has the last ones put. */
  lemma IndexTrueIff(resolve: Resolve, encode: Encode, log: seq<Event>, cells: Cells, tokens: TokenMap, f: Field,
                     row: string)
    requires Holds(resolve, encode, log, cells, tokens) && PlainLog(log, row)
    requires f.searchable && f.name != "" && row != "" && |Comp(row, f.name)| < KEY_SIZE
    ensures PostsTruth(encode, f, cells, tokens, row)
            <==> var code, text := Coded(encode, log, row, f.name), Present(resolve, log, row, f.name);
                 code.None? || (text.Some? && encode(text.value) == code)
  {
    PostsTruthIff(encode, f, cells, tokens, row);
    StreamsAreCoded(encode, log, row, f.name);
    hide PostsTruth, TokenKey, Comp, Apart, PlainLog, Streams, Present, Coded;
  }

  /** Only texts are put: none is missing, each encodes, and is stored as it is. */
  ghost predicate OnlyTexts(resolve: Resolve, encode: Encode, log: seq<Event>) {
    forall i :: 0 <= i < |log| ==>
      !log[i].Tokenized? && (log[i].Stored? ==> TextEntries(resolve, encode, log[i].entries))
  }

  predicate TextEntries(resolve: Resolve, encode: Encode, entries: seq<Entry>) {
    forall e :: e in entries && e.name.Some? ==>
      e.value.Some? && encode(e.value.value).Some? && resolve(e.name.value, e.value.value) == e.value.value
  }

  lemma {:induction false} TextsAreCoded(resolve: Resolve, encode: Encode, entries: seq<Entry>, field: string)
    requires TextEntries(resolve, encode, entries)
    ensures var item, code := ItemOf(StoredEntries(resolve, entries)), LastCode(encode, entries, field);
            (field in item <==> code.Some?) && (field in item ==> encode(item[field]) == code)
  {
    if entries != [] {
      var front, e := entries[..|entries| - 1], entries[|entries| - 1];
      assert entries == front + [e];
      TextsAreCoded(resolve, encode, front, field);
      var s := StoredEntries(resolve, entries);
      assert s[..|s| - 1] == StoredEntries(resolve, front);
    }
  }

  lemma {:induction false} PresentIsCoded(resolve: Resolve, encode: Encode, log: seq<Event>, row: string, field: string)
    requires OnlyTexts(resolve, encode, log)
    ensures var code, text := Coded(encode, log, row, field), Present(resolve, log, row, field);
            text.Some? ==> encode(text.value) == code
  {
    hide ItemOf, StoredEntries, LastCode, TextEntries;
    if log != [] {
      var front, e := log[..|log| - 1], log[|log| - 1];
      assert log == front + [e];
      PresentIsCoded(resolve, encode, front, row, field);
      if e.Stored? {
        TextsAreCoded(resolve, encode, e.entries, field);
      }
    }
  }

  /** When only texts are put: exactly when none was ever put there, or one since the last delete. */
  lemma TextIndexTrueIff(resolve: Resolve, encode: Encode, log: seq<Event>, cells: Cells, tokens: TokenMap, f: Field,
                         row: string)
    requires Holds(resolve, encode, log, cells, tokens) && PlainLog(log, row) && OnlyTexts(resolve, encode, log)
    requires f.searchable && f.name != "" && row != "" && |Comp(row, f.name)| < KEY_SIZE
    ensures PostsTruth(encode, f, cells, tokens, row)
            <==> Coded(encode, log, row, f.name).None? || Present(resolve, log, row, f.name).Some?
  {
    IndexTrueIff(resolve, encode, log, cells, tokens, f, row);
    PresentIsCoded(resolve, encode, log, row, f.name);
    hide PostsTruth, Comp, PlainLog, Present, Coded, OnlyTexts, Holds;
  }

  /** "foo" is put and deleted with its row, and the row put back without it: the index still has it. */
  method DeletedTextStays(resolve: Resolve, encode: Encode) returns (src: Source)
    requires encode("foo") == Some([7])
    ensures fresh(src) && src.Valid() && src.rows == ["r"] && src.index == src.Rebuild()
    ensures Posting("t", "r", Tokens([7])) in src.index && Cell(src.cells, "r", "t") == None
  {
    var field := Field("t", Value, None, true, false);
    FieldFits(field);
    hide *;
    src := new Source([field]);
    src.Put("r", [Entry(Some("t"), Some("foo"))], resolve, encode);
    RowGoes(src.rows, resolve, encode);
    src.Del("r");
    ghost var cells := src.cells;
    src.Put("r", [], resolve, encode);
    src.RebuildIndex();
    NoCell(cells, src.cells, resolve);
    IsPosted(src, field);
  }

  lemma FieldFits(field: Field)
    requires field.name == "t" && field.kind == Value
    ensures NamesFit([field]) && NoDerivedIndex([field]) && KeysFit([field], "r")
  {
  }

  lemma RowGoes(rows: seq<string>, resolve: Resolve, encode: Encode)
    requires encode("foo") == Some([7])
    ensures AddRow([], "r") == ["r"]
    ensures rows == ["r"] ==> Sift(rows, Elements(rows) - {"r"}) == []
    ensures var once := TokensAfter(encode, map[], "r", [Entry(Some("t"), Some("foo"))]);
            TokensAfter(encode, once, "r", []) == once == map[TokenKey("r", "t") := [7]]
  {
    var x := [Entry(Some("t"), Some("foo"))];
    assert x[..0] == [];
    hide TokenKey;
    assert ["r"][..0] == [];
  }

  lemma NoCell(before: Cells, after: Cells, resolve: Resolve)
    requires "r" !in before && Grown(before, after, "r", ItemOf(StoredEntries(resolve, [])))
    ensures Cell(after, "r", "t") == None
  {
    CellOfRecord(after, "r", "t");
    assert RecordOf(after, "r") == map[];
  }

  lemma IsPosted(src: Source, field: Field)
    requires src.fields == [field] && src.rows == ["r"] && src.tokens == map[TokenKey("r", "t") := [7]]
    requires field.searchable && field.name == "t"
    ensures Posting("t", "r", Tokens([7])) in src.Rebuild()
  {
    assert [field][..0] == [] && ["r"][..0] == [];
    hide TokenKey;
    assert RowPostings([field], src.cells, src.tokens, "r") == [] + Posted(field, src.cells, src.tokens, "r");
    assert Rebuilt([field], ["r"], src.cells, src.tokens) == [] + RowPostings([field], src.cells, src.tokens, "r");
  }
}
