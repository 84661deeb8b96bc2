/** Rows as maps from field name to value, and their flat `"row:field"` storage. */
module Records {
  import opened Text
  import opened Wrappers
  import opened OrderedKeys

  type Record = map<string, string>

  /** One slot of the parallel `names`/`values` arrays; either pointer may be NULL. */
  datatype Entry = Entry(name: Option<string>, value: Option<string>)

  function WriteEntry(r: Record, e: Entry): Record {
    if e.name.None? then r else r[e.name.value := e.value.GetOr("")]
  }

  /** The record a put of these entries writes into an empty row. */
  function ItemOf(entries: seq<Entry>): Record {
    if entries == [] then map[]
    else WriteEntry(ItemOf(entries[..|entries| - 1]), entries[|entries| - 1])
  }

  function Comp(row: string, field: string): string {
    row + ":" + field
  }

  predicate IsFieldOf(k: string, row: string) {
    row + ":" <= k
  }

  function FieldPart(k: string, row: string): string
    requires IsFieldOf(k, row)
  {
    k[|row| + 1..]
  }

  lemma CompParts(row: string, field: string)
    ensures IsFieldOf(Comp(row, field), row) && Comp(row, field)[|row| + 1..] == field
  {
  }

  /** Neither row id goes on with a colon after the other. */
  predicate Apart(row: string, row': string) {
    !(row + ":" <= row') && !(row' + ":" <= row)
  }

  /** Rows no field of which is stored under one key: any two of a map of records, and those of a
      flat map that are apart. */
  predicate Aside(record: bool, row: string, row': string) {
    row != row' && (record || Apart(row, row'))
  }

  lemma CompInjective(row: string, field: string, row': string, field': string)
    requires Apart(row, row')
    ensures Comp(row, field) == Comp(row', field') <==> row == row' && field == field'
    ensures IsFieldOf(Comp(row, field), row') <==> row == row'
  {
    CompParts(row, field);
    CompParts(row', field');
    if IsFieldOf(Comp(row, field), row') {
      ClashingPrefixes(row, row', Comp(row, field));
    }
  }

  lemma ClashingPrefixes(row: string, row': string, k: string)
    requires row + ":" <= k && row' + ":" <= k
    ensures row == row' || !Apart(row, row')
  {
    assert k[..|row|] == row && k[..|row'|] == row';
    if |row'| < |row| {
      assert row' + ":" == k[..|row'| + 1] == row[..|row'| + 1];
    } else if |row| < |row'| {
      assert row + ":" == k[..|row| + 1] == row'[..|row| + 1];
    }
  }

  lemma FieldOfComp(k: string, row: string)
    requires IsFieldOf(k, row)
    ensures k == Comp(row, FieldPart(k, row))
  {
  }

  /** Two rows can share a flat key exactly when one goes on with a colon after the other. */
  lemma FlatKeysCollideIff(row: string, row': string)
    requires row != row'
    ensures (exists f, g :: Comp(row, f) == Comp(row', g)) <==> !Apart(row, row')
  {
    if row + ":" <= row' {
      assert Comp(row, Comp(row', "")[|row| + 1..]) == Comp(row', "");
    } else if row' + ":" <= row {
      assert Comp(row', Comp(row, "")[|row'| + 1..]) == Comp(row, "");
    } else {
      forall f, g ensures Comp(row, f) != Comp(row', g) {
        CompInjective(row, f, row', g);
      }
    }
  }

  /** The fields a flat map holds for a row. */
  ghost function FieldsOf(flat: map<string, string>, row: string): (r: Record)
    ensures forall f :: f in r <==> Comp(row, f) in flat
    ensures forall f :: f in r ==> r[f] == flat[Comp(row, f)]
  {
    var fields := set k | k in flat && IsFieldOf(k, row) :: k[|row| + 1..];
    assert forall k :: k in flat && IsFieldOf(k, row) ==> k == Comp(row, k[|row| + 1..]);
    assert forall f {:trigger Comp(row, f)} :: Comp(row, f)[|row| + 1..] == f;
    map f | f in fields :: flat[Comp(row, f)]
  }

  /** `fields_hd`: a map of records, or a flat map of `"row:field"` entries. */
  datatype Store = RecordMap(recs: map<string, Record>) | PlainMap(flat: map<string, string>) {

    ghost function Read(row: string): Record {
      match this
      case RecordMap(recs) => if row in recs then recs[row] else map[]
      case PlainMap(flat) => FieldsOf(flat, row)
    }

    /** `corm_put` under `"row:field"`. */
    function Write(row: string, field: string, value: string): (t: Store)
      ensures t.RecordMap? <==> RecordMap?
    {
      match this
      case RecordMap(recs) => RecordMap(recs[row := (if row in recs then recs[row] else map[])[field := value]])
      case PlainMap(flat) => PlainMap(flat[Comp(row, field) := value])
    }

    /** `corm_del` under the row id itself. */
    function Delete(row: string): (t: Store)
      ensures t.RecordMap? <==> RecordMap?
    {
      match this
      case RecordMap(recs) => RecordMap(recs - {row})
      case PlainMap(flat) => PlainMap(flat - {row})
    }

    /** Every flat key is a row of `owner`, a colon, and a name of at most 127 bytes. */
    ghost predicate WellKeyed(owner: set<string>, rows: set<string>) {
      match this
      case RecordMap(recs) => recs.Keys <= rows
      case PlainMap(flat) => forall k :: k in flat ==> FlatKey(owner, k)
    }
  }

  /** A field of some position of a partition in `owner`. */
  ghost predicate FlatKey(owner: set<string>, k: string) {
    exists p, i: nat, f :: k == Comp(Key(p, i), f) && p in owner && |f| < 128
  }

  /** What a delete leaves behind: nothing of a record, all of a plain row. */
  function Kept(record: bool, c: Record): Record {
    if record then map[] else c
  }

  lemma ReadAfterWrite(s: Store, row: string, field: string, value: string)
    ensures s.Write(row, field, value).Read(row) == s.Read(row)[field := value]
    ensures forall r :: Aside(s.RecordMap?, row, r) ==> s.Write(row, field, value).Read(r) == s.Read(r)
  {
    ApartSelf(row);
    if s.PlainMap? {
      forall r | Apart(row, r)
        ensures s.Write(row, field, value).Read(r) == if r == row then s.Read(r)[field := value] else s.Read(r)
      {
        PlainWrite(s.flat, row, field, value, r);
      }
    }
  }

  lemma ApartSelf(row: string)
    ensures Apart(row, row)
  {
  }

  lemma PlainWrite(flat: map<string, string>, row: string, field: string, value: string, r: string)
    requires Apart(row, r)
    ensures FieldsOf(flat[Comp(row, field) := value], r)
            == if r == row then FieldsOf(flat, r)[field := value] else FieldsOf(flat, r)
  {
    forall f ensures Comp(r, f) == Comp(row, field) <==> r == row && f == field {
      CompInjective(r, f, row, field);
    }
  }

  /** A row id that no row of `owner` goes on to after a colon. */
  ghost predicate ApartFrom(owner: set<string>, row: string) {
    forall p, i: nat :: p in owner ==> Apart(Key(p, i), row)
  }

  lemma NoFlatKey(owner: set<string>, row: string)
    requires ApartFrom(owner, row)
    ensures !FlatKey(owner, row)
  {
    forall p, i: nat, f | p in owner ensures row != Comp(Key(p, i), f) {
      assert Key(p, i) + ":" <= Comp(Key(p, i), f);
    }
  }

  lemma AFlatKey(owner: set<string>, p: string, i: nat, f: string)
    requires p in owner && |f| < 128
    ensures FlatKey(owner, Comp(Key(p, i), f))
  {
    hide Key;
  }

  lemma DeleteRecord(s: Store, row: string, owner: set<string>, rows: set<string>)
    requires s.RecordMap? && s.WellKeyed(owner, rows)
    ensures s.Delete(row).Read(row) == map[] && s.Delete(row).WellKeyed(owner, rows - {row})
    ensures forall r :: r != row ==> s.Delete(row).Read(r) == s.Read(r)
  {
  }

  lemma DeleteFlat(s: Store, row: string, owner: set<string>, rows: set<string>)
    requires s.PlainMap? && s.WellKeyed(owner, rows) && ApartFrom(owner, row)
    ensures s.Delete(row) == s && s.WellKeyed(owner, rows - {row})
  {
    hide FlatKey, ApartFrom;
    NoFlatKey(owner, row);
    assert s.Delete(row).flat == s.flat;
  }

  lemma ReadAfterDelete(s: Store, row: string, owner: set<string>, rows: set<string>)
    requires s.WellKeyed(owner, rows) && (s.PlainMap? ==> ApartFrom(owner, row))
    ensures s.Delete(row).Read(row) == Kept(s.RecordMap?, s.Read(row))
    ensures forall r :: r != row ==> s.Delete(row).Read(r) == s.Read(r)
    ensures s.Delete(row).WellKeyed(owner, rows - {row})
  {
    hide Store.Read, Store.Delete, Store.WellKeyed, ApartFrom;
    if s.PlainMap? {
      DeleteFlat(s, row, owner, rows);
    } else {
      DeleteRecord(s, row, owner, rows);
    }
  }

  lemma WriteKeepsKeys(s: Store, owner: set<string>, rows: set<string>, p: string, i: nat, field: string, value: string)
    requires s.WellKeyed(owner, rows) && Key(p, i) in rows && p in owner && (s.PlainMap? ==> |field| < 128)
    ensures s.Write(Key(p, i), field, value).WellKeyed(owner, rows)
  {
    hide Key, FlatKey;
    if s.PlainMap? {
      AFlatKey(owner, p, i, field);
    }
  }

  // ---- token streams -------------------------------------------------------

  const KEY_SIZE := 1024

  type TokenMap = map<string, seq<nat>>

  /** `lemma_tok_encode`. */
  type Encode = string -> Option<seq<nat>>

  /** `snprintf` of `"row:field"` into a 1024-byte key. */
  function TokenKey(row: string, field: string): string {
    var key := Comp(row, field);
    key[..Min(|key|, KEY_SIZE - 1)]
  }

  lemma TokenKeyIs(row: string, field: string)
    ensures |row| + |field| <= 1022 ==> TokenKey(row, field) == row + ":" + field
    ensures |row| + |field| > 1022 ==> |TokenKey(row, field)| == 1023 && TokenKey(row, field) <= row + ":" + field
  {
  }

  /** One entry of a put: a text that does not encode leaves the old stream. */
  function CodeEntry(encode: Encode, tokens: TokenMap, row: string, e: Entry): TokenMap {
    if e.name.Some? && e.value.Some? && encode(e.value.value).Some?
    then tokens[TokenKey(row, e.name.value) := encode(e.value.value).value] else tokens
  }

  /** The token streams after a put. */
  function TokensAfter(encode: Encode, tokens: TokenMap, row: string, entries: seq<Entry>): TokenMap {
    if entries == [] then tokens
    else CodeEntry(encode, TokensAfter(encode, tokens, row, entries[..|entries| - 1]), row, entries[|entries| - 1])
  }

  lemma TokensStep(encode: Encode, tokens: TokenMap, row: string, entries: seq<Entry>, i: nat)
    requires i < |entries|
    ensures TokensAfter(encode, tokens, row, entries[..i + 1])
            == CodeEntry(encode, TokensAfter(encode, tokens, row, entries[..i]), row, entries[i])
    ensures TokensAfter(encode, tokens, row, []) == tokens
  {
    assert entries[..i + 1][..i] == entries[..i];
  }

  /** The tokens of the last of these texts put for a field that encodes. */
  function LastCode(encode: Encode, entries: seq<Entry>, field: string): Option<seq<nat>> {
    if entries == [] then None
    else
      var e := entries[|entries| - 1];
      if e.name == Some(field) && e.value.Some? && encode(e.value.value).Some? then encode(e.value.value)
      else LastCode(encode, entries[..|entries| - 1], field)
  }

  /** Keys that fit the token buffer. */
  predicate PlainEntries(row: string, entries: seq<Entry>) {
    forall e :: e in entries && e.name.Some? ==> |Comp(row, e.name.value)| < KEY_SIZE
  }

  /** A put changes the stream of a field of its row only if a text for it encodes. */
  lemma {:induction false} CodedEntries(encode: Encode, tokens: TokenMap, r: string, entries: seq<Entry>, row: string,
                                        field: string)
    requires Apart(r, row) && PlainEntries(r, entries) && |Comp(row, field)| < KEY_SIZE
    ensures var (key, out) := (TokenKey(row, field), TokensAfter(encode, tokens, r, entries));
            var code := LastCode(encode, entries, field);
            if r == row && code.Some? then key in out && out[key] == code.value
            else (key in out <==> key in tokens) && (key in tokens ==> out[key] == tokens[key])
  {
    if entries != [] {
      var front, e := entries[..|entries| - 1], entries[|entries| - 1];
      assert entries == front + [e];
      CodedEntries(encode, tokens, r, front, row, field);
      assert e.name.Some? ==> TokenKey(r, e.name.value) == Comp(r, e.name.value);
      if e.name.Some? {
        CompInjective(r, e.name.value, row, field);
      }
      hide Comp, Apart, PlainEntries;
    }
  }

  /** Field names that keep `"key:field"` inside its 256-byte buffer. */
  predicate ShortNames(entries: seq<Entry>) {
    forall e :: e in entries && e.name.Some? ==> |e.name.value| < 128
  }

  /** The field writes of `hyle_registry_put`. */
  method PutFields(fields: Store, row: string, entries: seq<Entry>, tokens: TokenMap, encode: Encode,
                   ghost owner: set<string>, ghost rows: set<string>, ghost p: string, ghost at: nat)
    returns (out: Store, code: TokenMap)
    requires fields.WellKeyed(owner, rows) && (fields.PlainMap? ==> ShortNames(entries))
    requires row == Key(p, at) && row in rows && p in owner
    ensures out.WellKeyed(owner, rows) && out.RecordMap? == fields.RecordMap?
    ensures out.Read(row) == fields.Read(row) + ItemOf(entries)
    ensures forall r :: Aside(fields.RecordMap?, row, r) ==> out.Read(r) == fields.Read(r)
    ensures code == TokensAfter(encode, tokens, row, entries)
  {
    out, code := fields, tokens;
    hide *;
    PutStart(entries, encode, tokens, row, fields.Read(row));
    for i := 0 to |entries|
      invariant out.WellKeyed(owner, rows) && out.RecordMap? == fields.RecordMap?
      invariant out.Read(row) == fields.Read(row) + ItemOf(entries[..i])
      invariant forall r :: Aside(fields.RecordMap?, row, r) ==> out.Read(r) == fields.Read(r)
      invariant code == TokensAfter(encode, tokens, row, entries[..i])
    {
      TokensStep(encode, tokens, row, entries, i);
      code := CodeEntry(encode, code, row, entries[i]);
      ItemStep(entries, i, fields.Read(row));
      if entries[i].name.Some? {
        var name := entries[i].name.value;
        var value := if entries[i].value.Some? then entries[i].value.value else "";
        if out.PlainMap? {
          ShortName(entries, i);
        }
        ReadAfterWrite(out, row, name, value);
        WriteKeepsKeys(out, owner, rows, p, at, name, value);
        out := out.Write(row, name, value);
      }
    }
  }

  lemma PutStart(entries: seq<Entry>, encode: Encode, tokens: TokenMap, row: string, c: Record)
    ensures TokensAfter(encode, tokens, row, entries[..0]) == tokens && c + ItemOf(entries[..0]) == c
    ensures entries[..|entries|] == entries
  {
  }

  lemma ItemStep(entries: seq<Entry>, i: nat, c: Record)
    requires i < |entries|
    ensures c + ItemOf(entries[..i + 1]) == WriteEntry(c + ItemOf(entries[..i]), entries[i])
    ensures WriteEntry(c + ItemOf(entries[..i]), entries[i])
            == match entries[i]
               case Entry(None, _) => c + ItemOf(entries[..i])
               case Entry(Some(n), None) => (c + ItemOf(entries[..i]))[n := ""]
               case Entry(Some(n), Some(v)) => (c + ItemOf(entries[..i]))[n := v]
  {
    assert entries[..i + 1][..i] == entries[..i];
  }

  lemma ShortName(entries: seq<Entry>, i: nat)
    requires ShortNames(entries) && i < |entries| && entries[i].name.Some?
    ensures |entries[i].name.value| < 128
  {
    assert entries[i] in entries;
  }

  // ---- the rename loop of a plain-map move --------------------------------

  /** With `todo` still to visit: `to` holds its old fields overlaid with the visited ones of
      `from`, and nothing else has changed. */
  ghost predicate Renaming(flat: map<string, string>, out: map<string, string>, todo: set<string>,
                           from: string, to: string)
  {
    && (forall k :: !IsFieldOf(k, to) ==> (k in out <==> k in flat) && (k in flat ==> out[k] == flat[k]))
    && (forall f {:trigger Comp(to, f)} :: Copied(flat, out, todo, from, to, f))
  }

  ghost predicate Copied(flat: map<string, string>, out: map<string, string>, todo: set<string>,
                         from: string, to: string, f: string)
  {
    var a, b := Comp(from, f), Comp(to, f);
    if a in flat && a !in todo then b in out && out[b] == flat[a]
    else (b in out <==> b in flat) && (b in flat ==> out[b] == flat[b])
  }

  lemma RenameStep(flat: map<string, string>, out: map<string, string>, todo: set<string>,
                   from: string, to: string, k: string)
    requires Apart(from, to) && from != to
    requires Renaming(flat, out, todo, from, to) && k in todo && k in out && IsFieldOf(k, from)
    ensures var nk := Comp(to, FieldPart(k, from));
            Renaming(flat, out[nk := out[k]], todo - {k}, from, to) && !IsFieldOf(nk, from)
  {
    var f := k[|from| + 1..];
    assert k == Comp(from, f);
    ApartSelf(from);
    ApartSelf(to);
    CompInjective(from, f, to, f);
    CompParts(to, f);
    CompInjective(to, f, from, f);
    var out' := out[Comp(to, f) := out[k]];
    forall g ensures Copied(flat, out', todo - {k}, from, to, g) {
      CompInjective(to, g, to, f);
      CompInjective(from, g, from, f);
      assert Copied(flat, out, todo, from, to, g);
    }
  }

  lemma RenameSkip(flat: map<string, string>, out: map<string, string>, todo: set<string>,
                   from: string, to: string, k: string)
    requires Renaming(flat, out, todo, from, to) && !IsFieldOf(k, from)
    ensures Renaming(flat, out, todo - {k}, from, to)
  {
    forall f ensures Copied(flat, out, todo - {k}, from, to, f) {
      CompParts(from, f);
      assert Copied(flat, out, todo, from, to, f);
    }
  }

  lemma RenameStart(flat: map<string, string>, from: string, to: string)
    ensures Renaming(flat, flat, flat.Keys, from, to)
  {
    forall f ensures Copied(flat, flat, flat.Keys, from, to, f) {
    }
  }

  lemma RenamedTarget(flat: map<string, string>, out: map<string, string>, from: string, to: string)
    requires Renaming(flat, out, {}, from, to)
    ensures FieldsOf(out, to) == FieldsOf(flat, to) + FieldsOf(flat, from)
  {
    hide Comp, IsFieldOf, FieldsOf;
    forall f
      ensures f in FieldsOf(out, to) <==> f in FieldsOf(flat, to) || f in FieldsOf(flat, from)
      ensures f in FieldsOf(out, to) ==>
                FieldsOf(out, to)[f] == (FieldsOf(flat, to) + FieldsOf(flat, from))[f]
    {
      assert Copied(flat, out, {}, from, to, f);
    }
  }

  lemma RenamedOther(flat: map<string, string>, out: map<string, string>, from: string, to: string, r: string)
    requires Renaming(flat, out, {}, from, to) && Apart(r, to) && r != to
    ensures FieldsOf(out, r) == FieldsOf(flat, r)
  {
    forall f
      ensures f in FieldsOf(out, r) <==> f in FieldsOf(flat, r)
      ensures f in FieldsOf(out, r) ==> FieldsOf(out, r)[f] == FieldsOf(flat, r)[f]
    {
      CompInjective(r, f, to, f);
      assert !IsFieldOf(Comp(r, f), to);
    }
  }

  lemma RenamedKeys(owner: set<string>, flat: map<string, string>, out: map<string, string>,
                    todo: set<string>, p: string, i: nat, j: nat)
    requires p in owner && ApartFrom(owner, Key(p, i))
    requires Renaming(flat, out, todo, Key(p, i), Key(p, j)) && PlainMap(flat).WellKeyed(owner, {})
    ensures PlainMap(out).WellKeyed(owner, {})
  {
    hide Key, FlatKey, ApartFrom;
    var from, to := Key(p, i), Key(p, j);
    forall k | k in out ensures FlatKey(owner, k) {
      if IsFieldOf(k, to) && k !in flat {
        var f := k[|to| + 1..];
        assert k == Comp(to, f) && Copied(flat, out, todo, from, to, f);
        assert FlatKey(owner, Comp(from, f));
        FieldShort(owner, p, i, f);
        AFlatKey(owner, p, j, f);
      }
    }
  }

  /** A flat key under a row has a short field name. */
  lemma FieldShort(owner: set<string>, p: string, i: nat, f: string)
    requires ApartFrom(owner, Key(p, i)) && FlatKey(owner, Comp(Key(p, i), f))
    ensures |f| < 128
  {
    hide Key;
    var q, j: nat, g :| Comp(Key(p, i), f) == Comp(Key(q, j), g) && q in owner && |g| < 128;
    CompInjective(Key(q, j), g, Key(p, i), f);
  }

  /** Every `from:f` is copied to `to:f`, in a 256-byte buffer.  The map is written while it is
      iterated, so an entry just added may or may not be visited. */
  method RenameFields(flat: map<string, string>, from: string, to: string, ghost owner: set<string>,
                      ghost p: string, ghost i: nat, ghost j: nat)
    returns (out: map<string, string>)
    requires from == Key(p, i) && to == Key(p, j) && p in owner && ApartFrom(owner, from)
    requires Apart(from, to) && from != to && |to| < KEY_BUFFER
    requires PlainMap(flat).WellKeyed(owner, {})
    ensures PlainMap(out).WellKeyed(owner, {})
    ensures FieldsOf(out, to) == FieldsOf(flat, to) + FieldsOf(flat, from)
    ensures forall r :: Apart(r, to) && r != to ==> FieldsOf(out, r) == FieldsOf(flat, r)
  {
    out := flat;
    RenameStart(flat, from, to);
    var todo := flat.Keys;
    hide *;
    while todo != {}
      invariant todo <= out.Keys && Renaming(flat, out, todo, from, to)
      decreases OldFields(todo, from), |todo|
    {
      var k :| k in todo;
      OldFieldsShrink(todo, from, k);
      if IsFieldOf(k, from) {
        RenameStep(flat, out, todo, from, to, k);
        RenameBuffer(flat, out, todo, owner, k, p, i, j);
        var nk := Comp(to, FieldPart(k, from));
        assert |nk| < 256;
        out := out[nk := out[k]];
        todo := todo - {k};
        if * {
          RenameRevisit(flat, out, todo, from, to, nk);
          todo := todo + {nk};
        }
      } else {
        RenameSkip(flat, out, todo, from, to, k);
        todo := todo - {k};
      }
    }
    RenamedKeys(owner, flat, out, {}, p, i, j);
    RenamedTarget(flat, out, from, to);
    forall r | Apart(r, to) && r != to ensures FieldsOf(out, r) == FieldsOf(flat, r) {
      RenamedOther(flat, out, from, to, r);
    }
  }

  ghost function OldFields(todo: set<string>, from: string): set<string> {
    set k | k in todo && IsFieldOf(k, from)
  }

  lemma OldFieldsShrink(todo: set<string>, from: string, k: string)
    requires k in todo
    ensures IsFieldOf(k, from) ==> OldFields(todo - {k}, from) < OldFields(todo, from)
    ensures forall nk :: IsFieldOf(k, from) && !IsFieldOf(nk, from) ==>
              OldFields(todo - {k} + {nk}, from) < OldFields(todo, from)
    ensures !IsFieldOf(k, from) ==> OldFields(todo - {k}, from) == OldFields(todo, from)
  {
    assert IsFieldOf(k, from) ==> k in OldFields(todo, from);
  }

  lemma RenameBuffer(flat: map<string, string>, out: map<string, string>, todo: set<string>,
                     owner: set<string>, k: string, p: string, i: nat, j: nat)
    requires p in owner && ApartFrom(owner, Key(p, i)) && |Key(p, j)| < KEY_BUFFER
    requires Renaming(flat, out, todo, Key(p, i), Key(p, j)) && PlainMap(flat).WellKeyed(owner, {})
    requires k in out && IsFieldOf(k, Key(p, i))
    ensures |Comp(Key(p, j), FieldPart(k, Key(p, i)))| < 256
  {
    RenamedKeys(owner, flat, out, todo, p, i, j);
    assert FlatKey(owner, k);
    hide Key, FlatKey, ApartFrom, Renaming, IsFieldOf, FieldPart, Store.WellKeyed;
    FieldOfComp(k, Key(p, i));
    FieldShort(owner, p, i, FieldPart(k, Key(p, i)));
  }

  lemma RenameRevisit(flat: map<string, string>, out: map<string, string>, todo: set<string>,
                      from: string, to: string, nk: string)
    requires Renaming(flat, out, todo, from, to) && !IsFieldOf(nk, from)
    ensures Renaming(flat, out, todo + {nk}, from, to)
  {
    forall f ensures Copied(flat, out, todo + {nk}, from, to, f) {
      CompParts(from, f);
      assert Copied(flat, out, todo, from, to, f);
    }
  }
}
