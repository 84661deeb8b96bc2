/** What values display as, said of the values alone. */
module DisplayLaws {
  import opened Text
  import opened Wrappers
  import opened Blueprint

  // ---- texts of values ---------------------------------------------------------------------

  /** The text is the parts with the separator between them. */
  ghost predicate Chain(parts: seq<string>, sep: string, text: string) {
    if parts == [] then text == ""
    else if |parts| == 1 then text == parts[0]
    else
      var last := parts[|parts| - 1];
      exists front :: Chain(parts[..|parts| - 1], sep, front) && text == front + sep + last
  }

  /** Two hexadecimal digits a byte. */
  predicate Hexadecimal(bytes: seq<nat>, text: string) {
    |text| == 2 * |bytes| && forall i :: 0 <= i < |bytes| ==> HexPair(bytes[i], text[2 * i], text[2 * i + 1])
  }

  predicate HexPair(b: nat, x: char, y: char) {
    b % 256 == 16 * Hex(x) + Hex(y) && Hex(x) >= 0 && Hex(y) >= 0 && !('A' <= x <= 'Z') && !('A' <= y <= 'Z')
  }

  /** How a value is written. */
  ghost predicate Written(v: Value, text: string)
    decreases v
  {
    match v
    case Null => text == ""
    case Bool(b) => text == if b then "true" else "false"
    case Int(i) => Denotes(text, i)
    case Float(t) => text == t
    case String(s) => text == s
    case Bytes(bytes) => Hexadecimal(bytes, text)
    case List(items) =>
      exists parts: seq<string> ::
        |parts| == |items| && Chain(parts, ", ", text) && forall i :: 0 <= i < |items| ==> Written(items[i], parts[i])
    case Map(entries) =>
      exists parts: seq<string>, inner ::
        && |parts| == |entries| && Chain(parts, ", ", inner) && text == "{" + inner + "}"
        && forall i :: 0 <= i < |entries| ==>
             entries[i].key + "=" <= parts[i] && Written(entries[i].value, parts[i][|entries[i].key| + 1..])
  }

  lemma {:induction false} JoinSnoc(parts: seq<string>, sep: string)
    requires |parts| > 1
    ensures Join(parts, sep) == Join(parts[..|parts| - 1], sep) + sep + parts[|parts| - 1]
  {
    var n := |parts| - 1;
    assert parts[1..][..n - 1] == parts[..n][1..];
    if n > 1 {
      JoinSnoc(parts[1..], sep);
      var a, b, c := parts[0] + sep, Join(parts[..n][1..], sep), sep + parts[n];
      assert a + (b + c) == (a + b) + c;
    }
  }

  lemma {:induction false} JoinChains(parts: seq<string>, sep: string)
    ensures Chain(parts, sep, Join(parts, sep))
  {
    if |parts| > 1 {
      JoinChains(parts[..|parts| - 1], sep);
      JoinSnoc(parts, sep);
    }
  }

  lemma HexByteIs(b: nat)
    ensures |HexByte(b)| == 2 && HexPair(b, HexByte(b)[0], HexByte(b)[1])
  {
    assert b % 256 == 16 * (b / 16 % 16) + b % 16;
  }

  lemma {:induction false} HexTextIs(bytes: seq<nat>)
    ensures Hexadecimal(bytes, HexText(bytes))
  {
    hide HexPair, HexByte;
    if bytes != [] {
      HexTextIs(bytes[1..]);
      HexByteIs(bytes[0]);
      HexJoin(bytes, HexByte(bytes[0]), HexText(bytes[1..]));
    }
  }

  lemma HexJoin(bytes: seq<nat>, first: string, rest: string)
    requires bytes != [] && Hexadecimal(bytes[1..], rest)
    requires |first| == 2 && HexPair(bytes[0], first[0], first[1])
    ensures Hexadecimal(bytes, first + rest)
  {
    hide HexPair;
    var text := first + rest;
    forall i | 0 <= i < |bytes| ensures HexPair(bytes[i], text[2 * i], text[2 * i + 1]) {
      if i > 0 {
        assert HexPair(bytes[1..][i - 1], rest[2 * (i - 1)], rest[2 * (i - 1) + 1]);
        assert text[2 * i] == rest[2 * i - 2] && text[2 * i + 1] == rest[2 * i - 1];
      }
    }
  }

  lemma {:induction false} TextIsWritten(v: Value)
    ensures Written(v, DisplayText(v))
    decreases v, 0
  {
    match v
    case Int(i) => IntTextDenotes(i);
    case Bytes(bytes) => HexTextIs(bytes);
    case List(items) =>
      ItemsWritten(items);
      JoinChains(ItemTexts(items), ", ");
    case Map(entries) =>
      EntriesWritten(entries);
      JoinChains(EntryTexts(entries), ", ");
    case _ =>
  }

  lemma {:induction false} ItemsWritten(items: seq<Value>)
    ensures |ItemTexts(items)| == |items|
    ensures forall i :: 0 <= i < |items| ==> Written(items[i], ItemTexts(items)[i])
    decreases items, 1
  {
    if items != [] {
      TextIsWritten(items[0]);
      ItemsWritten(items[1..]);
      assert forall i :: 1 <= i < |items| ==> items[i] == items[1..][i - 1];
      hide Written;
    }
  }

  lemma {:induction false} EntriesWritten(entries: seq<MapEntry>)
    ensures |EntryTexts(entries)| == |entries|
    ensures forall i :: 0 <= i < |entries| ==>
              && entries[i].key + "=" <= EntryTexts(entries)[i]
              && Written(entries[i].value, EntryTexts(entries)[i][|entries[i].key| + 1..])
    decreases entries, 1
  {
    if entries != [] {
      TextIsWritten(entries[0].value);
      EntriesWritten(entries[1..]);
      assert forall i :: 1 <= i < |entries| ==> entries[i] == entries[1..][i - 1];
      var key, text := entries[0].key, DisplayText(entries[0].value);
      assert EntryTexts(entries)[0] == key + "=" + text;
      assert (key + "=" + text)[|key| + 1..] == text;
      hide Written, DisplayText;
    }
  }

  // ---- values of a type --------------------------------------------------------------------

  /** The key that a value names a row by. */
  ghost predicate Names(v: Value, key: string) {
    match v
    case String(s) => key == s
    case Int(i) => Denotes(key, i)
    case Float(t) => key == t
    case _ => false
  }

  lemma NamesIff(v: Value, key: string)
    ensures Names(v, key) <==> LookupKey(v) == Some(key)
  {
    if v.Int? {
      DenotesIs(key, v.i);
    }
    hide Denotes, IntText;
  }

  /** The first entry of the key. */
  ghost predicate HasEntry(entries: seq<MapEntry>, key: string, v: Value) {
    exists i :: 0 <= i < |entries| && entries[i] == MapEntry(key, v) && forall j :: 0 <= j < i ==> entries[j].key != key
  }

  lemma {:induction false} EntryIff(entries: seq<MapEntry>, key: string, v: Value)
    ensures HasEntry(entries, key, v) <==> GetEntry(entries, key) == Some(v)
  {
    if entries != [] {
      EntryIff(entries[1..], key, v);
      assert forall i :: 1 <= i < |entries| ==> entries[i] == entries[1..][i - 1];
      if entries[0].key != key {
        if i :| 0 <= i < |entries[1..]| && entries[1..][i] == MapEntry(key, v)
                && forall j :: 0 <= j < i ==> entries[1..][j].key != key {
          assert entries[i + 1] == MapEntry(key, v);
          assert forall j :: 0 <= j < i + 1 ==> entries[j].key != key;
        }
        if i :| 0 <= i < |entries| && entries[i] == MapEntry(key, v)
                && forall j :: 0 <= j < i ==> entries[j].key != key {
          assert entries[1..][i - 1] == MapEntry(key, v);
        }
      }
    }
  }

  /** A row was fetched for what the value names, and it has the display field. */
  ghost predicate Fetched(lookups: Lookups, entity: string, display: string, v: Value, shown: Value) {
    exists key :: Names(v, key) && entity in lookups && key in lookups[entity] && display in lookups[entity][key]
                  && lookups[entity][key][display] == shown
  }

  /** How a value of a type is shown. */
  ghost predicate Shown(lookups: Lookups, t: FieldType, v: Value, text: string)
    decreases t, 0, 0
  {
    match t
    case Reference(entity, display) =>
      if exists shown :: Fetched(lookups, entity, display, v, shown)
      then exists shown :: Fetched(lookups, entity, display, v, shown) && Written(shown, text) else Written(v, text)
    case Primitive(prim) =>
      if prim == BooleanType && v.Bool? then text == (if v.b then "Yes" else "No") else Written(v, text)
    case Array(item) =>
      if v.List? then
        exists parts: seq<string> ::
          |parts| == |v.items| && Chain(parts, ", ", text) && forall i :: 0 <= i < |parts| ==>
            Shown(lookups, item, v.items[i], parts[i])
      else Written(v, text)
    case Shape(fields) =>
      if v.Map? then exists parts :: Chain(parts, "; ", text) && ShapeShown(lookups, fields, v.entries, parts)
      else Written(v, text)
  }

  /** The parts of a shape: `title: text` of each field that has an entry which is not null. */
  ghost predicate ShapeShown(lookups: Lookups, fields: seq<ShapeField>, entries: seq<MapEntry>, parts: seq<string>)
    decreases fields, 1, 0
  {
    if fields == [] then parts == []
    else if exists v :: HasEntry(entries, fields[0].name, v) && v != Null then
      parts != [] && ShapeShown(lookups, fields[1..], entries, parts[1..])
      && exists v, text :: HasEntry(entries, fields[0].name, v) && Shown(lookups, fields[0].fieldType, v, text)
           && parts[0] == fields[0].title + ": " + text
    else ShapeShown(lookups, fields[1..], entries, parts)
  }

  lemma FetchedIff(lookups: Lookups, entity: string, display: string, v: Value)
    ensures forall shown :: Fetched(lookups, entity, display, v, shown)
              <==> Related(lookups, entity, v).Some? && display in Related(lookups, entity, v).value
                   && shown == Related(lookups, entity, v).value[display]
  {
    forall key ensures Names(v, key) <==> LookupKey(v) == Some(key) {
      NamesIff(v, key);
    }
    hide Names, LookupKey;
  }

  /** What is displayed is this. */
  lemma {:induction false} TypeIsShown(lookups: Lookups, t: FieldType, v: Value)
    ensures Shown(lookups, t, v, DisplayForType(lookups, t, v))
    decreases t, 0, 0
  {
    TextIsWritten(v);
    hide Written, DisplayText;
    match t
    case Reference(entity, display) => ReferenceIsShown(lookups, entity, display, v);
    case Primitive(prim) =>
    case Array(item) =>
      if v.List? {
        ListIsShown(lookups, item, v.items);
        JoinChains(DisplayItems(lookups, item, v.items), ", ");
      }
    case Shape(fields) =>
      if v.Map? {
        ShapeIsShown(lookups, fields, v.entries);
        JoinChains(DisplayShape(lookups, fields, v.entries), "; ");
      }
  }

  lemma ReferenceIsShown(lookups: Lookups, entity: string, display: string, v: Value)
    ensures Shown(lookups, Reference(entity, display), v, DisplayForType(lookups, Reference(entity, display), v))
  {
    FetchedIff(lookups, entity, display, v);
    TextIsWritten(v);
    var row := Related(lookups, entity, v);
    if row.Some? && display in row.value {
      TextIsWritten(row.value[display]);
      assert Fetched(lookups, entity, display, v, row.value[display]);
    }
    hide Written, DisplayText, Fetched, Related;
  }

  lemma {:induction false} ListIsShown(lookups: Lookups, item: FieldType, vs: seq<Value>)
    ensures |DisplayItems(lookups, item, vs)| == |vs|
    ensures forall i :: 0 <= i < |vs| ==> Shown(lookups, item, vs[i], DisplayItems(lookups, item, vs)[i])
    decreases item, 1, |vs|
  {
    if vs != [] {
      TypeIsShown(lookups, item, vs[0]);
      ListIsShown(lookups, item, vs[1..]);
      assert forall i :: 1 <= i < |vs| ==> vs[i] == vs[1..][i - 1];
      hide Shown, DisplayForType;
    }
  }

  lemma {:induction false} ShapeIsShown(lookups: Lookups, fields: seq<ShapeField>, entries: seq<MapEntry>)
    ensures ShapeShown(lookups, fields, entries, DisplayShape(lookups, fields, entries))
    decreases fields, 1, 0
  {
    if fields != [] {
      ShapeIsShown(lookups, fields[1..], entries);
      var f := fields[0];
      forall v ensures HasEntry(entries, f.name, v) <==> GetEntry(entries, f.name) == Some(v) {
        EntryIff(entries, f.name, v);
      }
      hide HasEntry, GetEntry;
      var v := GetEntry(entries, f.name);
      if v.Some? && v.value != Null {
        TypeIsShown(lookups, f.fieldType, v.value);
        hide Shown, DisplayForType;
        assert HasEntry(entries, f.name, v.value);
      }
    }
  }

  // ---- fields of a model ---------------------------------------------------------------------

  /** The first field of the name has the type. */
  ghost predicate HasField(fields: seq<ModelField>, name: string, t: FieldType) {
    exists i :: 0 <= i < |fields| && fields[i] == ModelField(name, t)
                && forall j :: 0 <= j < i ==> fields[j].name != name
  }

  lemma {:induction false} FieldIff(fields: seq<ModelField>, name: string, t: FieldType)
    ensures HasField(fields, name, t) <==> TypeOf(fields, name) == Some(t)
  {
    if fields != [] {
      FieldIff(fields[1..], name, t);
      assert forall i :: 1 <= i < |fields| ==> fields[i] == fields[1..][i - 1];
      if fields[0].name != name {
        if i :| 0 <= i < |fields[1..]| && fields[1..][i] == ModelField(name, t)
                && forall j :: 0 <= j < i ==> fields[1..][j].name != name {
          assert fields[i + 1] == ModelField(name, t);
          assert forall j :: 0 <= j < i + 1 ==> fields[j].name != name;
        }
        if i :| 0 <= i < |fields| && fields[i] == ModelField(name, t)
                && forall j :: 0 <= j < i ==> fields[j].name != name {
          assert fields[1..][i - 1] == ModelField(name, t);
        }
      }
    }
  }

  /** A value displays as its field's type shows it, null as nothing, and a value of no known field
      as it is written. */
  lemma ValueIsShown(models: Models, lookups: Lookups, model: string, field: string, v: Value)
    ensures var text := DisplayValue(models, lookups, model, field, v);
            && (v == Null ==> text == "")
            && (v != Null && model in models ==>
                  forall t :: HasField(models[model], field, t) ==> Shown(lookups, t, v, text))
            && (v != Null && (model !in models || forall t :: !HasField(models[model], field, t)) ==> Written(v, text))
  {
    TextIsWritten(v);
    if model in models {
      forall t ensures HasField(models[model], field, t) <==> TypeOf(models[model], field) == Some(t) {
        FieldIff(models[model], field, t);
      }
      if TypeOf(models[model], field).Some? {
        TypeIsShown(lookups, TypeOf(models[model], field).value, v);
      }
    }
    hide Shown, Written, DisplayForType, DisplayText, HasField, TypeOf;
  }

  // ---- labels ----------------------------------------------------------------------------------

  ghost predicate HasId(row: Row, key: string) {
    "id" in row && Names(row["id"], key)
  }

  /** The last row that the value names has the text s in its display field. */
  ghost predicate NamesRow(rows: seq<Row>, display: string, v: Value, s: string) {
    exists i, key ::
      && 0 <= i < |rows| && Names(v, key) && HasId(rows[i], key) && display in rows[i] && rows[i][display] == String(s)
      && forall j :: i < j < |rows| ==> !HasId(rows[j], key)
  }

  lemma HasIdIff(row: Row, key: string)
    ensures HasId(row, key) <==> RowKey(row) == Some(key)
  {
    if "id" in row {
      NamesIff(row["id"], key);
    }
    hide Names, LookupKey;
  }

  lemma NamedFetched(lookups: Lookups, rows: seq<Row>, entity: string, display: string, v: Value, s: string)
    requires entity in lookups && lookups[entity] == RowsById(rows) && NamesRow(rows, display, v, s)
    ensures Fetched(lookups, entity, display, v, String(s))
  {
    hide Names, RowsById, HasId, RowKey;
    var i, key :| 0 <= i < |rows| && Names(v, key) && HasId(rows[i], key) && display in rows[i]
                  && rows[i][display] == String(s) && forall j :: i < j < |rows| ==> !HasId(rows[j], key);
    forall row ensures HasId(row, key) <==> RowKey(row) == Some(key) {
      HasIdIff(row, key);
    }
    LastRowWins(rows, i);
  }

  /** Then a reference shows s. */
  lemma ShownLabel(lookups: Lookups, entity: string, display: string, v: Value, s: string, text: string)
    requires Fetched(lookups, entity, display, v, String(s)) && Shown(lookups, Reference(entity, display), v, text)
    ensures text == s
  {
    FetchedIff(lookups, entity, display, v);
    hide Fetched, Related;
  }

  /** With the planned lookups a used field shows the labels of the rows that its value names: as a
      reference, as an array of them, and inside a shape. */
  lemma PlannedLabels(models: Models, query: Query, m: Manifest, source: Source, o: Outcome, name: string, t: FieldType,
                      entity: string, display: string)
    requires Plan(models, query) == Ok(m) && Used(models[query.model], query, name)
    requires o.lookups == map e | e in source && (e in m.lookups || e in m.inlines) :: RowsById(source[e].Rows())
    requires entity in source && HasField(models[query.model], name, t) && Inside(t, Reference(entity, display))
    ensures var rows := source[entity].Rows();
            && (t == Reference(entity, display) ==> forall v, s :: NamesRow(rows, display, v, s) ==>
                  DisplayValue(models, o.lookups, m.base, name, v) == s)
            && (t == Array(Reference(entity, display)) ==>
                  forall vs: seq<Value>, ss: seq<string> ::
                    |vs| == |ss| && (forall k :: 0 <= k < |vs| ==> NamesRow(rows, display, vs[k], ss[k])) ==>
                      Chain(ss, ", ", DisplayValue(models, o.lookups, m.base, name, List(vs))))
            && (t.Shape? ==> forall f: ShapeField, entries: seq<MapEntry>, v, s ::
                  f in t.fields && f.fieldType == Reference(entity, display) && NamesRow(rows, display, v, s)
                  && HasEntry(entries, f.name, v) ==>
                    HasPart(f.title + ": " + s, "; ", DisplayValue(models, o.lookups, m.base, name, Map(entries))))
  {
    ReferenceFetched(models, query, m, source, o, name, t, entity, display);
    hide Plan, Used, Inside, RowsById, NamesRow, Shown, DisplayValue, HasField, Chain, Fetched;
    var rows := source[entity].Rows();
    if t == Reference(entity, display) {
      forall v, s | NamesRow(rows, display, v, s) ensures DisplayValue(models, o.lookups, m.base, name, v) == s {
        OneLabel(models, o.lookups, m.base, name, rows, entity, display, v, s);
      }
    }
    if t == Array(Reference(entity, display)) {
      forall vs: seq<Value>, ss: seq<string>
        | |vs| == |ss| && (forall k :: 0 <= k < |vs| ==> NamesRow(rows, display, vs[k], ss[k]))
        ensures Chain(ss, ", ", DisplayValue(models, o.lookups, m.base, name, List(vs)))
      {
        ManyLabels(models, o.lookups, m.base, name, rows, entity, display, vs, ss);
      }
    }
    hide HasPart, HasEntry;
    forall f: ShapeField, entries: seq<MapEntry>, v, s
      | t.Shape? && f in t.fields && f.fieldType == Reference(entity, display) && NamesRow(rows, display, v, s)
        && HasEntry(entries, f.name, v)
      ensures HasPart(f.title + ": " + s, "; ", DisplayValue(models, o.lookups, m.base, name, Map(entries)))
    {
      PartLabel(models, o.lookups, m.base, name, rows, entity, display, t.fields, f, entries, v, s);
    }
  }

  /** The text is parts with the separator between them, and this is one of them. */
  ghost predicate HasPart(part: string, sep: string, text: string) {
    exists parts :: Chain(parts, sep, text) && part in parts
  }

  lemma {:induction false} PartShown(lookups: Lookups, fields: seq<ShapeField>, entries: seq<MapEntry>,
                                     parts: seq<string>, k: nat, v: Value)
    returns (text: string)
    requires ShapeShown(lookups, fields, entries, parts) && k < |fields|
    requires HasEntry(entries, fields[k].name, v) && v != Null
    ensures Shown(lookups, fields[k].fieldType, v, text) && fields[k].title + ": " + text in parts
  {
    EntryIff(entries, fields[0].name, v);
    hide Shown, HasEntry;
    if k == 0 {
      var w, t :| HasEntry(entries, fields[0].name, w) && Shown(lookups, fields[0].fieldType, w, t)
                  && parts[0] == fields[0].title + ": " + t;
      EntryIff(entries, fields[0].name, w);
      text := t;
      assert parts[0] in parts;
    } else if exists w :: HasEntry(entries, fields[0].name, w) && w != Null {
      text := PartShown(lookups, fields[1..], entries, parts[1..], k - 1, v);
    } else {
      text := PartShown(lookups, fields[1..], entries, parts, k - 1, v);
    }
  }

  lemma PartLabel(models: Models, lookups: Lookups, model: string, name: string, rows: seq<Row>, entity: string,
                  display: string, fields: seq<ShapeField>, f: ShapeField, entries: seq<MapEntry>, v: Value, s: string)
    requires model in models && HasField(models[model], name, Shape(fields))
    requires f in fields && f.fieldType == Reference(entity, display) && HasEntry(entries, f.name, v)
    requires entity in lookups && lookups[entity] == RowsById(rows) && NamesRow(rows, display, v, s)
    ensures HasPart(f.title + ": " + s, "; ", DisplayValue(models, lookups, model, name, Map(entries)))
  {
    NamedNotNull(rows, display, v, s);
    NamedFetched(lookups, rows, entity, display, v, s);
    ValueIsShown(models, lookups, model, name, Map(entries));
    hide DisplayValue, HasField, RowsById, NamesRow, Chain, Fetched, HasEntry, ShapeShown;
    var text := DisplayValue(models, lookups, model, name, Map(entries));
    assert Shown(lookups, Shape(fields), Map(entries), text);
    var parts :| Chain(parts, "; ", text) && ShapeShown(lookups, fields, entries, parts);
    hide Shown;
    var k :| 0 <= k < |fields| && fields[k] == f;
    var part := PartShown(lookups, fields, entries, parts, k, v);
    ShownLabel(lookups, entity, display, v, s, part);
  }

  lemma ReferenceFetched(models: Models, query: Query, m: Manifest, source: Source, o: Outcome, name: string,
                         t: FieldType, entity: string, display: string)
    requires Plan(models, query) == Ok(m) && Used(models[query.model], query, name)
    requires o.lookups == map e | e in source && (e in m.lookups || e in m.inlines) :: RowsById(source[e].Rows())
    requires entity in source && HasField(models[query.model], name, t) && Inside(t, Reference(entity, display))
    ensures m.base in models && m.base == query.model
    ensures entity in o.lookups && o.lookups[entity] == RowsById(source[entity].Rows())
  {
    PlanListsExactly(models, query, m);
    FieldIff(models[query.model], name, t);
    hide Plan, Inside, HasField, RowsById, TypeOf, Used, FieldMentions, FieldMentionsAsLookup, Selected;
    ReferenceListed(models, query, m, name, entity, display);
  }

  lemma NamedNotNull(rows: seq<Row>, display: string, v: Value, s: string)
    requires NamesRow(rows, display, v, s)
    ensures v != Null
  {
    hide HasId;
  }

  lemma OneLabel(models: Models, lookups: Lookups, model: string, name: string, rows: seq<Row>, entity: string,
                 display: string, v: Value, s: string)
    requires model in models && HasField(models[model], name, Reference(entity, display))
    requires entity in lookups && lookups[entity] == RowsById(rows) && NamesRow(rows, display, v, s)
    ensures DisplayValue(models, lookups, model, name, v) == s
  {
    hide *;
    NamedNotNull(rows, display, v, s);
    NamedFetched(lookups, rows, entity, display, v, s);
    ValueIsShown(models, lookups, model, name, v);
    ShownLabel(lookups, entity, display, v, s, DisplayValue(models, lookups, model, name, v));
  }

  lemma ManyLabels(models: Models, lookups: Lookups, model: string, name: string, rows: seq<Row>, entity: string,
                   display: string, vs: seq<Value>, ss: seq<string>)
    requires model in models && HasField(models[model], name, Array(Reference(entity, display)))
    requires entity in lookups && lookups[entity] == RowsById(rows) && |vs| == |ss|
    requires forall k :: 0 <= k < |vs| ==> NamesRow(rows, display, vs[k], ss[k])
    ensures Chain(ss, ", ", DisplayValue(models, lookups, model, name, List(vs)))
  {
    ValueIsShown(models, lookups, model, name, List(vs));
    hide DisplayValue, HasField, RowsById, NamesRow, Chain, Fetched;
    var t, text := Reference(entity, display), DisplayValue(models, lookups, model, name, List(vs));
    assert Shown(lookups, Array(t), List(vs), text);
    var parts: seq<string> :| |parts| == |vs| && Chain(parts, ", ", text)
      && forall i :: 0 <= i < |parts| ==> Shown(lookups, t, vs[i], parts[i]);
    hide Shown;
    forall i | 0 <= i < |ss| ensures parts[i] == ss[i] {
      NamedFetched(lookups, rows, entity, display, vs[i], ss[i]);
      ShownLabel(lookups, entity, display, vs[i], ss[i], parts[i]);
    }
    assert parts == ss;
  }
}
