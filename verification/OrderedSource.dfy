/** Ordered sources: one positional array per partition, kept in flat string-keyed maps. */
module OrderedSources {
  import opened Text
  import opened Wrappers
  import opened Records
  import opened OrderedKeys

  const INT_MAX := 0x7fff_ffff

  /** Neither partition value goes on with a colon after a key of the other. */
  ghost predicate Separate(p: string, q: string) {
    forall i: nat :: !(Key(p, i) + ":" <= q) && !(Key(q, i) + ":" <= p)
  }

  ghost predicate SeparateFrom(loaded: set<string>, p: string) {
    forall q :: q in loaded ==> Separate(p, q)
  }

  /** Partitions no field of which is stored under one key: any two of a map of records, and those
      of a flat map that are separate. */
  ghost predicate Parted(record: bool, p: string, q: string) {
    record || Separate(p, q)
  }

  ghost predicate PartedFrom(record: bool, loaded: set<string>, p: string) {
    record || SeparateFrom(loaded, p)
  }

  function ItemsOf(batches: seq<seq<Entry>>): (r: seq<Record>)
    ensures |r| == |batches| && forall i :: 0 <= i < |r| ==> r[i] == ItemOf(batches[i])
  {
    seq(|batches|, i requires 0 <= i < |batches| => ItemOf(batches[i]))
  }

  function Blank(n: nat): (r: seq<Record>)
    ensures |r| == n && forall i :: 0 <= i < n ==> r[i] == map[]
  {
    seq(n, i => map[])
  }

  // ---- the sequence each operation leaves, `r` being what is stored past the end ----

  function Appended(s: seq<Record>, r: Record, x: Record): (t: seq<Record>)
    ensures |t| == |s| + 1
  {
    s + [r + x]
  }

  function Inserted(record: bool, s: seq<Record>, r: Record, pos: nat, x: Record): (t: seq<Record>)
    requires pos <= |s|
    ensures |t| == |s| + 1
  {
    var w := s + [r];
    seq(|w|, i requires 0 <= i < |w| =>
      if i < pos then s[i]
      else Kept(record, w[i]) + (if i == pos then x else s[i - 1]))
  }

  function Removed(record: bool, s: seq<Record>, pos: nat): (t: seq<Record>)
    requires pos < |s|
    ensures |t| == |s| - 1
  {
    seq(|s| - 1, i requires 0 <= i < |s| - 1 =>
      if i < pos then s[i] else Kept(record, s[i]) + s[i + 1])
  }

  // ---- the maps behind a source, as a value --------------------------------

  datatype State = State(
    rows: set<string>,             // row_hd
    fields: Store,                 // fields_hd
    order: map<string, string>,    // order_hd
    loaded: set<string>)           // loaded_hd

  type Loader = map<string, seq<seq<Entry>>>   // what load_fn puts for each partition

  predicate ShortLoader(record: bool, disk: Loader) {
    record || forall p, i :: p in disk && 0 <= i < |disk[p]| ==> ShortNames(disk[p][i])
  }

  function Disk(disk: Loader, p: string): seq<seq<Entry>> {
    if p in disk then disk[p] else []
  }

  ghost function Cell(s: State, p: string, i: int): Record {
    s.fields.Read(Key(p, i))
  }

  ghost predicate Live(s: State, p: string, i: int) {
    Key(p, i) in s.rows
  }

  ghost function Count(s: State, p: string): nat {
    if p in s.order then Val(s.order[p]) else 0
  }

  /** The rows a prefix scan for p would count. */
  ghost function Hits(rows: set<string>, p: string): set<string> {
    set r | r in rows && CountedAs(p, r)
  }

  ghost function Cells(s: State, p: string, n: nat): (c: seq<Record>)
    ensures |c| == n && forall i :: 0 <= i < n ==> c[i] == Cell(s, p, i)
  {
    seq(n, i requires 0 <= i < n => Cell(s, p, i))
  }

  /** The items of a partition: as stored, or as its first access will find them. */
  ghost function View(s: State, disk: Loader, p: string): seq<Record> {
    if p in s.loaded then Cells(s, p, Count(s, p))
    else ItemsOf(Disk(disk, p)) + Blank(|Hits(s.rows, p)|)
  }

  /** A row key that a position of a loaded partition owns. */
  ghost predicate Owned(loaded: set<string>, row: string) {
    && PartOf(row) in loaded && 0 <= PosOf(row) && row == Key(PartOf(row), PosOf(row))
    && |row| < KEY_BUFFER
  }

  /** Rows and fields belong to loaded partitions only. */
  ghost predicate Good(s: State) {
    && (forall r :: r in s.rows ==> Owned(s.loaded, r))
    && s.fields.WellKeyed(s.loaded, s.rows)
    && (forall p :: p in s.loaded ==> p != "" && PartedFrom(s.fields.RecordMap?, s.loaded, p))
  }

  /** The cached count is a numeral, and no row lies at or past it. */
  ghost predicate Counted(s: State) {
    && s.order.Keys == s.loaded
    && (forall p :: p in s.loaded ==>
          Count(s, p) <= INT_MAX && Carries(p, Count(s, p)) && s.order[p] == Digits(Count(s, p)))
    && (forall r :: r in s.rows ==> PosOf(r) < Count(s, PartOf(r)))
  }

  ghost predicate Valid(s: State) {
    Good(s) && Counted(s)
  }

  /** Every item of p has a live row, or will have one when p is first accessed. */
  ghost predicate Dense(s: State, p: string) {
    if p in s.loaded then forall i :: 0 <= i < Count(s, p) ==> Live(s, p, i)
    else Hits(s.rows, p) == {}
  }

  // ---- facts about keys ------------------------------------------------------

  lemma KeyFacts(p: string, i: int)
    ensures PartOf(Key(p, i)) == p && PosOf(Key(p, i)) == i
    ensures |Key(p, i)| < KEY_BUFFER ==> BuildKey(p, i) == Key(p, i)
  {
    KeyDecodes(p, i);
  }

  lemma NoColon(i: nat)
    ensures ':' !in Pos04(i)
  {
    PaddedValue(4, i);
    assert forall k :: 0 <= k < |Pos04(i)| ==> IsDigit(Pos04(i)[k]);
  }

  /** The colon after a key of p can only lie inside the other partition's value. */
  lemma ColonInside(p: string, i: nat, q: string, j: nat)
    requires Key(p, i) + ":" <= Key(q, j)
    ensures Key(p, i) + ":" <= q
  {
    NoColon(j);
    hide Pos04;
    var k, at := Key(q, j), |Key(p, i)|;
    assert k[at] == ':';
    assert forall c :: |q| + 2 <= c < |k| ==> k[c] == Pos04(j)[c - |q| - 2] && k[c] in Pos04(j);
    assert k[|q|] == '_' && k[|q| + 1] == '_';
    assert at < |q| && k[..at + 1] == q[..at + 1];
  }

  /** Rows of separate partitions share no flat key. */
  lemma SeparateRows(p: string, i: nat, q: string, j: nat)
    requires Separate(p, q)
    ensures Apart(Key(p, i), Key(q, j))
  {
    if Key(p, i) + ":" <= Key(q, j) {
      ColonInside(p, i, q, j);
    }
    if Key(q, j) + ":" <= Key(p, i) {
      ColonInside(q, j, p, i);
    }
  }

  /** A partition is separate from itself, and of every other if neither value has a colon. */
  lemma SeparateSelf(p: string)
    ensures Separate(p, p)
    ensures ':' !in p ==> forall q :: ':' !in q ==> Separate(p, q)
  {
    if ':' !in p {
      forall q, i: nat | ':' !in q ensures !(Key(p, i) + ":" <= q) && !(Key(q, i) + ":" <= p) {
        assert (Key(p, i) + ":")[|Key(p, i)|] == ':' && (Key(q, i) + ":")[|Key(q, i)|] == ':';
      }
    }
  }

  lemma SeparateApart(s: State, p: string, i: nat)
    requires SeparateFrom(s.loaded, p)
    ensures ApartFrom(s.loaded, Key(p, i))
  {
    hide Key, Separate;
    forall q, j: nat | q in s.loaded ensures Apart(Key(q, j), Key(p, i)) {
      SeparateRows(p, i, q, j);
    }
  }

  /** Partitions have no stored fields before they are loaded. */
  lemma UnloadedCell(s: State, p: string, i: nat)
    requires Good(s) && PartedFrom(s.fields.RecordMap?, s.loaded, p) && p !in s.loaded
    ensures Cell(s, p, i) == map[] && !Live(s, p, i)
  {
    KeyFacts(p, i);
    UnloadedRow(s, p, i);
    hide Key, Good, SeparateFrom, ApartFrom, PartOf, PosOf;
    if s.fields.PlainMap? {
      SeparateApart(s, p, i);
      UnloadedFields(s, p, i);
    }
  }

  lemma UnloadedRow(s: State, p: string, i: nat)
    requires Good(s) && p !in s.loaded && PartOf(Key(p, i)) == p
    ensures !Live(s, p, i) && (s.fields.RecordMap? ==> Key(p, i) !in s.fields.recs)
  {
    hide Key, PartOf, PosOf, SeparateFrom;
  }

  lemma UnloadedFields(s: State, p: string, i: nat)
    requires Good(s) && p !in s.loaded && s.fields.PlainMap? && ApartFrom(s.loaded, Key(p, i))
    ensures Cell(s, p, i) == map[]
  {
    assert s.fields.WellKeyed(s.loaded, s.rows);
    hide Key, Good, ApartFrom, FlatKey, PartOf, PosOf;
    forall f ensures Comp(Key(p, i), f) !in s.fields.flat {
      ForeignKey(s.loaded, p, i, f);
    }
  }

  lemma ForeignKey(loaded: set<string>, p: string, i: nat, f: string)
    requires ApartFrom(loaded, Key(p, i)) && p !in loaded
    ensures !FlatKey(loaded, Comp(Key(p, i), f))
  {
    hide Key;
    forall q, j: nat, g | q in loaded ensures Comp(Key(p, i), f) != Comp(Key(q, j), g) {
      CompInjective(Key(q, j), g, Key(p, i), f);
      KeyFacts(p, i);
      KeyFacts(q, j);
    }
  }

  // ---- single steps on the maps ---------------------------------------------

  ghost predicate OnlyRows(s: State, t: State, touched: set<string>) {
    && t.order == s.order && t.loaded == s.loaded && (t.fields.RecordMap? <==> s.fields.RecordMap?)
    && forall r :: AsideAll(s.fields.RecordMap?, touched, r) ==>
         (r in t.rows <==> r in s.rows) && t.fields.Read(r) == s.fields.Read(r)
  }

  predicate AsideAll(record: bool, touched: set<string>, r: string) {
    forall x :: x in touched ==> Aside(record, x, r)
  }

  ghost predicate Written(s: State, t: State, row: string, x: Record) {
    && OnlyRows(s, t, {row}) && t.rows == s.rows + {row}
    && t.fields.Read(row) == s.fields.Read(row) + x
  }

  ghost predicate Deleted(s: State, t: State, row: string) {
    && OnlyRows(s, t, {row}) && t.rows == s.rows - {row}
    && t.fields.Read(row) == Kept(s.fields.RecordMap?, s.fields.Read(row))
  }

  ghost predicate Moved(s: State, t: State, from: string, to: string) {
    && OnlyRows(s, t, {from, to}) && t.rows == s.rows + {to} - {from}
    && t.fields.Read(to) == s.fields.Read(to) + s.fields.Read(from)
    && t.fields.Read(from) == Kept(s.fields.RecordMap?, s.fields.Read(from))
  }

  lemma PutReady(s: State, row: string)
    requires Good(s) && Owned(s.loaded, row)
    ensures s.fields.WellKeyed(s.loaded, s.rows + {row})
    ensures PartOf(row) in s.loaded && 0 <= PosOf(row) && row == Key(PartOf(row), PosOf(row))
  {
    hide Key, FlatKey;
  }

  lemma PutIsWritten(s: State, fields: Store, row: string, x: Record)
    requires Good(s) && Owned(s.loaded, row)
    requires fields.WellKeyed(s.loaded, s.rows + {row}) && (fields.RecordMap? <==> s.fields.RecordMap?)
    requires fields.Read(row) == s.fields.Read(row) + x
    requires forall r :: Aside(s.fields.RecordMap?, row, r) ==> fields.Read(r) == s.fields.Read(r)
    ensures var t := s.(rows := s.rows + {row}, fields := fields); Good(t) && Written(s, t, row, x)
  {
    hide Key, Apart, Owned, PartedFrom, Store.Read, Store.WellKeyed;
  }

  /** Copying a whole record onto a row that has none. */
  lemma RecordCopy(s: State, from: string, to: string)
    requires Good(s) && s.fields.RecordMap? && to !in s.rows && from != to
    ensures var f := if from in s.fields.recs then RecordMap(s.fields.recs[to := s.fields.recs[from]]) else s.fields;
            && f.WellKeyed(s.loaded, s.rows + {to})
            && f.Read(to) == s.fields.Read(to) + s.fields.Read(from)
            && forall r :: Aside(true, r, to) ==> f.Read(r) == s.fields.Read(r)
  {
    hide Key, Owned;
    var f := if from in s.fields.recs then RecordMap(s.fields.recs[to := s.fields.recs[from]]) else s.fields;
    assert to !in s.fields.recs;
    assert f.Read(to) == s.fields.Read(to) + s.fields.Read(from);
  }

  lemma PlainReady(s: State, rows: set<string>)
    requires Good(s) && s.fields.PlainMap?
    ensures PlainMap(s.fields.flat).WellKeyed(s.loaded, rows)
    ensures forall f :: PlainMap(f).WellKeyed(s.loaded, {}) ==> PlainMap(f).WellKeyed(s.loaded, rows)
    ensures forall r :: s.fields.Read(r) == FieldsOf(s.fields.flat, r)
    ensures forall f, r :: PlainMap(f).Read(r) == FieldsOf(f, r)
    ensures forall r, r' :: Aside(false, r, r') <==> r != r' && Apart(r, r')
  {
    hide Key, FlatKey;
  }

  lemma DelIsDeleted(s: State, row: string)
    requires Good(s) && (s.fields.PlainMap? ==> ApartFrom(s.loaded, row))
    ensures var t := s.(rows := s.rows - {row}, fields := s.fields.Delete(row)); Good(t) && Deleted(s, t, row)
  {
    hide Key, FlatKey, PartOf, PosOf, ApartFrom, Apart, PartedFrom, Store.Read, Store.Delete, Store.WellKeyed;
    ReadAfterDelete(s.fields, row, s.loaded, s.rows);
  }

  /** Moving a row onto a key that is not live: put then delete is a move. */
  lemma MoveIsMoved(s: State, renamed: Store, from: string, to: string)
    requires Good(s) && Owned(s.loaded, to) && to !in s.rows
    requires (s.fields.PlainMap? ==> ApartFrom(s.loaded, from)) && from != to
    requires renamed.RecordMap? <==> s.fields.RecordMap?
    requires renamed.WellKeyed(s.loaded, s.rows + {to})
    requires renamed.Read(to) == s.fields.Read(to) + s.fields.Read(from)
    requires forall r :: Aside(s.fields.RecordMap?, r, to) ==> renamed.Read(r) == s.fields.Read(r)
    requires Aside(s.fields.RecordMap?, from, to)
    ensures var t := s.(rows := s.rows + {to} - {from}, fields := renamed.Delete(from));
            Good(t) && Moved(s, t, from, to)
  {
    hide Key, FlatKey, PartOf, PosOf, ApartFrom, PartedFrom, Store.Read, Store.Delete, Store.WellKeyed;
    ReadAfterDelete(renamed, from, s.loaded, s.rows + {to});
    assert s.rows + {to} - {from} == s.rows + {to} - {from};
    assert forall r :: Aside(s.fields.RecordMap?, to, r) <==> Aside(s.fields.RecordMap?, r, to);
    hide Aside;
  }

  lemma MoveKeys(s: State, p: string, from: nat, to: nat)
    requires Good(s) && p in s.loaded && from != to
    requires |Key(p, from)| < KEY_BUFFER && |Key(p, to)| < KEY_BUFFER
    ensures BuildKey(p, from) == Key(p, from) && BuildKey(p, to) == Key(p, to)
    ensures Key(p, from) != Key(p, to) && Owned(s.loaded, Key(p, to))
    ensures Aside(s.fields.RecordMap?, Key(p, from), Key(p, to)) && Apart(Key(p, from), Key(p, to))
    ensures s.fields.PlainMap? ==> ApartFrom(s.loaded, Key(p, from))
    ensures Live(s, p, to) <==> Key(p, to) in s.rows
  {
    KeyFacts(p, from);
    KeyFacts(p, to);
    SeparateSelf(p);
    SeparateRows(p, from, p, to);
    if s.fields.PlainMap? {
      SeparateApart(s, p, from);
    }
  }

  // ---- the same steps seen at the positions of one partition ------------------

  /** Nothing outside partition p has changed, at partitions separate from it. */
  ghost predicate Elsewhere(s: State, t: State, p: string) {
    && t.loaded + {p} == s.loaded + {p} && (t.fields.RecordMap? <==> s.fields.RecordMap?)
    && (forall q :: q != p ==> (q in t.order <==> q in s.order) && (q in s.order ==> t.order[q] == s.order[q]))
    && (forall q, i: nat :: q != p && Parted(s.fields.RecordMap?, p, q) ==> SameCell(s, t, q, i))
  }

  ghost predicate SameCell(s: State, t: State, p: string, i: int) {
    Cell(t, p, i) == Cell(s, p, i) && (Live(t, p, i) <==> Live(s, p, i))
  }

  lemma UntouchedCells(s: State, t: State, p: string, touched: set<string>, positions: set<nat>)
    requires OnlyRows(s, t, touched)
    requires forall r :: r in touched ==> exists i :: i in positions && r == Key(p, i)
    ensures forall j: nat :: j !in positions ==> SameCell(s, t, p, j)
    ensures Elsewhere(s, t, p)
  {
    SeparateSelf(p);
    hide Key, Aside, Separate;
    forall q, j: nat | Parted(s.fields.RecordMap?, p, q) && (q != p || j !in positions) ensures SameCell(s, t, q, j) {
      UntouchedCell(s, t, p, touched, positions, q, j);
    }
  }

  lemma UntouchedCell(s: State, t: State, p: string, touched: set<string>, positions: set<nat>, q: string, j: nat)
    requires OnlyRows(s, t, touched) && Parted(s.fields.RecordMap?, p, q) && (q != p || j !in positions)
    requires forall r :: r in touched ==> exists i :: i in positions && r == Key(p, i)
    ensures SameCell(s, t, q, j)
  {
    var record := s.fields.RecordMap?;
    forall r | r in touched ensures Aside(record, r, Key(q, j)) {
      hide Key, Apart, Separate, PartOf, PosOf, OnlyRows;
      var i :| i in positions && r == Key(p, i);
      KeyFacts(p, i);
      KeyFacts(q, j);
      if !record {
        SeparateRows(p, i, q, j);
      }
    }
    hide Key, Aside, Separate;
    assert AsideAll(record, touched, Key(q, j));
  }

  lemma WrittenCell(s: State, t: State, p: string, i: nat, x: Record)
    requires Written(s, t, Key(p, i), x)
    ensures Cell(t, p, i) == Cell(s, p, i) + x && Live(t, p, i)
    ensures forall j: nat :: j != i ==> SameCell(s, t, p, j)
    ensures Elsewhere(s, t, p)
  {
    hide Key, OnlyRows, Elsewhere, SameCell;
    UntouchedCells(s, t, p, {Key(p, i)}, {i});
  }

  lemma DeletedCell(s: State, t: State, p: string, i: nat)
    requires Deleted(s, t, Key(p, i))
    ensures Cell(t, p, i) == Kept(s.fields.RecordMap?, Cell(s, p, i)) && !Live(t, p, i)
    ensures forall j: nat :: j != i ==> SameCell(s, t, p, j)
    ensures Elsewhere(s, t, p)
  {
    hide Key, OnlyRows, Elsewhere, SameCell;
    UntouchedCells(s, t, p, {Key(p, i)}, {i});
  }

  lemma MovedCell(s: State, t: State, p: string, from: nat, to: nat)
    requires from != to && Moved(s, t, Key(p, from), Key(p, to))
    ensures Cell(t, p, to) == Cell(s, p, to) + Cell(s, p, from) && Live(t, p, to)
    ensures Cell(t, p, from) == Kept(s.fields.RecordMap?, Cell(s, p, from)) && !Live(t, p, from)
    ensures forall j: nat :: j != from && j != to ==> SameCell(s, t, p, j)
    ensures Elsewhere(s, t, p)
  {
    hide Key, OnlyRows, Elsewhere, SameCell, Kept, Store.Read;
    UntouchedCells(s, t, p, {Key(p, from), Key(p, to)}, {from, to});
    KeysDiffer(p, from, to);
  }

  lemma KeysDiffer(p: string, i: int, j: int)
    requires i != j
    ensures Key(p, i) != Key(p, j)
  {
    KeyInjective(p, i, p, j);
  }

  lemma ElsewhereTrans(s: State, t: State, u: State, p: string)
    requires Elsewhere(s, t, p) && Elsewhere(t, u, p)
    ensures Elsewhere(s, u, p) && (t.fields.RecordMap? <==> s.fields.RecordMap?)
  {
    hide SameCell, Separate, Key;
    forall q, i: nat | q != p && Parted(s.fields.RecordMap?, p, q) ensures SameCell(s, u, q, i) {
      assert SameCell(s, t, q, i) && SameCell(t, u, q, i);
      SameCellTrans(s, t, u, q, i);
    }
  }

  lemma WrittenMaps(s: State, t: State, row: string, x: Record)
    requires Written(s, t, row, x)
    ensures t.order == s.order && t.loaded == s.loaded
  {
  }

  lemma MovedMaps(s: State, t: State, from: string, to: string)
    requires Moved(s, t, from, to)
    ensures t.order == s.order && t.loaded == s.loaded
  {
  }

  /** Positions k+1..N have moved up by one; position k+1 is vacant and k is next. */
  ghost predicate ShiftedUp(s: State, t: State, p: string, k: int, n: nat) {
    && -1 <= k < n
    && Elsewhere(s, t, p) && t.order == s.order && t.loaded == s.loaded
    && (forall i: nat :: i <= k || i > n ==> SameCell(s, t, p, i))
    && Cell(t, p, k + 1) == Kept(s.fields.RecordMap?, Cell(s, p, k + 1)) && !Live(t, p, k + 1)
    && (forall i: nat :: k + 1 < i <= n ==>
          Cell(t, p, i) == Kept(s.fields.RecordMap?, Cell(s, p, i)) + Cell(s, p, i - 1) && Live(t, p, i))
  }

  lemma ShiftUpStep(s: State, t: State, u: State, p: string, k: nat, n: nat)
    requires ShiftedUp(s, t, p, k, n) && Moved(t, u, Key(p, k), Key(p, k + 1))
    ensures ShiftedUp(s, u, p, k - 1, n)
  {
    hide Key, Cell, Live, Moved, OnlyRows, Elsewhere;
    MovedCell(t, u, p, k, k + 1);
    ElsewhereTrans(s, t, u, p);
    MovedMaps(t, u, Key(p, k), Key(p, k + 1));
    assert SameCell(s, t, p, k);
    forall i: nat | i <= k - 1 || i > n ensures SameCell(s, u, p, i) {
      assert SameCell(s, t, p, i) && SameCell(t, u, p, i);
    }
    forall i: nat | k + 1 < i <= n ensures Cell(u, p, i) == Cell(t, p, i) && (Live(u, p, i) <==> Live(t, p, i)) {
      assert SameCell(t, u, p, i);
    }
  }

  /** Positions pos+1..k have moved down by one; position k is vacant and k+1 is next. */
  ghost predicate ShiftedDown(s: State, t: State, p: string, pos: nat, k: nat) {
    && pos <= k
    && Elsewhere(s, t, p) && t.order == s.order && t.loaded == s.loaded
    && (forall i: nat :: i < pos || i > k ==> SameCell(s, t, p, i))
    && Cell(t, p, k) == Kept(s.fields.RecordMap?, Cell(s, p, k)) && !Live(t, p, k)
    && (forall i: nat :: pos <= i < k ==>
          Cell(t, p, i) == Kept(s.fields.RecordMap?, Cell(s, p, i)) + Cell(s, p, i + 1) && Live(t, p, i))
  }

  lemma ShiftDownStep(s: State, t: State, u: State, p: string, pos: nat, k: nat)
    requires ShiftedDown(s, t, p, pos, k) && Moved(t, u, Key(p, k + 1), Key(p, k))
    ensures ShiftedDown(s, u, p, pos, k + 1)
  {
    hide Key, Cell, Live, Moved, OnlyRows, Elsewhere;
    MovedCell(t, u, p, k + 1, k);
    ElsewhereTrans(s, t, u, p);
    MovedMaps(t, u, Key(p, k + 1), Key(p, k));
    assert SameCell(s, t, p, k + 1);
    forall i: nat | i < pos || i > k + 1 ensures SameCell(s, u, p, i) {
      assert SameCell(s, t, p, i) && SameCell(t, u, p, i);
    }
    forall i: nat | pos <= i < k ensures Cell(u, p, i) == Cell(t, p, i) && (Live(u, p, i) <==> Live(t, p, i)) {
      assert SameCell(t, u, p, i);
    }
  }

  // ---- first access ------------------------------------------------------------

  /** The first i items of an unloaded partition have been put. */
  ghost predicate Loading(s: State, t: State, p: string, items: seq<Record>, i: nat) {
    && i <= |items| && p !in s.loaded && t.loaded == s.loaded + {p} && t.order == s.order
    && Elsewhere(s, t, p)
    && (forall j: nat :: j < i ==> Cell(t, p, j) == items[j] && Live(t, p, j))
    && (forall j: nat :: j >= i ==> Cell(t, p, j) == map[] && !Live(t, p, j))
    && |Hits(t.rows, p)| == |Hits(s.rows, p)| + i
  }

  lemma LoadStart(s: State, p: string, items: seq<Record>)
    requires Good(s) && p != "" && PartedFrom(s.fields.RecordMap?, s.loaded, p) && p !in s.loaded
    ensures var t := s.(loaded := s.loaded + {p}); Good(t) && Loading(s, t, p, items, 0)
  {
    hide Key, Separate;
    LoadGood(s, p);
    var t := s.(loaded := s.loaded + {p});
    forall j: nat ensures Cell(t, p, j) == map[] && !Live(t, p, j) {
      UnloadedCell(s, p, j);
    }
    assert Hits(t.rows, p) == Hits(s.rows, p);
  }

  lemma LoadGood(s: State, p: string)
    requires Good(s) && p != "" && PartedFrom(s.fields.RecordMap?, s.loaded, p)
    ensures Good(s.(loaded := s.loaded + {p}))
  {
    SeparateSelf(p);
    hide Key, Separate;
    if s.fields.PlainMap? {
      SeparateBack(s.loaded, p);
      forall k | k in s.fields.flat ensures FlatKey(s.loaded + {p}, k) {
      }
    }
  }

  lemma SeparateBack(loaded: set<string>, p: string)
    requires SeparateFrom(loaded, p)
    ensures forall q :: q in loaded ==> Separate(q, p)
  {
    hide Key;
  }

  lemma LoadStep(s: State, t: State, u: State, p: string, items: seq<Record>, i: nat)
    requires i < |items| && Loading(s, t, p, items, i) && Written(t, u, Key(p, i), items[i])
    ensures Loading(s, u, p, items, i + 1)
  {
    hide Key, Elsewhere, OnlyRows, Written, Cell, SameCell, Live, Hits;
    WrittenCell(t, u, p, i, items[i]);
    WrittenMaps(t, u, Key(p, i), items[i]);
    ElsewhereTrans(s, t, u, p);
    forall j: nat | j != i
      ensures Cell(u, p, j) == Cell(t, p, j) && (Live(u, p, j) <==> Live(t, p, j))
    {
      assert SameCell(t, u, p, j);
      SameCellIs(t, u, p, j);
    }
    NewHit(t, u, p, i, items[i]);
  }

  lemma SameCellIs(s: State, t: State, p: string, i: int)
    requires SameCell(s, t, p, i)
    ensures Cell(t, p, i) == Cell(s, p, i) && (Live(t, p, i) <==> Live(s, p, i))
  {
  }

  lemma NewHit(t: State, u: State, p: string, i: nat, x: Record)
    requires Written(t, u, Key(p, i), x) && !Live(t, p, i)
    ensures |Hits(u.rows, p)| == |Hits(t.rows, p)| + 1
  {
    hide Key, OnlyRows;
    CountedAsIff(p, p, i);
    assert Hits(u.rows, p) == Hits(t.rows, p) + {Key(p, i)};
    assert Key(p, i) !in Hits(t.rows, p);
  }

  lemma LoadDone(s: State, t: State, disk: Loader, p: string)
    requires Valid(s) && Good(t) && |View(s, disk, p)| <= INT_MAX && Carries(p, |View(s, disk, p)|)
    requires Loading(s, t, p, ItemsOf(Disk(disk, p)), |Disk(disk, p)|)
    ensures |Hits(t.rows, p)| == |View(s, disk, p)|
    ensures var u := t.(order := t.order[p := Digits(|Hits(t.rows, p)|)]);
            && Valid(u) && View(u, disk, p) == View(s, disk, p)
            && Elsewhere(s, u, p) && u.loaded == s.loaded + {p}
            && (Dense(u, p) <==> Dense(s, p))
            && forall i: nat :: i >= |View(s, disk, p)| ==> Cell(u, p, i) == map[]
  {
    hide Key, Elsewhere, Good, Counted, Live;
    var n := |Hits(t.rows, p)|;
    var u := t.(order := t.order[p := Digits(n)]);
    OrderAside(t, p, u.order);
    assert Hits(s.rows, p) != {} ==> !Live(u, p, |Disk(disk, p)|);
    Recount(s, t, p, n);
    assert forall i: nat :: Cell(u, p, i) == Cell(t, p, i);
  }

  /** Setting p's count above all its live positions, everything else being as before. */
  lemma Recount(s: State, t: State, p: string, n: nat)
    requires Good(s) && Counted(s) && Good(t) && n <= INT_MAX && Carries(p, n)
    requires t.loaded == s.loaded + {p} && t.order == s.order && Elsewhere(s, t, p)
    requires forall j: nat :: j >= n ==> !Live(t, p, j)
    ensures var u := t.(order := t.order[p := Digits(n)]);
            Valid(u) && Elsewhere(s, u, p) && Count(u, p) == n
  {
    hide Key, Carries, Live, Good, Counted, Elsewhere, PartOf, PosOf, Digits, Val, Count;
    SetOrder(s, t, p, Digits(n));
    forall r | r in t.rows ensures PosOf(r) < if PartOf(r) == p then n else Count(s, PartOf(r)) {
      RowCounted(s, t, p, n, r);
    }
    CountedAt(s, t, p, n);
  }

  lemma CountedAt(s: State, t: State, p: string, n: nat)
    requires Counted(s) && n <= INT_MAX && Carries(p, n) && t.loaded == s.loaded + {p} && t.order == s.order
    requires forall r :: r in t.rows ==> PosOf(r) < if PartOf(r) == p then n else Count(s, PartOf(r))
    ensures var u := t.(order := t.order[p := Digits(n)]); Counted(u) && Count(u, p) == n
  {
    ValOfDigits(n);
    hide Key, PartOf, PosOf, Digits, Val, Carries;
    var u := t.(order := t.order[p := Digits(n)]);
    assert forall q :: Count(u, q) == if q == p then n else Count(s, q);
    hide Count;
  }

  lemma RowCounted(s: State, t: State, p: string, n: nat, r: string)
    requires Counted(s) && Good(t) && p in t.loaded && Elsewhere(s, t, p) && r in t.rows
    requires forall j: nat :: j >= n ==> !Live(t, p, j)
    ensures PosOf(r) < if PartOf(r) == p then n else Count(s, PartOf(r))
  {
    hide Key, Good, Elsewhere, Live, PartOf, PosOf, Count, Parted, Carries;
    RowKey(t, r);
    if PartOf(r) != p {
      LoadedSeparate(t, p, PartOf(r));
      SameKindElsewhere(s, t, p);
      SameRow(s, t, p, PartOf(r), PosOf(r));
    }
  }

  lemma SetOrder(s: State, t: State, p: string, c: string)
    requires Good(t) && Elsewhere(s, t, p)
    ensures var u := t.(order := t.order[p := c]); Good(u) && Elsewhere(s, u, p)
  {
    hide Key, PartedFrom, Parted, FlatKey, SameCell, Owned, Store.WellKeyed;
    var u := t.(order := t.order[p := c]);
    forall q, i: nat | q != p && Parted(s.fields.RecordMap?, p, q) ensures SameCell(s, u, q, i) {
      OrderSameCell(s, t, q, i, u.order);
    }
  }

  lemma OrderSameCell(s: State, t: State, q: string, i: nat, order: map<string, string>)
    ensures SameCell(s, t.(order := order), q, i) <==> SameCell(s, t, q, i)
  {
    hide Key;
  }

  lemma SameRow(s: State, t: State, p: string, q: string, j: nat)
    requires Elsewhere(s, t, p) && q != p && Parted(s.fields.RecordMap?, p, q)
    ensures Key(q, j) in t.rows <==> Key(q, j) in s.rows
  {
    hide Key, Parted;
    assert SameCell(s, t, q, j);
  }

  lemma LoadedSeparate(s: State, p: string, q: string)
    requires Good(s) && p in s.loaded && q in s.loaded
    ensures Parted(s.fields.RecordMap?, p, q)
  {
    hide Key, Separate;
  }

  lemma SameKindElsewhere(s: State, t: State, p: string)
    requires Elsewhere(s, t, p)
    ensures t.fields.RecordMap? <==> s.fields.RecordMap?
  {
  }

  lemma RowKey(s: State, r: string)
    requires Good(s) && r in s.rows
    ensures r == Key(PartOf(r), PosOf(r)) && 0 <= PosOf(r) && PartOf(r) in s.loaded
    ensures Live(s, PartOf(r), PosOf(r))
  {
    hide Key, Separate;
  }

  /** The other partitions keep their items, unless one is still unloaded and p's rows would
      be counted as its own. */
  lemma OthersKept(s: State, t: State, disk: Loader, p: string, q: string)
    requires Good(s) && Good(t) && Elsewhere(s, t, p) && q != p && p in t.loaded && s.loaded <= t.loaded
    requires q in s.loaded || !Shadows(p, q)
    ensures View(t, disk, q) == View(s, disk, q) && (Dense(t, q) <==> Dense(s, q))
  {
    hide Key, Elsewhere, Good, CountedAs, Shadows, SameCell, Cell, Live, Parted;
    NotLoaded(s, t, p, q);
    SameKindElsewhere(s, t, p);
    if q in s.loaded {
      LoadedSeparate(t, p, q);
      forall i: nat ensures Cell(s, q, i) == Cell(t, q, i) && (Live(s, q, i) <==> Live(t, q, i)) {
        OtherCell(s, t, p, q, i);
        SameCellIs(s, t, q, i);
      }
    } else {
      forall r ensures r in Hits(s.rows, q) <==> r in Hits(t.rows, q) {
        OtherHit(s, t, p, q, r);
      }
      assert Hits(s.rows, q) == Hits(t.rows, q);
    }
  }

  lemma OtherCell(s: State, t: State, p: string, q: string, i: nat)
    requires Elsewhere(s, t, p) && q != p && Parted(s.fields.RecordMap?, p, q)
    ensures SameCell(s, t, q, i) && Cell(s, q, i) == Cell(t, q, i)
  {
    hide Key, Parted;
  }

  lemma NotLoaded(s: State, t: State, p: string, q: string)
    requires Elsewhere(s, t, p) && q != p
    ensures q in t.loaded <==> q in s.loaded
    ensures Count(s, q) == Count(t, q)
  {
    assert q in t.loaded + {p} <==> q in s.loaded + {p};
  }

  lemma OtherHit(s: State, t: State, p: string, q: string, r: string)
    requires Good(s) && Good(t) && Elsewhere(s, t, p) && !Shadows(p, q) && p in t.loaded && s.loaded <= t.loaded
    ensures r in Hits(s.rows, q) <==> r in Hits(t.rows, q)
  {
    hide Key, Elsewhere, Good, Shadows, CountedAs, Live, Parted;
    SameKindElsewhere(s, t, p);
    if r in s.rows || r in t.rows {
      RowKey(if r in s.rows then s else t, r);
      CountedAsIff(q, PartOf(r), PosOf(r));
      if PartOf(r) != p {
        LoadedSeparate(t, p, PartOf(r));
        SameRow(s, t, p, PartOf(r), PosOf(r));
      }
    }
  }

  method PartitionCount(rows: set<string>, pval: string) returns (n: nat)
    ensures n == |Hits(rows, pval)|
  {
    n := 0;
    var todo := rows;
    ghost var seen: set<string> := {};
    while todo != {}
      invariant todo <= rows && seen == (set r | r in rows - todo && CountedAs(pval, r)) && n == |seen|
    {
      var key :| key in todo;
      todo := todo - {key};
      if CountedAs(pval, key) {
        n := n + 1;
        seen := seen + {key};
      }
    }
    assert seen == set r | r in rows && CountedAs(pval, r);
  }

  // ---- what each operation leaves ------------------------------------------------

  ghost predicate Tails(s: State, t: State, p: string, n: nat) {
    forall i: nat :: i >= n ==> Cell(t, p, i) == Cell(s, p, i)
  }

  /** Every other partition has the items and the stored cells it had, except that the count an
      unloaded partition will find changes if p's rows are counted as its own. */
  ghost predicate OthersSame(s: State, t: State, disk: Loader, p: string) {
    && s.loaded <= t.loaded <= s.loaded + {p} && (t.fields.RecordMap? <==> s.fields.RecordMap?)
    && forall q :: q != p && (q in s.loaded || !Shadows(p, q)) ==>
         && View(t, disk, q) == View(s, disk, q) && (Dense(t, q) <==> Dense(s, q))
         && (Parted(s.fields.RecordMap?, p, q) ==> Tails(s, t, q, 0))
  }

  lemma OthersAreSame(s: State, t: State, disk: Loader, p: string)
    requires Good(s) && Good(t) && Elsewhere(s, t, p) && s.loaded <= t.loaded && p in t.loaded
    ensures OthersSame(s, t, disk, p)
  {
    hide Good, View, Elsewhere, SameCell, Shadows, Cell, Parted, Dense;
    LoadedRange(s, t, p);
    forall q | q != p && (q in s.loaded || !Shadows(p, q))
      ensures View(t, disk, q) == View(s, disk, q) && (Dense(t, q) <==> Dense(s, q))
      ensures Parted(s.fields.RecordMap?, p, q) ==> Tails(s, t, q, 0)
    {
      OthersKept(s, t, disk, p, q);
      forall i: nat | Parted(s.fields.RecordMap?, p, q) ensures Cell(t, q, i) == Cell(s, q, i) {
        OtherCell(s, t, p, q, i);
      }
    }
  }

  lemma LoadedRange(s: State, t: State, p: string)
    requires Elsewhere(s, t, p)
    ensures t.loaded <= s.loaded + {p} && (t.fields.RecordMap? <==> s.fields.RecordMap?)
  {
    assert t.loaded <= t.loaded + {p};
  }

  lemma OthersSameTrans(s: State, t: State, u: State, disk: Loader, p: string)
    requires OthersSame(s, t, disk, p) && OthersSame(t, u, disk, p)
    ensures OthersSame(s, u, disk, p)
  {
    hide View, Shadows, Parted, Cell, Dense;
  }

  /** The cells of t at positions below n are exactly the sequence v. */
  lemma ViewIs(t: State, disk: Loader, p: string, v: seq<Record>)
    requires p in t.loaded && Count(t, p) == |v|
    requires forall i: nat :: i < |v| ==> Cell(t, p, i) == v[i]
    ensures View(t, disk, p) == v
  {
    hide Cell, Count;
  }

  lemma ViewCells(s: State, disk: Loader, p: string)
    requires p in s.loaded
    ensures |View(s, disk, p)| == Count(s, p)
    ensures forall i: nat :: i < Count(s, p) ==> View(s, disk, p)[i] == Cell(s, p, i)
  {
    hide Cell, Count;
  }

  lemma PastEnd(s: State, p: string, i: nat)
    requires Valid(s) && p in s.loaded && Count(s, p) <= i
    ensures !Live(s, p, i)
    ensures s.fields.RecordMap? ==> Cell(s, p, i) == map[]
  {
    hide Key, FlatKey;
    KeyFacts(p, i);
  }

  lemma AppendDone(s: State, t: State, disk: Loader, p: string, x: Record)
    requires Valid(s) && p in s.loaded && Good(t) && Count(s, p) < INT_MAX && Carries(p, Count(s, p) + 1)
    requires Written(s, t, Key(p, Count(s, p)), x)
    ensures var n := Count(s, p); var u := t.(order := t.order[p := Digits(n + 1)]);
            && Valid(u) && OthersSame(s, u, disk, p) && Tails(s, u, p, n + 1)
            && View(u, disk, p) == Appended(View(s, disk, p), Cell(s, p, n), x)
            && (Dense(s, p) ==> Dense(u, p))
  {
    hide Key, View, Elsewhere, OnlyRows, Good, Counted, Written, Cell, Live, Count, SameCell, Digits, Carries;
    var n := Count(s, p);
    WrittenCell(s, t, p, n, x);
    WrittenMaps(s, t, Key(p, n), x);
    forall j: nat | j > n ensures !Live(t, p, j) && Cell(t, p, j) == Cell(s, p, j) {
      SameCellIs(s, t, p, j);
      PastEnd(s, p, j);
    }
    CountTo(s, t, disk, p, n + 1);
    var u := t.(order := t.order[p := Digits(n + 1)]);
    ViewCells(s, disk, p);
    forall j: nat | j < n ensures Cell(t, p, j) == Cell(s, p, j) && (Live(t, p, j) <==> Live(s, p, j)) {
      SameCellIs(s, t, p, j);
    }
    ViewIs(u, disk, p, Appended(View(s, disk, p), Cell(s, p, n), x));
  }

  lemma LoadedFacts(s: State, p: string)
    requires Good(s) && p in s.loaded
    ensures p != "" && PartedFrom(s.fields.RecordMap?, s.loaded, p)
    ensures Counted(s) ==> Count(s, p) <= INT_MAX && Carries(p, Count(s, p)) && p in s.order
  {
    hide Key, FlatKey, PartedFrom, Carries;
  }

  /** Recording a new count n for p, when all live positions of p are below it. */
  lemma CountTo(s: State, t: State, disk: Loader, p: string, n: nat)
    requires Valid(s) && p in s.loaded && Good(t) && n <= INT_MAX && Carries(p, n)
    requires Elsewhere(s, t, p) && t.order == s.order && t.loaded == s.loaded
    requires forall j: nat :: j >= n ==> !Live(t, p, j)
    ensures var u := t.(order := t.order[p := Digits(n)]);
            && Valid(u) && OthersSame(s, u, disk, p) && Count(u, p) == n && p in u.loaded
            && forall j :: Cell(u, p, j) == Cell(t, p, j) && (Live(u, p, j) <==> Live(t, p, j))
  {
    hide Key, View, Elsewhere, Good, Counted, Cell, Live, Count, OthersSame, Digits, Carries;
    var c := Digits(n);
    OrderAside(t, p, t.order[p := c]);
    LoadedFacts(s, p);
    assert s.loaded == s.loaded + {p};
    Recount(s, t, p, n);
    OthersAreSame(s, t.(order := t.order[p := c]), disk, p);
  }

  lemma OrderAside(t: State, p: string, order: map<string, string>)
    ensures var u := t.(order := order);
            forall j :: Cell(u, p, j) == Cell(t, p, j) && (Live(u, p, j) <==> Live(t, p, j))
  {
    hide Key;
  }

  lemma ShiftUpStart(s: State, p: string)
    requires Valid(s) && p in s.loaded && 0 < Count(s, p)
    ensures ShiftedUp(s, s, p, Count(s, p) - 1, Count(s, p))
  {
    hide Key, Good, Counted, Cell, Live, Count;
    PastEnd(s, p, Count(s, p));
    ElsewhereRefl(s, p);
  }

  lemma ElsewhereRefl(s: State, p: string)
    ensures Elsewhere(s, s, p)
  {
  }

  lemma InsertDone(s: State, t: State, u: State, disk: Loader, p: string, pos: nat, x: Record)
    requires Valid(s) && p in s.loaded && Good(u) && pos <= Count(s, p) < INT_MAX
    requires Carries(p, Count(s, p) + 1)
    requires if pos < Count(s, p) then ShiftedUp(s, t, p, pos - 1, Count(s, p)) else t == s
    requires Written(t, u, Key(p, pos), x)
    ensures var n := Count(s, p); var v := u.(order := u.order[p := Digits(n + 1)]);
            && Valid(v) && OthersSame(s, v, disk, p) && Tails(s, v, p, n + 1)
            && View(v, disk, p)
               == Inserted(s.fields.RecordMap?, View(s, disk, p), Cell(s, p, n), pos, x)
            && (Dense(s, p) ==> Dense(v, p))
  {
    hide Key, View, Elsewhere, OnlyRows, Good, Counted, Written, Cell, Live, Count, SameCell, Digits, Carries;
    var n, record := Count(s, p), s.fields.RecordMap?;
    LoadedFacts(s, p);
    WrittenCell(t, u, p, pos, x);
    WrittenMaps(t, u, Key(p, pos), x);
    ViewCells(s, disk, p);
    PastEnd(s, p, n);
    if pos < n {
      ElsewhereTrans(s, t, u, p);
    }
    var seen := View(s, disk, p);
    var w := seen + [Cell(s, p, n)];
    forall j: nat
      ensures j > n ==> !Live(u, p, j) && Cell(u, p, j) == Cell(s, p, j)
      ensures j < pos ==> Cell(u, p, j) == seen[j] && (Live(u, p, j) <==> Live(s, p, j))
      ensures j == pos ==> Cell(u, p, j) == Kept(record, w[pos]) + x && Live(u, p, j)
      ensures pos < j <= n ==> Cell(u, p, j) == Kept(record, w[j]) + seen[j - 1] && Live(u, p, j)
    {
      if j != pos {
        assert SameCell(t, u, p, j);
        SameCellIs(t, u, p, j);
        if j < pos || j > n {
          if pos < n {
            SameCellIs(s, t, p, j);
          }
          if j > n {
            PastEnd(s, p, j);
          }
        }
      }
    }
    CountTo(s, u, disk, p, n + 1);
    ViewIs(u.(order := u.order[p := Digits(n + 1)]), disk, p, Inserted(record, seen, Cell(s, p, n), pos, x));
  }

  lemma ShiftDownStart(s: State, t: State, p: string, pos: nat)
    requires Deleted(s, t, Key(p, pos))
    ensures ShiftedDown(s, t, p, pos, pos)
  {
    hide Key, Cell, Live, OnlyRows, Elsewhere, SameCell;
    DeletedCell(s, t, p, pos);
    DeletedMaps(s, t, Key(p, pos));
  }

  lemma RemoveDone(s: State, t: State, disk: Loader, p: string, pos: nat)
    requires Valid(s) && p in s.loaded && Good(t) && pos < Count(s, p)
    requires ShiftedDown(s, t, p, pos, Count(s, p) - 1)
    ensures var n := Count(s, p); var u := t.(order := t.order[p := Digits(n - 1)]);
            && Valid(u) && OthersSame(s, u, disk, p) && Tails(s, u, p, n)
            && View(u, disk, p) == Removed(s.fields.RecordMap?, View(s, disk, p), pos)
            && Cell(u, p, n - 1) == Kept(s.fields.RecordMap?, View(s, disk, p)[n - 1])
            && (Dense(s, p) ==> Dense(u, p))
  {
    hide Key, View, Elsewhere, OnlyRows, Good, Counted, Cell, Live, Count, SameCell, Digits, Carries;
    var n, record := Count(s, p), s.fields.RecordMap?;
    LoadedFacts(s, p);
    CarriesBelow(p, n, n - 1);
    ViewCells(s, disk, p);
    var seen := View(s, disk, p);
    forall j: nat
      ensures j >= n - 1 ==> !Live(t, p, j)
      ensures j >= n ==> Cell(t, p, j) == Cell(s, p, j)
      ensures j < pos ==> Cell(t, p, j) == seen[j] && (Live(t, p, j) <==> Live(s, p, j))
      ensures pos <= j < n - 1 ==> Cell(t, p, j) == Kept(record, seen[j]) + seen[j + 1] && Live(t, p, j)
    {
      if j < pos || j > n - 1 {
        SameCellIs(s, t, p, j);
        if j > n - 1 {
          PastEnd(s, p, j);
        }
      }
    }
    CountTo(s, t, disk, p, n - 1);
    ViewIs(t.(order := t.order[p := Digits(n - 1)]), disk, p, Removed(record, seen, pos));
  }

  /** The rows at the first k positions are deleted. */
  ghost predicate Cleared(s: State, t: State, p: string, k: nat) {
    && Elsewhere(s, t, p) && t.order == s.order && t.loaded == s.loaded
    && (forall i: nat :: i < k ==> Cell(t, p, i) == Kept(s.fields.RecordMap?, Cell(s, p, i)) && !Live(t, p, i))
    && (forall i: nat :: i >= k ==> SameCell(s, t, p, i))
  }

  lemma ClearStep(s: State, t: State, u: State, p: string, k: nat)
    requires Cleared(s, t, p, k) && Deleted(t, u, Key(p, k))
    ensures Cleared(s, u, p, k + 1)
  {
    hide Key, Cell, Live, Deleted, OnlyRows, Elsewhere, SameCell;
    DeletedCell(t, u, p, k);
    DeletedMaps(t, u, Key(p, k));
    ElsewhereTrans(s, t, u, p);
    SameCellIs(s, t, p, k);
    forall i: nat | i > k ensures SameCell(s, u, p, i) {
      SameCellTrans(s, t, u, p, i);
    }
    forall i: nat | i < k ensures Cell(u, p, i) == Cell(t, p, i) && !Live(u, p, i) {
      SameCellIs(t, u, p, i);
    }
  }

  lemma DeletedMaps(s: State, t: State, row: string)
    requires Deleted(s, t, row)
    ensures t.order == s.order && t.loaded == s.loaded
  {
  }

  lemma SameCellTrans(s: State, t: State, u: State, p: string, i: int)
    requires SameCell(s, t, p, i) && SameCell(t, u, p, i)
    ensures SameCell(s, u, p, i)
  {
  }

  lemma ClearDone(s: State, t: State, disk: Loader, p: string)
    requires Valid(s) && p in s.loaded && Good(t) && Cleared(s, t, p, Count(s, p))
    ensures var u := t.(order := t.order[p := "0"]);
            && Valid(u) && OthersSame(s, u, disk, p) && Tails(s, u, p, Count(s, p))
            && View(u, disk, p) == [] && Dense(u, p)
            && forall i: nat :: i < Count(s, p) ==>
                 Cell(u, p, i) == Kept(s.fields.RecordMap?, View(s, disk, p)[i])
  {
    assert Digits(0) == "0";
    hide Key, View, Elsewhere, OnlyRows, Good, Counted, Cell, Live, Count, SameCell, Digits, Carries;
    ViewCells(s, disk, p);
    forall j: nat | j >= Count(s, p) ensures !Live(t, p, j) && Cell(t, p, j) == Cell(s, p, j) {
      SameCellIs(s, t, p, j);
      PastEnd(s, p, j);
    }
    CountTo(s, t, disk, p, 0);
    ViewIs(t.(order := t.order[p := "0"]), disk, p, []);
  }

  lemma StaysSame(s: State, disk: Loader, p: string)
    ensures OthersSame(s, s, disk, p) && Tails(s, s, p, 0) && Tails(s, s, p, |View(s, disk, p)|)
  {
    hide View, Cell, Dense;
  }

  lemma LoadKeys(s: State, t: State, p: string, items: seq<Record>, i: nat)
    requires Loading(s, t, p, items, i) && |Key(p, i)| < KEY_BUFFER
    ensures BuildKey(p, i) == Key(p, i) && Owned(t.loaded, Key(p, i))
  {
    KeyFacts(p, i);
  }

  lemma BatchNames(record: bool, disk: Loader, p: string, i: nat)
    requires ShortLoader(record, disk) && i < |Disk(disk, p)|
    ensures !record ==> ShortNames(Disk(disk, p)[i])
    ensures ItemsOf(Disk(disk, p))[i] == ItemOf(Disk(disk, p)[i]) && |ItemsOf(Disk(disk, p))| == |Disk(disk, p)|
  {
  }

  lemma LoadSame(s: State, t: State, u: State, disk: Loader, p: string)
    requires Valid(s) && Valid(u) && PartedFrom(s.fields.RecordMap?, s.loaded, p) && p !in s.loaded
    requires Elsewhere(s, u, p) && u.loaded == s.loaded + {p} && |View(u, disk, p)| == |View(s, disk, p)|
    requires forall i: nat :: i >= |View(s, disk, p)| ==> Cell(u, p, i) == map[]
    ensures OthersSame(s, u, disk, p) && Tails(s, u, p, |View(u, disk, p)|)
  {
    hide Good, Counted, View, Elsewhere, Cell, OthersSame, PartedFrom;
    OthersAreSame(s, u, disk, p);
    forall i: nat ensures Cell(s, p, i) == map[] {
      UnloadedCell(s, p, i);
    }
  }

  lemma LoadedCount(s: State, disk: Loader, p: string)
    requires Valid(s) && p in s.loaded
    ensures p in s.order && Val(s.order[p]) == Count(s, p) == |View(s, disk, p)|
    ensures Count(s, p) <= INT_MAX
  {
    hide Good, Cell;
    ViewCells(s, disk, p);
    ValOfDigits(Count(s, p));
  }

  lemma OpKeys(s: State, p: string, i: nat)
    requires Valid(s) && p in s.loaded && |Key(p, i)| < KEY_BUFFER
    ensures Good(s) && BuildKey(p, i) == Key(p, i) && Owned(s.loaded, Key(p, i))
    ensures s.fields.PlainMap? ==> ApartFrom(s.loaded, Key(p, i))
    ensures i >= Count(s, p) ==> !Live(s, p, i)
  {
    KeyFacts(p, i);
    if s.fields.PlainMap? {
      SeparateApart(s, p, i);
    }
    hide Key;
    if i >= Count(s, p) {
      PastEnd(s, p, i);
    }
  }

  lemma Compose(s: State, t: State, u: State, disk: Loader, p: string, k: nat, m: nat)
    requires OthersSame(s, t, disk, p) && OthersSame(t, u, disk, p)
    requires Tails(s, t, p, k) && Tails(t, u, p, m) && k <= m
    ensures OthersSame(s, u, disk, p) && Tails(s, u, p, m)
  {
    hide OthersSame, Cell;
    OthersSameTrans(s, t, u, disk, p);
  }

  lemma ShiftUpVacant(s: State, t: State, p: string, k: nat, n: nat)
    requires ShiftedUp(s, t, p, k, n) && p in s.loaded
    ensures !Live(t, p, k + 1) && p in t.loaded
  {
    hide Live, SameCell, Elsewhere;
  }

  lemma ShiftDownVacant(s: State, t: State, p: string, pos: nat, k: nat)
    requires ShiftedDown(s, t, p, pos, k) && p in s.loaded
    ensures !Live(t, p, k) && p in t.loaded
  {
    hide Live, SameCell, Elsewhere;
  }

  lemma ClearStart(s: State, p: string)
    ensures Cleared(s, s, p, 0)
  {
    hide Cell, Live;
  }

  lemma SameKind(s: State, t: State, disk: Loader, p: string)
    requires OthersSame(s, t, disk, p)
    ensures t.fields.RecordMap? <==> s.fields.RecordMap?
  {
  }

  /** The token streams once these batches have been put. */
  function LoadTokens(encode: Encode, tokens: TokenMap, p: string, batches: seq<seq<Entry>>): TokenMap {
    if batches == [] then tokens
    else
      var n := |batches| - 1;
      TokensAfter(encode, LoadTokens(encode, tokens, p, batches[..n]), Key(p, n), batches[n])
  }

  lemma LoadTokensStep(encode: Encode, tokens: TokenMap, p: string, batches: seq<seq<Entry>>, i: nat)
    requires i < |batches|
    ensures LoadTokens(encode, tokens, p, batches[..i + 1])
            == TokensAfter(encode, LoadTokens(encode, tokens, p, batches[..i]), Key(p, i), batches[i])
    ensures LoadTokens(encode, tokens, p, []) == tokens
    ensures batches[..|batches|] == batches
  {
    assert batches[..i + 1][..i] == batches[..i];
  }

  lemma NoTokens(encode: Encode, tokens: TokenMap, p: string, batches: seq<seq<Entry>>)
    ensures LoadTokens(encode, tokens, p, batches[..0]) == tokens && batches[..|batches|] == batches
  {
  }

  /** The full-text index is a function of what it was last built from. */
  datatype Index = Unbuilt | BuiltFrom(rows: set<string>, fields: Store, tokens: TokenMap)

  class OrderedSource {
    const indexed: bool
    const disk: Loader
    const encode: Encode

    var rows: set<string>
    var fields: Store
    var order: map<string, string>
    var loaded: set<string>
    var tokens: TokenMap               // tokens_hd
    var index: Index                   // lemma
    var dirty: bool                    // lemma_dirty

    ghost function Now(): State
      reads this
    {
      State(rows, fields, order, loaded)
    }

    ghost function Items(pval: string): seq<Record>
      reads this
    {
      View(Now(), disk, pval)
    }

    /** What is stored at the first position past the partition's items. */
    ghost function Past(pval: string): Record
      reads this
    {
      Cell(Now(), pval, |Items(pval)|)
    }

    /** Unless marked dirty, the index is that of the present rows, fields and token streams. */
    ghost predicate Fresh()
      reads this`rows, this`fields, this`tokens, this`index, this`dirty
    {
      indexed && !dirty ==> index == BuiltFrom(rows, fields, tokens)
    }

    /** In a plain map the loader's field names are short. */
    ghost predicate LoaderFits()
      reads this`fields
    {
      ShortLoader(fields.RecordMap?, disk)
    }

    ghost predicate Sound()
      reads this
    {
      Valid(Now()) && LoaderFits() && Fresh()
    }

    /** A partition with room for k more items, whose keys the buffer carries; in a plain map it is
        separate from the loaded ones. */
    ghost predicate Room(pval: string, k: nat)
      reads this
    {
      pval != "" ==>
        && PartedFrom(fields.RecordMap?, loaded, pval)
        && |Items(pval)| + k <= INT_MAX && Carries(pval, |Items(pval)| + k)
    }

    /** The token streams once the partition is loaded. */
    ghost function TokensLoaded(pval: string): TokenMap
      reads this
    {
      if pval == "" || pval in loaded then tokens else LoadTokens(encode, tokens, pval, Disk(disk, pval))
    }

    lemma SoundParts()
      requires Sound()
      ensures Valid(Now()) && Good(Now()) && ShortLoader(fields.RecordMap?, disk) && Fresh()
    {
    }

    lemma RoomParts(pval: string, k: nat)
      requires Room(pval, k) && pval != ""
      ensures PartedFrom(fields.RecordMap?, loaded, pval) && Items(pval) == View(Now(), disk, pval)
      ensures |Items(pval)| + k <= INT_MAX && Carries(pval, |Items(pval)| + k)
      ensures pval !in loaded ==> |Disk(disk, pval)| <= |View(Now(), disk, pval)|
    {
    }

    /** One item more: its key is carried too. */
    lemma RoomShrinks(pval: string)
      requires Room(pval, 1)
      ensures Room(pval, 0)
      ensures var n := |Items(pval)|;
              pval != "" ==>
                && n < INT_MAX && Carries(pval, n + 1) && |Key(pval, n)| < KEY_BUFFER
                && BuildKey(pval, n) == Key(pval, n)
    {
      if pval != "" {
        CarriesBelow(pval, |Items(pval)| + 1, |Items(pval)|);
      }
      hide View, Key, BuildKey, PartedFrom;
    }

    /** The partition is loaded: what the rest of an operation may use. */
    lemma AfterLoad(s0: State, s: State, pval: string)
      requires Sound() && s == Now() && pval in loaded && OthersSame(s0, s, disk, pval)
      requires Tails(s0, s, pval, |Items(pval)|)
      ensures Fresh() && ShortLoader(s.fields.RecordMap?, disk) && s.fields.RecordMap? == fields.RecordMap?
      ensures Valid(s) && Good(s) && s == State(rows, fields, order, loaded)
      ensures Items(pval) == View(s, disk, pval) && Count(s, pval) == |Items(pval)| <= INT_MAX
      ensures Carries(pval, |Items(pval)|)
      ensures Cell(s, pval, |Items(pval)|) == Cell(s0, pval, |Items(pval)|)
    {
      hide View, Cell, Carries, Good, Counted, OthersSame;
      LoadedCount(s, disk, pval);
      LoadedFacts(s, pval);
    }

    /** An operation on a loaded partition, composed with the load before it. */
    lemma AfterOp(s0: State, s: State, pval: string, k: nat, m: nat)
      requires Valid(Now()) && ShortLoader(s.fields.RecordMap?, disk) && Fresh() && k <= m
      requires OthersSame(s0, s, disk, pval) && OthersSame(s, Now(), disk, pval)
      requires Tails(s0, s, pval, k) && Tails(s, Now(), pval, m)
      ensures Sound() && OthersSame(s0, Now(), disk, pval) && Tails(s0, Now(), pval, m)
      ensures fields.RecordMap? == s.fields.RecordMap?
      ensures Items(pval) == View(Now(), disk, pval) && Past(pval) == Cell(Now(), pval, |Items(pval)|)
    {
      hide OthersSame, Valid, View, Cell, Tails;
      SameKind(s, Now(), disk, pval);
      Compose(s0, s, Now(), disk, pval, k, m);
    }

    lemma ItemsAre(pval: string)
      ensures Items(pval) == View(Now(), disk, pval)
      ensures Past(pval) == Cell(Now(), pval, |Items(pval)|)
      ensures Valid(Now()) && ShortLoader(fields.RecordMap?, disk) && Fresh() ==> Sound()
    {
    }

    lemma TokensAre(pval: string)
      ensures TokensLoaded(pval)
              == if pval == "" || pval in loaded then tokens else LoadTokens(encode, tokens, pval, Disk(disk, pval))
    {
    }

    lemma NowIs()
      ensures Now() == State(rows, fields, order, loaded)
    {
    }

    constructor (recordMode: bool, indexed: bool, disk: Loader, encode: Encode)
      requires ShortLoader(recordMode, disk)
      ensures Sound() && loaded == {} && fields.RecordMap? == recordMode && this.disk == disk && dirty
      ensures this.indexed == indexed && this.encode == encode && tokens == map[] && rows == {}
    {
      this.indexed, this.disk, this.encode := indexed, disk, encode;
      rows, order, loaded, tokens, index, dirty := {}, map[], {}, map[], Unbuilt, true;
      fields := if recordMode then RecordMap(map[]) else PlainMap(map[]);
    }

    /** `hyle_registry_put` on an ordered source. */
    method Put(row: string, entries: seq<Entry>)
      requires Good(Now()) && Owned(loaded, row) && (fields.PlainMap? ==> ShortNames(entries))
      modifies this`rows, this`fields, this`tokens, this`dirty
      ensures fields.RecordMap? == old(fields.RecordMap?)
      ensures Good(Now()) && Written(old(Now()), Now(), row, ItemOf(entries))
      ensures tokens == TokensAfter(encode, old(tokens), row, entries)
      ensures dirty == (old(dirty) || indexed) && Fresh()
    {
      hide *;
      NowIs();
      ghost var s := Now();
      PutReady(s, row);
      rows := rows + {row};
      var f, code := PutFields(fields, row, entries, tokens, encode, loaded, rows, PartOf(row), PosOf(row));
      PutIsWritten(s, f, row, ItemOf(entries));
      fields, tokens := f, code;
      if indexed {
        dirty := true;
      }
      NowIs();
      StaleIsFresh();
    }

    lemma StaleIsFresh()
      requires indexed ==> dirty
      ensures Fresh()
    {
    }

    /** `hyle_registry_del`; token streams stay. */
    method Del(row: string)
      requires Good(Now()) && (fields.PlainMap? ==> ApartFrom(loaded, row))
      modifies this`rows, this`fields, this`dirty
      ensures fields.RecordMap? == old(fields.RecordMap?)
      ensures Good(Now()) && Deleted(old(Now()), Now(), row)
      ensures dirty == (old(dirty) || indexed) && Fresh()
    {
      hide *;
      NowIs();
      ghost var s := Now();
      DelIsDeleted(s, row);
      rows := rows - {row};
      fields := fields.Delete(row);
      if indexed {
        dirty := true;
      }
      NowIs();
      StaleIsFresh();
    }

    /** `ordered_move_key`: the target is not live, so nothing live is overwritten.  Token streams
        do not move. */
    method MoveKey(pval: string, from: nat, to: nat)
      requires Good(Now()) && pval in loaded && from != to && !Live(Now(), pval, to)
      requires |Key(pval, from)| < KEY_BUFFER && |Key(pval, to)| < KEY_BUFFER
      modifies this`rows, this`fields, this`dirty
      ensures fields.RecordMap? == old(fields.RecordMap?)
      ensures Good(Now()) && Moved(old(Now()), Now(), Key(pval, from), Key(pval, to))
      ensures dirty == (old(dirty) || indexed) && Fresh()
    {
      hide *;
      NowIs();
      ghost var s := Now();
      MoveKeys(s, pval, from, to);
      var oldKey, newKey := BuildKey(pval, from), BuildKey(pval, to);
      var renamed := fields;
      if fields.RecordMap? {
        RecordCopy(s, oldKey, newKey);
        if oldKey in fields.recs {
          renamed := RecordMap(fields.recs[newKey := fields.recs[oldKey]]);
        }
      } else {
        PlainReady(s, {});
        PlainReady(s, rows + {newKey});
        var flat := RenameFields(fields.flat, oldKey, newKey, loaded, pval, from, to);
        renamed := PlainMap(flat);
      }
      MoveIsMoved(s, renamed, oldKey, newKey);
      rows := rows + {newKey} - {oldKey};
      fields := renamed.Delete(oldKey);
      if indexed {
        dirty := true;
      }
      NowIs();
      StaleIsFresh();
    }

    /** `ordered_ensure_loaded`: the first access loads and counts the partition. */
    method EnsureLoaded(pval: string) returns (ok: bool)
      requires Sound() && Room(pval, 0)
      modifies this
      ensures Sound() && ok == (pval != "")
      ensures !ok ==> Now() == old(Now())
      ensures fields.RecordMap? == old(fields.RecordMap?)
      ensures ok ==> pval in loaded && Items(pval) == old(Items(pval))
      ensures ok ==> OthersSame(old(Now()), Now(), disk, pval)
      ensures ok ==> Tails(old(Now()), Now(), pval, |Items(pval)|)
      ensures Dense(Now(), pval) <==> old(Dense(Now(), pval))
      ensures tokens == old(TokensLoaded(pval))
      ensures index == old(index) && (old(dirty) ==> dirty)
    {
      hide *;
      NowIs();
      ghost var s := Now();
      SoundParts();
      TokensAre(pval);
      if pval == "" {
        return false;
      }
      ItemsAre(pval);
      if pval in loaded {
        StaysSame(s, disk, pval);
        return true;
      }
      RoomParts(pval, 0);
      ghost var n0 := |Items(pval)|;
      loaded := loaded + {pval};
      ghost var items := ItemsOf(Disk(disk, pval));
      NowIs();
      LoadStart(s, pval, items);
      var batches := Disk(disk, pval);
      ghost var streams := tokens;
      NoTokens(encode, streams, pval, batches);
      for i := 0 to |batches|
        invariant Good(Now()) && Loading(s, Now(), pval, items, i) && fields.RecordMap? == s.fields.RecordMap?
        invariant Fresh() && tokens == LoadTokens(encode, streams, pval, batches[..i])
        invariant index == old(index) && (old(dirty) ==> dirty)
      {
        LoadTokensStep(encode, streams, pval, batches, i);
        NowIs();
        ghost var t := Now();
        CarriesBelow(pval, n0, i);
        LoadKeys(s, t, pval, items, i);
        BatchNames(s.fields.RecordMap?, disk, pval, i);
        Put(BuildKey(pval, i), batches[i]);
        LoadStep(s, t, Now(), pval, items, i);
      }
      NowIs();
      ghost var t := Now();
      var n := PartitionCount(rows, pval);
      LoadDone(s, t, disk, pval);
      order := order[pval := Digits(n)];
      NowIs();
      ItemsAre(pval);
      LoadSame(s, t, Now(), disk, pval);
      return true;
    }

    /** `hyle_ordered_count`. */
    method OrderedCount(pval: string) returns (n: nat)
      requires Sound() && Room(pval, 0)
      modifies this
      ensures Sound() && n == if pval == "" then 0 else |old(Items(pval))|
      ensures pval == "" ==> Now() == old(Now())
      ensures pval != "" ==> pval in loaded && Items(pval) == old(Items(pval))
      ensures pval != "" ==> OthersSame(old(Now()), Now(), disk, pval)
      ensures Dense(Now(), pval) <==> old(Dense(Now(), pval))
      ensures tokens == old(TokensLoaded(pval))
      ensures index == old(index) && (old(dirty) ==> dirty)
    {
      var ok := EnsureLoaded(pval);
      if !ok {
        return 0;
      }
      n := CachedCount(pval);
    }

    /** `atoi` of the cached numeral. */
    method CachedCount(pval: string) returns (n: nat)
      requires Sound() && pval in loaded
      ensures n == Count(Now(), pval) == |Items(pval)| && n <= INT_MAX
    {
      hide *;
      NowIs();
      ItemsAre(pval);
      SoundParts();
      LoadedCount(Now(), disk, pval);
      n := Val(order[pval]);
    }

    /** `hyle_ordered_key_at`: a key is built for any position, occupied or not. */
    method KeyAt(pval: string, pos: int) returns (key: Option<string>)
      requires Sound() && Room(pval, 0)
      modifies this
      ensures Sound() && key == if pval == "" then None else Some(BuildKey(pval, pos))
      ensures |Key(pval, pos)| < KEY_BUFFER ==> BuildKey(pval, pos) == Key(pval, pos)
      ensures pval != "" ==> pval in loaded && Items(pval) == old(Items(pval))
      ensures pval != "" ==> OthersSame(old(Now()), Now(), disk, pval)
      ensures tokens == old(TokensLoaded(pval))
      ensures index == old(index) && (old(dirty) ==> dirty)
    {
      hide *;
      KeyFacts(pval, pos);
      var ok := EnsureLoaded(pval);
      key := if ok then Some(BuildKey(pval, pos)) else None;
    }

    /** `hyle_ordered_append`. */
    method Append(pval: string, entries: seq<Entry>) returns (ok: bool)
      requires Sound() && Room(pval, 1) && (fields.PlainMap? ==> ShortNames(entries))
      modifies this
      ensures Sound() && ok == (pval != "")
      ensures !ok ==> Now() == old(Now())
      ensures fields.RecordMap? == old(fields.RecordMap?)
      ensures ok ==> pval in loaded && Items(pval) == Appended(old(Items(pval)), old(Past(pval)), ItemOf(entries))
      ensures ok ==> Tails(old(Now()), Now(), pval, |Items(pval)|)
      ensures ok ==> OthersSame(old(Now()), Now(), disk, pval)
      ensures old(Dense(Now(), pval)) ==> Dense(Now(), pval)
      ensures tokens == if !ok then old(tokens)
                        else TokensAfter(encode, old(TokensLoaded(pval)), Key(pval, |old(Items(pval))|), entries)
      ensures index == old(index) && (old(dirty) ==> dirty)
    {
      hide *;
      ghost var s0 := Now();
      ItemsAre(pval);
      TokensAre(pval);
      RoomShrinks(pval);
      ok := EnsureLoaded(pval);
      ItemsAre(pval);
      if !ok {
        return;
      }
      ghost var s := Now();
      var n := CachedCount(pval);
      AfterLoad(s0, s, pval);
      OpKeys(s, pval, n);
      Put(BuildKey(pval, n), entries);
      NowIs();
      AppendDone(s, Now(), disk, pval, ItemOf(entries));
      order := order[pval := Digits(n + 1)];
      NowIs();
      AfterOp(s0, s, pval, n, n + 1);
    }

    /** The loop of `hyle_ordered_insert_at`: the items from pos on move up, the last one first. */
    method ShiftUp(pval: string, pos: nat, n: nat)
      requires Sound() && pval in loaded && pos <= n == Count(Now(), pval) && Carries(pval, n + 1)
      modifies this`rows, this`fields, this`dirty
      ensures Good(Now()) && if pos < n then ShiftedUp(old(Now()), Now(), pval, pos - 1, n) else Now() == old(Now())
      ensures fields.RecordMap? == old(fields.RecordMap?) && Fresh() && (old(dirty) ==> dirty)
    {
      hide *;
      ghost var s := Now();
      SoundParts();
      NowIs();
      LoadedFacts(s, pval);
      var k: int := n;
      k := k - 1;
      if pos < n {
        ShiftUpStart(s, pval);
      }
      while k >= pos
        invariant pos - 1 <= k < n && Good(Now())
        invariant if pos < n then ShiftedUp(s, Now(), pval, k, n) else Now() == s
        invariant fields.RecordMap? == s.fields.RecordMap? && Fresh() && (old(dirty) ==> dirty)
      {
        ghost var t := Now();
        ShiftUpVacant(s, t, pval, k, n);
        CarriesBelow(pval, n + 1, k);
        CarriesBelow(pval, n + 1, k + 1);
        NowIs();
        MoveKey(pval, k, k + 1);
        ShiftUpStep(s, t, Now(), pval, k, n);
        k := k - 1;
      }
    }

    /** `hyle_ordered_insert_at`. */
    method InsertAt(pval: string, pos: int, entries: seq<Entry>) returns (ok: bool)
      requires Sound() && Room(pval, 1) && (fields.PlainMap? ==> ShortNames(entries))
      modifies this
      ensures Sound() && ok == (pval != "" && 0 <= pos <= |old(Items(pval))|)
      ensures ok ==> Items(pval)
                     == Inserted(fields.RecordMap?, old(Items(pval)), old(Past(pval)), pos, ItemOf(entries))
      ensures !ok ==> Items(pval) == old(Items(pval))
      ensures pval != "" ==> pval in loaded
      ensures pval != "" ==> Tails(old(Now()), Now(), pval, |Items(pval)|)
      ensures pval != "" ==> OthersSame(old(Now()), Now(), disk, pval)
      ensures old(Dense(Now(), pval)) ==> Dense(Now(), pval)
      ensures tokens == if !ok then old(TokensLoaded(pval))
                        else TokensAfter(encode, old(TokensLoaded(pval)), Key(pval, pos), entries)
      ensures index == old(index) && (old(dirty) ==> dirty)
    {
      hide *;
      ghost var s0 := Now();
      ItemsAre(pval);
      RoomShrinks(pval);
      ok := EnsureLoaded(pval);
      ItemsAre(pval);
      if !ok {
        return;
      }
      ghost var s := Now();
      var n := CachedCount(pval);
      AfterLoad(s0, s, pval);
      if pos < 0 || pos > n {
        return false;
      }
      ShiftUp(pval, pos, n);
      NowIs();
      ghost var t := Now();
      CarriesBelow(pval, n + 1, pos);
      OpKeys(s, pval, pos);
      NowIs();
      Put(BuildKey(pval, pos), entries);
      NowIs();
      InsertDone(s, t, Now(), disk, pval, pos, ItemOf(entries));
      order := order[pval := Digits(n + 1)];
      NowIs();
      AfterOp(s0, s, pval, n, n + 1);
    }

    /** The loop of `hyle_ordered_remove_at`: the items after pos move down. */
    method ShiftDown(pval: string, pos: nat, n: nat, ghost s: State)
      requires pos < n && Good(Now()) && pval in s.loaded && Carries(pval, n) && Fresh()
      requires ShiftedDown(s, Now(), pval, pos, pos)
      modifies this`rows, this`fields, this`dirty
      ensures Good(Now()) && ShiftedDown(s, Now(), pval, pos, n - 1)
      ensures fields.RecordMap? == old(fields.RecordMap?) && Fresh() && (old(dirty) ==> dirty)
    {
      hide *;
      var i := pos;
      while i < n - 1
        invariant pos <= i <= n - 1 && Good(Now()) && ShiftedDown(s, Now(), pval, pos, i)
        invariant fields.RecordMap? == old(fields.RecordMap?) && Fresh() && (old(dirty) ==> dirty)
      {
        ghost var t := Now();
        ShiftDownVacant(s, t, pval, pos, i);
        CarriesBelow(pval, n, i);
        CarriesBelow(pval, n, i + 1);
        NowIs();
        MoveKey(pval, i + 1, i);
        ShiftDownStep(s, t, Now(), pval, pos, i);
        i := i + 1;
      }
    }

    /** `hyle_ordered_remove_at`. */
    method RemoveAt(pval: string, pos: int)
      requires Sound() && Room(pval, 0)
      modifies this
      ensures Sound()
      ensures pval != "" && 0 <= pos < |old(Items(pval))| ==>
                && Items(pval) == Removed(fields.RecordMap?, old(Items(pval)), pos)
                && Past(pval) == Kept(fields.RecordMap?, old(Items(pval))[|old(Items(pval))| - 1])
      ensures !(pval != "" && 0 <= pos < |old(Items(pval))|) ==> Items(pval) == old(Items(pval))
      ensures pval != "" ==> pval in loaded
      ensures pval != "" ==> Tails(old(Now()), Now(), pval, |old(Items(pval))|)
      ensures pval != "" ==> OthersSame(old(Now()), Now(), disk, pval)
      ensures old(Dense(Now(), pval)) ==> Dense(Now(), pval)
      ensures tokens == old(TokensLoaded(pval))
      ensures index == old(index) && (old(dirty) ==> dirty)
    {
      hide *;
      ghost var s0 := Now();
      ItemsAre(pval);
      var ok := EnsureLoaded(pval);
      ItemsAre(pval);
      if !ok {
        return;
      }
      ghost var s := Now();
      var n := CachedCount(pval);
      AfterLoad(s0, s, pval);
      if pos < 0 || pos >= n {
        return;
      }
      CarriesBelow(pval, n, pos);
      OpKeys(s, pval, pos);
      Del(BuildKey(pval, pos));
      NowIs();
      ShiftDownStart(s, Now(), pval, pos);
      ShiftDown(pval, pos, n, s);
      NowIs();
      RemoveDone(s, Now(), disk, pval, pos);
      order := order[pval := Digits(n - 1)];
      NowIs();
      AfterOp(s0, s, pval, n, n);
    }

    /** The rebuild at the head of a full-text lookup. */
    method Refresh()
      requires Sound()
      modifies this`index, this`dirty
      ensures Sound() && Now() == old(Now()) && loaded == old(loaded)
      ensures indexed ==> index == BuiltFrom(rows, fields, tokens)
    {
      if indexed && dirty {
        index, dirty := BuiltFrom(rows, fields, tokens), false;
      }
    }

    /** `hyle_ordered_clear`. */
    method Clear(pval: string)
      requires Sound() && Room(pval, 0)
      modifies this
      ensures Sound() && (pval != "" ==> pval in loaded && Items(pval) == [] && Dense(Now(), pval))
      ensures pval == "" ==> Now() == old(Now())
      ensures pval != "" ==> Tails(old(Now()), Now(), pval, |old(Items(pval))|)
      ensures pval != "" ==> forall i: nat :: i < |old(Items(pval))| ==>
                Cell(Now(), pval, i) == Kept(fields.RecordMap?, old(Items(pval))[i])
      ensures pval != "" ==> OthersSame(old(Now()), Now(), disk, pval)
      ensures tokens == old(TokensLoaded(pval))
      ensures index == old(index) && (old(dirty) ==> dirty)
    {
      hide *;
      ghost var s0 := Now();
      ItemsAre(pval);
      var ok := EnsureLoaded(pval);
      ItemsAre(pval);
      if !ok {
        return;
      }
      ghost var s := Now();
      var n := CachedCount(pval);
      AfterLoad(s0, s, pval);
      ghost var streams := tokens;
      ClearStart(s, pval);
      for i := 0 to n
        invariant Good(Now()) && Cleared(s, Now(), pval, i)
        invariant order == s.order && loaded == s.loaded && fields.RecordMap? == s.fields.RecordMap?
        invariant Fresh() && tokens == streams && index == old(index) && (old(dirty) ==> dirty)
      {
        ghost var t := Now();
        CarriesBelow(pval, n, i);
        OpKeys(s, pval, i);
        Del(BuildKey(pval, i));
        ClearStep(s, t, Now(), pval, i);
        DeletedMaps(t, Now(), Key(pval, i));
        NowIs();
      }
      NowIs();
      ClearDone(s, Now(), disk, pval);
      order := order[pval := "0"];
      NowIs();
      AfterOp(s0, s, pval, n, n);
    }
  }
}
