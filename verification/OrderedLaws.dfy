/** What the ordered operations mean for callers: list laws, exactness, and whole runs. */
module OrderedLaws {
  import opened Collections
  import opened Text
  import opened Wrappers
  import opened Records
  import opened OrderedKeys
  import opened OrderedSources

  // ---- list operations -------------------------------------------------------

  function ListInsert(s: seq<Record>, pos: nat, x: Record): seq<Record>
    requires pos <= |s|
  {
    s[..pos] + [x] + s[pos..]
  }

  function ListRemove(s: seq<Record>, pos: nat): seq<Record>
    requires pos < |s|
  {
    s[..pos] + s[pos + 1..]
  }

  /** Record sources: every operation is the list operation, whatever was stored before. */
  lemma RecordModeIsList(s: seq<Record>, pos: nat, x: Record)
    ensures Appended(s, map[], x) == s + [x]
    ensures pos <= |s| ==> Inserted(true, s, map[], pos, x) == ListInsert(s, pos, x)
    ensures pos < |s| ==> Removed(true, s, pos) == ListRemove(s, pos)
  {
    assert forall c: Record :: map[] + c == c;
  }

  lemma OverlayIff(r: Record, x: Record)
    ensures r + x == x <==> r.Keys <= x.Keys
  {
    if r + x == x {
      assert (r + x).Keys == x.Keys;
    }
  }

  /** Plain sources: an append is a list append exactly when the stale row at its position has
      no field that the new item lacks. */
  lemma PlainAppendIff(s: seq<Record>, r: Record, x: Record)
    ensures Appended(s, r, x) == s + [x] <==> r.Keys <= x.Keys
  {
    OverlayIff(r, x);
    assert Appended(s, r, x)[|s|] == r + x;
    assert (s + [x])[|s|] == x;
  }

  /** A removal is a list removal exactly when no item has a field its successor lacks. */
  lemma PlainRemoveIff(s: seq<Record>, pos: nat)
    requires pos < |s|
    ensures Removed(false, s, pos) == ListRemove(s, pos)
            <==> forall j :: pos <= j < |s| - 1 ==> s[j].Keys <= s[j + 1].Keys
  {
    var t, l := Removed(false, s, pos), ListRemove(s, pos);
    forall j | pos <= j < |s| - 1
      ensures t[j] == l[j] <==> s[j].Keys <= s[j + 1].Keys
    {
      OverlayIff(s[j], s[j + 1]);
    }
    assert |t| == |l|;
    assert forall j :: 0 <= j < pos ==> t[j] == l[j];
    if forall j :: pos <= j < |s| - 1 ==> s[j].Keys <= s[j + 1].Keys {
      assert forall j :: 0 <= j < |t| ==> t[j] == l[j];
    }
  }

  /** An insertion is a list insertion exactly when the new item covers the fields it lands on
      and every shifted item covers those of the item, or stale row, it lands on. */
  lemma PlainInsertIff(s: seq<Record>, r: Record, pos: nat, x: Record)
    requires pos <= |s|
    ensures var w := s + [r];
            Inserted(false, s, r, pos, x) == ListInsert(s, pos, x)
            <==> w[pos].Keys <= x.Keys && forall j :: pos < j <= |s| ==> w[j].Keys <= s[j - 1].Keys
  {
    var w := s + [r];
    var t, l := Inserted(false, s, r, pos, x), ListInsert(s, pos, x);
    OverlayIff(w[pos], x);
    forall j | pos < j <= |s|
      ensures t[j] == l[j] <==> w[j].Keys <= s[j - 1].Keys
    {
      OverlayIff(w[j], s[j - 1]);
    }
    assert t[pos] == w[pos] + x && l[pos] == x;
    assert forall j :: 0 <= j < pos ==> t[j] == l[j];
    if w[pos].Keys <= x.Keys && forall j :: pos < j <= |s| ==> w[j].Keys <= s[j - 1].Keys {
      assert forall j :: 0 <= j < |t| ==> t[j] == l[j];
    }
  }

  /** Two items with different fields: removing the first leaves its extra field on the second. */
  lemma PlainRemoveLeaks()
    ensures var s := [map["name" := "a", "note" := "n"], map["name" := "b"]];
            Removed(false, s, 0) == [map["name" := "b", "note" := "n"]] != ListRemove(s, 0)
  {
    var s: seq<Record> := [map["name" := "a", "note" := "n"], map["name" := "b"]];
    assert s[0] + s[1] == map["name" := "b", "note" := "n"];
    assert Removed(false, s, 0) == [s[0] + s[1]];
    assert "note" in (s[0] + s[1]) && "note" !in s[1];
    assert ListRemove(s, 0) == [s[1]];
  }

  // ---- the cached count and the prefix scan --------------------------------------

  /** A live row of another partition that a scan for p counts. */
  ghost predicate Shadowed(s: State, p: string) {
    exists r :: r in s.rows && PartOf(r) != p && Shadows(PartOf(r), p)
  }

  function OwnKeys(p: string, n: nat): set<string> {
    set i | 0 <= i < n :: Key(p, i)
  }

  lemma {:induction false} OwnKeysSize(p: string, n: nat)
    ensures |OwnKeys(p, n)| == n
  {
    hide Key;
    if n > 0 {
      OwnKeysSize(p, n - 1);
      assert OwnKeys(p, n) == OwnKeys(p, n - 1) + {Key(p, n - 1)};
      forall i | 0 <= i < n - 1 ensures Key(p, i) != Key(p, n - 1) {
        KeyInjective(p, i, p, n - 1);
      }
    }
  }

  /** In a dense partition the cached count equals a fresh prefix scan exactly when no live row
      of another partition is counted along with its own. */
  lemma CacheAgreesIff(s: State, p: string)
    requires Valid(s) && p in s.loaded && Dense(s, p)
    ensures |Hits(s.rows, p)| == Count(s, p) <==> !Shadowed(s, p)
  {
    hide Key, PartOf, PosOf, Good, Counted, Count, Shadows, CountedAs;
    var own := OwnKeys(p, Count(s, p));
    OwnKeysSize(p, Count(s, p));
    forall r | r in own ensures r in Hits(s.rows, p) {
      var i: nat :| i < Count(s, p) && r == Key(p, i);
      OwnHit(s, p, i);
    }
    forall r | r in Hits(s.rows, p)
      ensures r in own <==> PartOf(r) == p
      ensures Shadows(PartOf(r), p)
    {
      HitRow(s, p, r);
      OwnIff(s, p, r);
    }
    if Shadowed(s, p) {
      var r :| r in s.rows && PartOf(r) != p && Shadows(PartOf(r), p);
      HitRow(s, p, r);
      OwnIff(s, p, r);
      assert own < Hits(s.rows, p);
      StrictlySmaller(own, Hits(s.rows, p));
    } else {
      assert own == Hits(s.rows, p);
    }
  }

  lemma StrictlySmaller(a: set<string>, b: set<string>)
    requires a < b
    ensures |a| < |b|
  {
    var x :| x in b && x !in a;
    assert |a| <= |b - {x}| by {
      SubsetSize(a, b - {x});
    }
  }

  lemma OwnHit(s: State, p: string, i: nat)
    requires Dense(s, p) && p in s.loaded && i < Count(s, p)
    ensures Key(p, i) in Hits(s.rows, p)
  {
    CountedAsIff(p, p, i);
    assert Live(s, p, i);
  }

  lemma HitRow(s: State, p: string, r: string)
    requires Valid(s) && r in s.rows
    ensures r in Hits(s.rows, p) <==> Shadows(PartOf(r), p)
  {
    hide Key, Shadows, Good;
    RowKey(s, r);
    CountedAsIff(p, PartOf(r), PosOf(r));
  }

  lemma OwnIff(s: State, p: string, r: string)
    requires Valid(s) && r in s.rows
    ensures r in OwnKeys(p, Count(s, p)) <==> PartOf(r) == p
  {
    hide Key, Good, Count, PartOf, PosOf;
    RowKey(s, r);
    RowBelow(s, r);
    forall i | 0 <= i < Count(s, p) && r == Key(p, i) ensures PartOf(r) == p {
      KeyFacts(p, i);
    }
  }

  lemma RowBelow(s: State, r: string)
    requires Valid(s) && r in s.rows
    ensures PosOf(r) < Count(s, PartOf(r))
  {
    hide Good, PartOf, PosOf, Count;
  }

  /** What a first access finds is what the loader supplies, exactly when no live row of a
      loaded partition is counted along. */
  lemma FirstAccessIff(s: State, disk: Loader, p: string)
    requires Valid(s) && p !in s.loaded
    ensures View(s, disk, p) == ItemsOf(Disk(disk, p)) <==> !Shadowed(s, p)
    ensures Dense(s, p) <==> !Shadowed(s, p)
  {
    hide Key, Shadows, Good;
    forall r | r in s.rows ensures r in Hits(s.rows, p) <==> Shadows(PartOf(r), p) && PartOf(r) != p {
      HitRow(s, p, r);
      RowKey(s, r);
    }
    if Hits(s.rows, p) != {} {
      var r :| r in Hits(s.rows, p);
      assert |View(s, disk, p)| > |ItemsOf(Disk(disk, p))|;
    } else {
      assert View(s, disk, p) == ItemsOf(Disk(disk, p));
    }
  }

  /** One item appended to a partition of a new source: what a caller then sees of another one. */
  method TwoPartitions(recordMode: bool, e: Entry, p: string, q: string) returns (src: OrderedSource, n: nat)
    requires p != "" && q != "" && p != q && Carries(p, 1) && Carries(q, 1)
    requires Parted(recordMode, p, q) && (recordMode || ShortNames([e]))
    ensures fresh(src) && src.Sound() && p in src.loaded && q in src.loaded
    ensures src.Items(q) == [ItemOf([e])] && Dense(src.Now(), q)
    ensures src.Items(p) == Blank(n) && n == if Shadows(q, p) then 1 else 0
    ensures Dense(src.Now(), p) <==> !Shadows(q, p)
  {
    hide *;
    src := new OrderedSource(recordMode, true, map[], encode => None) by { NoLoader(); }
    NewSource(src, q, e);
    ghost var s0 := src.Now();
    var _ := src.Append(q, [e]);
    ghost var s := src.Now();
    OneLoaded(src, s0, q);
    OneItem(src, p, q, e);
    n := src.OrderedCount(p);
    OneItemKept(src, s, p, q);
  }

  lemma OneLoaded(src: OrderedSource, s0: State, q: string)
    requires OthersSame(s0, src.Now(), src.disk, q) && s0.loaded <= {q} && q in src.loaded
    ensures src.loaded == {q} == src.Now().loaded && src.Items(q) == View(src.Now(), src.disk, q)
  {
    assert src.Now().loaded <= {q} + {q};
  }

  lemma NoLoader()
    ensures forall record :: ShortLoader(record, map[])
  {
  }

  lemma NewSource(src: OrderedSource, p: string, e: Entry)
    requires src.Sound() && src.loaded == {} && src.rows == {} && src.disk == map[]
    requires p != "" && Carries(p, 1)
    ensures src.Items(p) == [] && Dense(src.Now(), p) && src.Now().loaded == {} && p != "" && src.Room(p, 1)
    ensures Appended(src.Items(p), src.Past(p), ItemOf([e])) == [ItemOf([e])]
  {
    NothingSeen(src.Now(), p);
    src.SoundParts();
    src.ItemsAre(p);
    hide Key, Good, Counted, Cell, View, Dense, Valid, ItemOf;
    UnloadedCell(src.Now(), p, 0);
    OverlayNothing(ItemOf([e]));
  }

  lemma NothingSeen(s: State, p: string)
    requires s.rows == {} && s.loaded == {}
    ensures Dense(s, p) && View(s, map[], p) == []
  {
    assert Hits(s.rows, p) == {};
  }

  lemma OverlayNothing(x: Record)
    ensures map[] + x == x
  {
  }

  lemma OneItem(src: OrderedSource, p: string, q: string, e: Entry)
    requires src.Sound() && src.loaded == {q} && src.disk == map[] && src.Items(q) == [ItemOf([e])]
    requires Dense(src.Now(), q) && p != "" && Carries(p, 1) && Parted(src.fields.RecordMap?, p, q) && p != q
    ensures p != "" && src.Room(p, 0) && src.Items(p) == Blank(if Shadows(q, p) then 1 else 0)
    ensures Dense(src.Now(), p) <==> !Shadows(q, p)
  {
    hide Key, Good, Counted, Dense, Shadows, Separate, Cell;
    ViewCells(src.Now(), src.disk, q);
    OneRow(src.Now(), p, q);
    src.ItemsAre(p);
    FirstAccessIff(src.Now(), src.disk, p);
  }

  lemma OneItemKept(src: OrderedSource, s: State, p: string, q: string)
    requires OthersSame(s, src.Now(), src.disk, p) && p != q && s.loaded == {q} && Dense(s, q)
    ensures src.Items(q) == View(s, src.disk, q) && q in src.loaded && Dense(src.Now(), q)
  {
  }

  lemma OneRow(s: State, p: string, q: string)
    requires Valid(s) && s.loaded == {q} && p != q && Count(s, q) == 1 && Dense(s, q)
    ensures Hits(s.rows, p) == if Shadows(q, p) then {Key(q, 0)} else {}
  {
    assert Live(s, q, 0);
    forall r | r in s.rows ensures r == Key(q, 0) {
      OnlyOneRow(s, q, r);
    }
    CountedAsIff(p, q, 0);
    hide Key, Valid, Shadows, CountedAs;
  }

  lemma OnlyOneRow(s: State, q: string, r: string)
    requires Valid(s) && s.loaded == {q} && Count(s, q) == 1 && r in s.rows
    ensures r == Key(q, 0)
  {
    hide Key, PartOf, PosOf, Good, Count;
    RowKey(s, r);
    RowBelow(s, r);
  }

  /** A state with one row in partition q, where p was accessed first. */
  function OneRowState(p: string, q: string, record: Record): State {
    State({Key(q, 0)}, RecordMap(map[Key(q, 0) := record]), map[p := "0", q := "1"], {p, q})
  }

  /** Accessed first, "a" keeps a count of 0 while a scan for it finds the row of "a__b". */
  lemma CacheMisses(record: Record)
    ensures var s := OneRowState("a", "a__b", record);
            && Valid(s) && Dense(s, "a") && Dense(s, "a__b")
            && Count(s, "a") == 0 && Hits(s.rows, "a") == {Key("a__b", 0)}
  {
    CountedAsIff("a", "a__b", 0);
    CarriesFour("a__b", 1);
    hide Key, Good, Counted, Dense, Count;
    assert "a" + "__" <= "a__b" + "__";
    OneRowValid("a", "a__b", record);
  }

  lemma OneRowValid(p: string, q: string, record: Record)
    requires p != "" && q != "" && p != q && Carries(q, 1)
    ensures var s := OneRowState(p, q, record); Valid(s) && Dense(s, p) && Dense(s, q) && Count(s, p) == 0
  {
    OneRowGood(p, q, record);
    OneRowCounts(p, q, record);
    hide *;
    OneRowDense(p, q, OneRowState(p, q, record));
  }

  lemma OneRowDense(p: string, q: string, s: State)
    requires Good(s) && Carries(q, 1) && s.loaded == {p, q} && s.rows == {Key(q, 0)} && s.order.Keys == s.loaded
    requires Count(s, p) == 0 && Count(s, q) == 1 && s.order[p] == Digits(0) && s.order[q] == Digits(1)
    ensures Valid(s) && Dense(s, p) && Dense(s, q)
  {
    hide Key, PartOf, PosOf, Good, Count, Digits, Carries;
    KeyDecodes(q, 0);
    CarriesNone(p);
  }

  lemma CarriesNone(p: string)
    ensures Carries(p, 0)
  {
  }

  lemma OneRowGood(p: string, q: string, record: Record)
    requires p != "" && q != "" && Carries(q, 1)
    ensures Good(OneRowState(p, q, record))
  {
    KeyDecodes(q, 0);
    hide Key, PartOf, PosOf;
  }

  lemma OneRowCounts(p: string, q: string, record: Record)
    requires p != q
    ensures var s := OneRowState(p, q, record);
            && Count(s, p) == 0 && Count(s, q) == 1 && s.order[p] == Digits(0) && s.order[q] == Digits(1)
            && s.order.Keys == s.loaded && s.rows == {Key(q, 0)} && s.loaded == {p, q}
  {
    hide Key;
    assert Digits(0) == "0" && Digits(1) == "1";
    ValOfDigits(0);
    ValOfDigits(1);
    hide Digits, Val;
  }

  /** Partitions are separate exactly when no fields of theirs can share a flat key. */
  lemma SeparateIff(p: string, q: string)
    requires p != q
    ensures Separate(p, q)
            <==> forall i: nat, j: nat, f, g :: Comp(Key(p, i), f) != Comp(Key(q, j), g)
  {
    hide Key, Apart;
    if Separate(p, q) {
      forall i: nat, j: nat, f, g ensures Comp(Key(p, i), f) != Comp(Key(q, j), g) {
        SeparateRows(p, i, q, j);
        KeyInjective(p, i, q, j);
        CompInjective(Key(p, i), f, Key(q, j), g);
      }
    } else {
      var i: nat :| Key(p, i) + ":" <= q || Key(q, i) + ":" <= p;
      if Key(p, i) + ":" <= q {
        RowInside(p, i, q);
      } else {
        RowInside(q, i, p);
      }
    }
  }

  lemma RowInside(p: string, i: nat, q: string)
    requires Key(p, i) + ":" <= q
    ensures exists f, g :: Comp(Key(p, i), f) == Comp(Key(q, 0), g)
  {
    var f := (Key(q, 0) + ":")[|Key(p, i)| + 1..];
    hide Pos04;
    assert Comp(Key(p, i), f) == Comp(Key(q, 0), "");
  }

  /** Rows of "a" and of "a__0000:b": a field written to the second shows up on the first. */
  lemma ColonRowsCollide(x: string, y: string)
    ensures var (r, r') := (Key("a", 0), Key("a__0000:b", 0));
            && r == "a__0000" && !Separate("a", "a__0000:b")
            && PlainMap(map[]).Write(r, "t", x).Write(r', "t", y).Read(r)
               == map["t" := x, "b__0000:t" := y]
  {
    assert Digits(0) == "0" && Pos04(0) == "0000";
    var (r, r') := (Key("a", 0), Key("a__0000:b", 0));
    assert r == "a__0000" && r' == "a__0000:b__0000";
    assert Comp(r, "t") == "a__0000:t" && Comp(r', "t") == Comp(r, "b__0000:t") == "a__0000:b__0000:t";
    hide Key;
    assert Key("a", 0) + ":" <= "a__0000:b";
    ApartSelf(r);
    ReadAfterWrite(PlainMap(map[]), r, "t", x);
    ReadAfterWrite(PlainMap(map[]).Write(r, "t", x), r, "b__0000:t", y);
    assert PlainMap(map[]).Read(r) == map[];
  }

  /** Removing the first of two items moves the second item's fields but not its token streams:
      its row keeps those of the removed text. */
  method RemoveKeepsTokens(encode: Encode, a: string, b: string) returns (src: OrderedSource)
    requires encode(a).Some? && encode(b).Some?
    ensures fresh(src) && src.Sound() && src.Items("p") == [map["t" := b]]
    ensures var (first, second) := (TokenKey(Key("p", 0), "t"), TokenKey(Key("p", 1), "t"));
            first != second && src.tokens == map[first := encode(a).value, second := encode(b).value]
  {
    src := new OrderedSource(true, true, map[], encode) by { NoLoader(); }
    hide *;
    TextSource(src);
    AppendText(src, a);
    AppendText(src, b);
    TwoTexts(src.Items("p"), src.tokens, encode, a, b);
    src.RemoveAt("p", 0);
  }

  lemma TwoTexts(seen: seq<Record>, tokens: TokenMap, encode: Encode, a: string, b: string)
    requires encode(a).Some? && encode(b).Some? && seen == [] + [map["t" := a]] + [map["t" := b]]
    requires tokens == map[][TokenKey(Key("p", 0), "t") := encode(a).value]
                       [TokenKey(Key("p", 1), "t") := encode(b).value]
    ensures |seen| == 2 && Removed(true, seen, 0) == [map["t" := b]]
    ensures var (first, second) := (TokenKey(Key("p", 0), "t"), TokenKey(Key("p", 1), "t"));
            first != second && tokens == map[first := encode(a).value, second := encode(b).value]
  {
    RecordModeIsList(seen, 0, map[]);
    assert Digits(0) == "0" && Digits(1) == "1";
    assert Comp(Key("p", 0), "t") == "p__0000:t" && Comp(Key("p", 1), "t") == "p__0001:t";
    assert TokenKey(Key("p", 0), "t")[..7][6] == '0' && TokenKey(Key("p", 1), "t")[..7][6] == '1';
  }

  method AppendText(src: OrderedSource, a: string)
    requires src.Sound() && src.fields.RecordMap? && src.encode(a).Some? && |src.Items("p")| < 10
    requires src.Room("p", 1) && src.TokensLoaded("p") == src.tokens && src.Past("p") == map[]
    modifies src
    ensures src.Sound() && src.fields.RecordMap? && src.Items("p") == old(src.Items("p")) + [map["t" := a]]
    ensures src.tokens == old(src.tokens)[TokenKey(Key("p", |old(src.Items("p"))|), "t") := src.encode(a).value]
    ensures src.Room("p", 1) && src.TokensLoaded("p") == src.tokens && src.Past("p") == map[] && src.Room("p", 0)
  {
    hide *;
    src.NowIs();
    ghost var s, seen := src.Now(), src.Items("p");
    TextItem(src.encode, src.tokens, a, |seen|);
    var _ := src.Append("p", [Entry(Some("t"), Some(a))]);
    assert src.Items("p") == seen + [map["t" := a]] by {
      RecordModeIsList(seen, 0, map["t" := a]);
    }
    Performed(src, s, "p");
    TextRoom(src);
  }

  lemma TextItem(encode: Encode, tokens: TokenMap, a: string, i: nat)
    requires encode(a).Some?
    ensures var x := [Entry(Some("t"), Some(a))];
            && ItemOf(x) == map["t" := a] && ShortNames(x)
            && TokensAfter(encode, tokens, Key("p", i), x) == tokens[TokenKey(Key("p", i), "t") := encode(a).value]
  {
    var x := [Entry(Some("t"), Some(a))];
    assert x[..0] == [];
  }

  lemma TextSource(src: OrderedSource)
    requires src.Sound() && src.loaded == {} && src.rows == {} && src.disk == map[] && src.tokens == map[]
    ensures src.Items("p") == [] && src.Past("p") == map[] && src.Room("p", 1)
    ensures src.TokensLoaded("p") == map[]
  {
    assert Hits(src.rows, "p") == {};
    CarriesFour("p", 1);
    UnloadedCell(src.Now(), "p", 0);
  }

  lemma TextRoom(src: OrderedSource)
    requires src.Sound() && "p" in src.loaded && src.fields.RecordMap? && |src.Items("p")| < 12
    ensures src.Room("p", 1) && src.Room("p", 0) && src.Past("p") == map[]
    ensures src.TokensLoaded("p") == src.tokens
  {
    var n := |src.Items("p")|;
    CarriesFour("p", n + 1);
    CarriesBelow("p", n + 1, n);
    hide View, Cell, Good, Counted, Carries;
    RecordPast(src.Now(), src.disk, "p");
  }

  // ---- runs --------------------------------------------------------------------

  datatype Op =
    | Append(entries: seq<Entry>)
    | InsertAt(pos: int, entries: seq<Entry>)
    | RemoveAt(pos: int)
    | Clear
    | Lookup   // a full-text lookup, which rebuilds a stale index first

  /** The operation on a list; positions out of range change nothing. */
  function ListApply(s: seq<Record>, op: Op): (t: seq<Record>)
    ensures |t| <= |s| + 1
  {
    match op
    case Append(e) => s + [ItemOf(e)]
    case InsertAt(pos, e) => if 0 <= pos <= |s| then ListInsert(s, pos, ItemOf(e)) else s
    case RemoveAt(pos) => if 0 <= pos < |s| then ListRemove(s, pos) else s
    case Clear => []
    case Lookup => s
  }

  /** The operations of a log that concern p, applied in order. */
  function Replay(s: seq<Record>, log: seq<(string, Op)>, p: string): seq<Record> {
    if log == [] then s
    else
      var last := log[|log| - 1];
      var before := Replay(s, log[..|log| - 1], p);
      if last.0 == p then ListApply(before, last.1) else before
  }

  predicate Writes(op: Op, names: set<string>) {
    (op.Append? || op.InsertAt?) ==> ShortNames(op.entries) && ItemOf(op.entries).Keys == names
  }

  predicate Short(op: Op) {
    (op.Append? || op.InsertAt?) ==> ShortNames(op.entries)
  }

  /** Record sources always are; a plain source is when all items of p have the same fields and
      the stale rows past the end have no others. */
  ghost predicate Regular(s: State, disk: Loader, p: string, names: set<string>) {
    s.fields.RecordMap? ||
    (&& (forall c :: c in View(s, disk, p) ==> c.Keys == names)
     && (forall i: nat :: i >= |View(s, disk, p)| ==> Cell(s, p, i).Keys <= names))
  }

  lemma RecordPast(s: State, disk: Loader, p: string)
    requires Valid(s) && s.fields.RecordMap?
    ensures Cell(s, p, |View(s, disk, p)|) == map[]
  {
    hide Good, Counted, Cell, View;
    if p in s.loaded {
      LoadedCount(s, disk, p);
      PastEnd(s, p, Count(s, p));
    } else {
      UnloadedCell(s, p, |View(s, disk, p)|);
    }
  }

  lemma RegularInsert(s: State, t: State, disk: Loader, p: string, names: set<string>, pos: nat, x: Record)
    requires Valid(s) && Regular(s, disk, p, names) && pos <= |View(s, disk, p)|
    requires s.fields.RecordMap? || x.Keys == names
    requires t.fields.RecordMap? <==> s.fields.RecordMap?
    requires var seen, past := View(s, disk, p), Cell(s, p, |View(s, disk, p)|);
             || View(t, disk, p) == Inserted(s.fields.RecordMap?, seen, past, pos, x)
             || (pos == |seen| && View(t, disk, p) == Appended(seen, past, x))
    requires Tails(s, t, p, |View(t, disk, p)|)
    ensures View(t, disk, p) == ListInsert(View(s, disk, p), pos, x)
    ensures Regular(t, disk, p, names)
  {
    hide Valid, View, Cell, Inserted, Appended, ListInsert;
    var seen, past := View(s, disk, p), Cell(s, p, |View(s, disk, p)|);
    AppendIsInsert(seen, x);
    if s.fields.RecordMap? {
      RecordPast(s, disk, p);
      RecordModeIsList(seen, pos, x);
    } else {
      assert past.Keys <= names;
      assert forall i :: 0 <= i < |seen| ==> seen[i] in seen;
      PlainInsertIff(seen, past, pos, x);
      PlainAppendIff(seen, past, x);
      InsertKeys(seen, pos, x, names);
    }
  }

  lemma InsertKeys(s: seq<Record>, pos: nat, x: Record, names: set<string>)
    requires pos <= |s| && x.Keys == names && forall c :: c in s ==> c.Keys == names
    ensures forall c :: c in ListInsert(s, pos, x) ==> c.Keys == names
    ensures |ListInsert(s, pos, x)| == |s| + 1
  {
  }

  lemma RegularRemove(s: State, t: State, disk: Loader, p: string, names: set<string>, pos: nat)
    requires Regular(s, disk, p, names) && pos < |View(s, disk, p)|
    requires t.fields.RecordMap? <==> s.fields.RecordMap?
    requires var seen := View(s, disk, p);
             && View(t, disk, p) == Removed(s.fields.RecordMap?, seen, pos)
             && Cell(t, p, |seen| - 1) == Kept(s.fields.RecordMap?, seen[|seen| - 1])
             && Tails(s, t, p, |seen|)
    ensures View(t, disk, p) == ListRemove(View(s, disk, p), pos)
    ensures Regular(t, disk, p, names)
  {
    hide View, Cell;
    var seen := View(s, disk, p);
    if s.fields.RecordMap? {
      RecordModeIsList(seen, pos, map[]);
    } else {
      assert forall i :: 0 <= i < |seen| ==> seen[i] in seen;
      PlainRemoveIff(seen, pos);
    }
  }

  lemma RegularClear(s: State, t: State, disk: Loader, p: string, names: set<string>)
    requires Regular(s, disk, p, names) && View(t, disk, p) == []
    requires t.fields.RecordMap? <==> s.fields.RecordMap?
    requires forall i: nat :: i < |View(s, disk, p)| ==>
               Cell(t, p, i) == Kept(s.fields.RecordMap?, View(s, disk, p)[i])
    requires Tails(s, t, p, |View(s, disk, p)|)
    ensures Regular(t, disk, p, names)
  {
    hide View, Cell;
    var seen := View(s, disk, p);
    assert forall i :: 0 <= i < |seen| ==> seen[i] in seen;
  }

  lemma RegularOther(s: State, t: State, disk: Loader, p: string, q: string, names: set<string>)
    requires Regular(s, disk, q, names) && OthersSame(s, t, disk, p) && Parted(s.fields.RecordMap?, p, q)
    requires q != p && (q in s.loaded || !Shadows(p, q))
    ensures Regular(t, disk, q, names) && View(t, disk, q) == View(s, disk, q)
    ensures Dense(t, q) <==> Dense(s, q)
  {
    hide View, Cell, Parted, Shadows, Dense;
  }

  /** The token streams once the operation is done on a loaded partition of n items. */
  function OpTokens(encode: Encode, tokens: TokenMap, p: string, n: nat, op: Op): TokenMap {
    match op
    case Append(e) => TokensAfter(encode, tokens, Key(p, n), e)
    case InsertAt(pos, e) => if 0 <= pos <= n then TokensAfter(encode, tokens, Key(p, pos), e) else tokens
    case _ => tokens
  }

  /** From s to t an operation on p did to its list what the operation means, and nothing to others. */
  ghost predicate Performs(s: State, t: State, disk: Loader, p: string, op: Op, names: set<string>) {
    && View(t, disk, p) == ListApply(View(s, disk, p), op)
    && OthersSame(s, t, disk, p) && Regular(t, disk, p, names)
    && (t.fields.RecordMap? <==> s.fields.RecordMap?) && (Dense(s, p) ==> Dense(t, p))
    && (if op.Lookup? then t.loaded == s.loaded else p in t.loaded)
  }

  method Perform(src: OrderedSource, p: string, op: Op, ghost names: set<string>)
    requires src.Sound() && p != "" && src.Room(p, 1) && (src.fields.RecordMap? || Short(op))
    requires Regular(src.Now(), src.disk, p, names) && (src.fields.RecordMap? || Writes(op, names))
    modifies src
    ensures src.Sound() && src.Items(p) == ListApply(old(src.Items(p)), op)
    ensures Performs(old(src.Now()), src.Now(), src.disk, p, op, names)
    ensures src.tokens == if op.Lookup? then old(src.tokens)
                          else OpTokens(src.encode, old(src.TokensLoaded(p)), p, |old(src.Items(p))|, op)
  {
    hide *;
    ghost var s, seen := src.Now(), src.Items(p);
    src.NowIs();
    src.ItemsAre(p);
    OpCases(seen, op, names);
    OpTokensAre(src.encode, src.TokensLoaded(p), p, |seen|, op);
    match op {
      case Append(e) => PerformAppend(src, p, e, op, names);
      case InsertAt(pos, e) => PerformInsert(src, p, pos, e, op, names);
      case RemoveAt(pos) => PerformRemove(src, p, pos, op, names);
      case Clear => PerformClear(src, p, op, names);
      case Lookup =>
        src.Refresh();
        PerformsNothing(s, src.disk, p, op, names);
    }
    src.ItemsAre(p);
    PerformedList(s, src.Now(), src.disk, p, op, names);
  }

  method PerformAppend(src: OrderedSource, p: string, entries: seq<Entry>, ghost op: Op, ghost names: set<string>)
    requires src.Sound() && p != "" && src.Room(p, 1) && op == Append(entries)
    requires (src.fields.RecordMap? || ShortNames(entries)) && Regular(src.Now(), src.disk, p, names)
    requires src.fields.RecordMap? || ItemOf(entries).Keys == names
    modifies src
    ensures src.Sound() && Performs(old(src.Now()), src.Now(), src.disk, p, op, names)
    ensures src.tokens == TokensAfter(src.encode, old(src.TokensLoaded(p)), Key(p, |old(src.Items(p))|), entries)
  {
    hide *;
    ghost var s := src.Now();
    Before(src, p);
    var _ := src.Append(p, entries);
    Performed(src, s, p);
    OpCases(View(s, src.disk, p), op, names);
    RegularInsert(s, src.Now(), src.disk, p, names, |View(s, src.disk, p)|, ItemOf(entries));
    PerformsAll(s, src.Now(), src.disk, p, op, names);
  }

  method PerformInsert(src: OrderedSource, p: string, pos: int, entries: seq<Entry>, ghost op: Op,
                       ghost names: set<string>)
    requires src.Sound() && p != "" && src.Room(p, 1) && op == InsertAt(pos, entries)
    requires (src.fields.RecordMap? || ShortNames(entries)) && Regular(src.Now(), src.disk, p, names)
    requires src.fields.RecordMap? || ItemOf(entries).Keys == names
    modifies src
    ensures src.Sound() && Performs(old(src.Now()), src.Now(), src.disk, p, op, names)
    ensures src.tokens == if 0 <= pos <= |old(src.Items(p))|
                          then TokensAfter(src.encode, old(src.TokensLoaded(p)), Key(p, pos), entries)
                          else old(src.TokensLoaded(p))
  {
    hide *;
    ghost var s := src.Now();
    Before(src, p);
    var ok := src.InsertAt(p, pos, entries);
    Performed(src, s, p);
    InsertedOrNot(s, src.Now(), src.disk, p, names, op, ok);
    PerformsAll(s, src.Now(), src.disk, p, op, names);
  }

  method PerformRemove(src: OrderedSource, p: string, pos: int, ghost op: Op, ghost names: set<string>)
    requires src.Sound() && p != "" && src.Room(p, 1) && op == RemoveAt(pos)
    requires Regular(src.Now(), src.disk, p, names)
    modifies src
    ensures src.Sound() && Performs(old(src.Now()), src.Now(), src.disk, p, op, names)
    ensures src.tokens == old(src.TokensLoaded(p))
  {
    hide *;
    ghost var s := src.Now();
    Before(src, p);
    src.RemoveAt(p, pos);
    Performed(src, s, p);
    RemovedOrNot(s, src.Now(), src.disk, p, names, op);
    PerformsAll(s, src.Now(), src.disk, p, op, names);
  }

  method PerformClear(src: OrderedSource, p: string, ghost op: Op, ghost names: set<string>)
    requires src.Sound() && p != "" && src.Room(p, 1) && op == Clear
    requires Regular(src.Now(), src.disk, p, names)
    modifies src
    ensures src.Sound() && Performs(old(src.Now()), src.Now(), src.disk, p, op, names)
    ensures src.tokens == old(src.TokensLoaded(p))
  {
    hide *;
    ghost var s := src.Now();
    Before(src, p);
    src.Clear(p);
    Performed(src, s, p);
    RegularClear(s, src.Now(), src.disk, p, names);
    OpCases(View(s, src.disk, p), op, names);
    PerformsAll(s, src.Now(), src.disk, p, op, names);
  }

  lemma Before(src: OrderedSource, p: string)
    requires src.Sound() && src.Room(p, 1)
    ensures src.Now().fields == src.fields && Valid(src.Now()) && src.Room(p, 0)
    ensures src.Items(p) == View(src.Now(), src.disk, p)
    ensures src.Past(p) == Cell(src.Now(), p, |View(src.Now(), src.disk, p)|)
  {
    src.RoomShrinks(p);
    hide Valid, View, Cell, Key, BuildKey, Carries;
  }

  lemma PerformsAll(s: State, t: State, disk: Loader, p: string, op: Op, names: set<string>)
    requires View(t, disk, p) == ListApply(View(s, disk, p), op)
    requires OthersSame(s, t, disk, p) && Regular(t, disk, p, names) && (Dense(s, p) ==> Dense(t, p))
    requires !op.Lookup? && p in t.loaded
    ensures Performs(s, t, disk, p, op, names)
  {
    hide View, Dense, Regular, ListApply, Cell;
  }

  lemma PerformsNothing(s: State, disk: Loader, p: string, op: Op, names: set<string>)
    requires op.Lookup? && Regular(s, disk, p, names)
    ensures Performs(s, s, disk, p, op, names)
  {
    StaysSame(s, disk, p);
    hide View, Dense, Regular, OthersSame;
  }

  lemma PerformedList(s: State, t: State, disk: Loader, p: string, op: Op, names: set<string>)
    requires Performs(s, t, disk, p, op, names)
    ensures View(t, disk, p) == ListApply(View(s, disk, p), op) && OthersSame(s, t, disk, p)
    ensures Regular(t, disk, p, names) && (t.fields.RecordMap? <==> s.fields.RecordMap?)
    ensures Dense(s, p) ==> Dense(t, p)
    ensures if op.Lookup? then t.loaded == s.loaded else p in t.loaded
  {
    hide View, Dense, Regular, OthersSame, ListApply;
  }

  lemma InsertedOrNot(s: State, t: State, disk: Loader, p: string, names: set<string>, op: Op, ok: bool)
    requires op.InsertAt? && Valid(s) && Regular(s, disk, p, names) && (t.fields.RecordMap? <==> s.fields.RecordMap?)
    requires ok <==> 0 <= op.pos <= |View(s, disk, p)|
    requires s.fields.RecordMap? || ItemOf(op.entries).Keys == names
    requires var seen := View(s, disk, p);
             View(t, disk, p)
             == if ok then Inserted(s.fields.RecordMap?, seen, Cell(s, p, |seen|), op.pos, ItemOf(op.entries)) else seen
    requires Tails(s, t, p, |View(t, disk, p)|)
    ensures View(t, disk, p) == ListApply(View(s, disk, p), op) && Regular(t, disk, p, names)
  {
    hide Valid, View, Cell, Inserted, ListInsert, Regular, Tails, ItemOf;
    if ok {
      RegularInsert(s, t, disk, p, names, op.pos, ItemOf(op.entries));
    } else {
      RegularLoad(s, t, disk, p, names);
    }
  }

  lemma RemovedOrNot(s: State, t: State, disk: Loader, p: string, names: set<string>, op: Op)
    requires op.RemoveAt? && Regular(s, disk, p, names) && (t.fields.RecordMap? <==> s.fields.RecordMap?)
    requires var seen, record := View(s, disk, p), s.fields.RecordMap?;
             && Tails(s, t, p, |seen|)
             && if 0 <= op.pos < |seen| then
                  && View(t, disk, p) == Removed(record, seen, op.pos)
                  && Cell(t, p, |seen| - 1) == Kept(record, seen[|seen| - 1])
                else View(t, disk, p) == seen
    ensures View(t, disk, p) == ListApply(View(s, disk, p), op) && Regular(t, disk, p, names)
  {
    hide View, Cell, Removed, ListRemove, Regular, Tails, Kept;
    if 0 <= op.pos < |View(s, disk, p)| {
      RegularRemove(s, t, disk, p, names, op.pos);
    } else {
      RegularLoad(s, t, disk, p, names);
    }
  }

  lemma OpCases(s: seq<Record>, op: Op, names: set<string>)
    ensures ListInsert(s, |s|, map[]) == s + [map[]]
    ensures op.Append? ==> ListApply(s, op) == ListInsert(s, |s|, ItemOf(op.entries))
    ensures (op.Append? || op.InsertAt?) && Short(op) ==> ShortNames(op.entries)
    ensures op.InsertAt? ==>
              ListApply(s, op) == if 0 <= op.pos <= |s| then ListInsert(s, op.pos, ItemOf(op.entries)) else s
    ensures op.RemoveAt? ==> ListApply(s, op) == if 0 <= op.pos < |s| then ListRemove(s, op.pos) else s
    ensures op.Clear? ==> ListApply(s, op) == []
    ensures op.Lookup? ==> ListApply(s, op) == s
    ensures Writes(op, names) && (op.Append? || op.InsertAt?) ==> ItemOf(op.entries).Keys == names
  {
    hide ItemOf;
    if op.Append? {
      AppendIsInsert(s, ItemOf(op.entries));
    }
  }

  lemma OpTokensAre(encode: Encode, tokens: TokenMap, p: string, n: nat, op: Op)
    ensures OpTokens(encode, tokens, p, n, op)
            == if op.Append? then TokensAfter(encode, tokens, Key(p, n), op.entries)
               else if op.InsertAt? && 0 <= op.pos <= n then TokensAfter(encode, tokens, Key(p, op.pos), op.entries)
               else tokens
  {
  }

  lemma Performed(src: OrderedSource, s: State, p: string)
    requires OthersSame(s, src.Now(), src.disk, p)
    ensures src.Now().fields.RecordMap? <==> s.fields.RecordMap?
    ensures src.Now().fields == src.fields
    ensures src.Items(p) == View(src.Now(), src.disk, p) && src.Past(p) == Cell(src.Now(), p, |src.Items(p)|)
    ensures src.Now().loaded == src.loaded
  {
    hide View, Cell, Dense;
  }

  lemma AppendIsInsert(s: seq<Record>, x: Record)
    ensures ListInsert(s, |s|, x) == s + [x]
  {
  }

  lemma RegularLoad(s: State, t: State, disk: Loader, p: string, names: set<string>)
    requires Regular(s, disk, p, names) && View(t, disk, p) == View(s, disk, p)
    requires (t.fields.RecordMap? <==> s.fields.RecordMap?) && Tails(s, t, p, |View(s, disk, p)|)
    ensures Regular(t, disk, p, names)
  {
    hide View, Cell;
  }

  /** The partitions a log names: in a plain map each is separate from the loaded ones and from the
      others; each is loaded or out of the others' shadow. */
  ghost predicate Isolated(s: State, log: seq<(string, Op)>, parts: set<string>) {
    && (forall i :: 0 <= i < |log| ==> log[i].0 in parts && (s.fields.RecordMap? || Short(log[i].1)))
    && (forall p :: p in parts ==> p != "" && PartedFrom(s.fields.RecordMap?, s.loaded, p))
    && (forall p, q :: p in parts && q in parts && p != q ==>
          Parted(s.fields.RecordMap?, p, q) && (q in s.loaded || !Shadows(p, q)))
  }

  ghost predicate RunningAt(s: State, s0: State, disk: Loader, log: seq<(string, Op)>, p: string,
                            names: set<string>)
  {
    && View(s, disk, p) == Replay(View(s0, disk, p), log, p)
    && |View(s, disk, p)| <= |View(s0, disk, p)| + |log|
    && Regular(s, disk, p, names)
    && (Dense(s0, p) ==> Dense(s, p))
  }

  /** The state of a run after the operations in `log`, started in s0. */
  ghost predicate Running(s: State, s0: State, disk: Loader, log: seq<(string, Op)>,
                          names: map<string, set<string>>)
  {
    && s0.loaded <= s.loaded <= s0.loaded + names.Keys && (s.fields.RecordMap? <==> s0.fields.RecordMap?)
    && forall p :: p in names ==> RunningAt(s, s0, disk, log, p, names[p])
  }

  /** What a run requires of its log. */
  ghost predicate Runnable(s: State, disk: Loader, log: seq<(string, Op)>, names: map<string, set<string>>) {
    && Isolated(s, log, names.Keys)
    && (forall p :: p in names ==>
          && |View(s, disk, p)| + |log| <= INT_MAX && Carries(p, |View(s, disk, p)| + |log|)
          && Regular(s, disk, p, names[p]))
    && (s.fields.RecordMap? || forall i :: 0 <= i < |log| ==> Writes(log[i].1, names[log[i].0]))
  }

  lemma RunStart(s: State, disk: Loader, log: seq<(string, Op)>, names: map<string, set<string>>)
    requires Runnable(s, disk, log, names)
    ensures Running(s, s, disk, log[..0], names)
  {
    hide View, Dense, Isolated, Regular;
  }

  lemma RunReady(s: State, s0: State, disk: Loader, log: seq<(string, Op)>, i: nat,
                 names: map<string, set<string>>)
    requires Runnable(s0, disk, log, names) && i < |log| && Running(s, s0, disk, log[..i], names)
    ensures var (p, op) := log[i];
            && p in names && p != "" && PartedFrom(s.fields.RecordMap?, s.loaded, p)
            && (s.fields.RecordMap? || Short(op)) && Regular(s, disk, p, names[p])
            && |View(s, disk, p)| < INT_MAX && Carries(p, |View(s, disk, p)| + 1)
            && (s.fields.RecordMap? || Writes(op, names[p]))
  {
    RunPart(s, s0, disk, log, i, names);
    PartedParts(s, s0, disk, log, i, names);
    hide *;
    var p := log[i].0;
    CarriesLess(p, |View(s0, disk, p)| + |log|, |View(s, disk, p)| + 1);
  }

  lemma RunPart(s: State, s0: State, disk: Loader, log: seq<(string, Op)>, i: nat, names: map<string, set<string>>)
    requires Runnable(s0, disk, log, names) && i < |log| && Running(s, s0, disk, log[..i], names)
    ensures var (p, op) := log[i];
            && p in names && p != "" && (s.fields.RecordMap? || Short(op)) && Regular(s, disk, p, names[p])
            && |View(s, disk, p)| < |View(s0, disk, p)| + |log| <= INT_MAX && Carries(p, |View(s0, disk, p)| + |log|)
            && (s.fields.RecordMap? || Writes(op, names[p]))
  {
    var p := log[i].0;
    assert p in names && RunningAt(s, s0, disk, log[..i], p, names[p]);
    hide View, Dense, Short, Regular, Writes, Shadows, Parted, PartedFrom, Replay, Carries;
  }

  lemma PartedParts(s: State, s0: State, disk: Loader, log: seq<(string, Op)>, i: nat, names: map<string, set<string>>)
    requires Runnable(s0, disk, log, names) && i < |log| && Running(s, s0, disk, log[..i], names)
    ensures PartedFrom(s.fields.RecordMap?, s.loaded, log[i].0)
  {
    hide *;
    RunParts(s, s0, disk, log, i, names);
    var p := log[i].0;
    IsolatedPart(s0, log, i, names.Keys);
    SeparateSelf(p);
    PartedUnion(s.fields.RecordMap?, s0.loaded, names.Keys, s.loaded, p);
  }

  lemma RunParts(s: State, s0: State, disk: Loader, log: seq<(string, Op)>, i: nat, names: map<string, set<string>>)
    requires Runnable(s0, disk, log, names) && i < |log| && Running(s, s0, disk, log[..i], names)
    ensures Isolated(s0, log, names.Keys) && s.loaded <= s0.loaded + names.Keys
    ensures s.fields.RecordMap? <==> s0.fields.RecordMap?
  {
    hide Isolated, RunningAt, View, Regular, Writes, Carries;
  }

  lemma IsolatedPart(s: State, log: seq<(string, Op)>, i: nat, parts: set<string>)
    requires Isolated(s, log, parts) && i < |log|
    ensures var p := log[i].0;
            && p in parts && PartedFrom(s.fields.RecordMap?, s.loaded, p)
            && forall q :: q in parts && q != p ==> Parted(s.fields.RecordMap?, p, q)
  {
    hide PartedFrom, Parted, Shadows, Short;
  }

  lemma PartedUnion(record: bool, loaded: set<string>, parts: set<string>, now: set<string>, p: string)
    requires now <= loaded + parts && PartedFrom(record, loaded, p) && Separate(p, p)
    requires forall q :: q in parts && q != p ==> Parted(record, p, q)
    ensures PartedFrom(record, now, p)
  {
    hide Separate;
  }

  lemma CarriesLess(p: string, m: nat, n: nat)
    requires Carries(p, m) && n <= m
    ensures Carries(p, n)
  {
    if n < m {
      CarriesBelow(p, m, n);
    }
  }

  lemma RunStep(s: State, t: State, s0: State, disk: Loader, log: seq<(string, Op)>, i: nat,
                names: map<string, set<string>>)
    requires Runnable(s0, disk, log, names) && i < |log| && Running(s, s0, disk, log[..i], names)
    requires var (p, op) := log[i];
             && p in names && View(t, disk, p) == ListApply(View(s, disk, p), op)
             && OthersSame(s, t, disk, p) && Regular(t, disk, p, names[p]) && (Dense(s, p) ==> Dense(t, p))
    ensures Running(t, s0, disk, log[..i + 1], names)
  {
    hide View, Dense, Short, Regular, Writes, Shadows, ListApply, RunningAt, Parted;
    SameKind(s, t, disk, log[i].0);
    Grows(s, t, disk, log[i].0);
    forall q | q in names ensures RunningAt(t, s0, disk, log[..i + 1], q, names[q]) {
      RunStepAt(s, t, s0, disk, log, i, q, names);
    }
  }

  lemma Grows(s: State, t: State, disk: Loader, p: string)
    requires OthersSame(s, t, disk, p)
    ensures s.loaded <= t.loaded <= s.loaded + {p}
  {
  }

  lemma RunStepAt(s: State, t: State, s0: State, disk: Loader, log: seq<(string, Op)>, i: nat, q: string,
                  names: map<string, set<string>>)
    requires Runnable(s0, disk, log, names) && i < |log| && Running(s, s0, disk, log[..i], names)
    requires var (p, op) := log[i];
             && p in names && View(t, disk, p) == ListApply(View(s, disk, p), op)
             && OthersSame(s, t, disk, p) && Regular(t, disk, p, names[p]) && (Dense(s, p) ==> Dense(t, p))
    requires q in names
    ensures RunningAt(t, s0, disk, log[..i + 1], q, names[q])
  {
    hide View, Dense, Short, Regular, Writes, Shadows, ListApply, OthersSame, Parted, Carries;
    var (p, op) := log[i];
    assert RunningAt(s, s0, disk, log[..i], q, names[q]);
    assert log[..i + 1][..i] == log[..i];
    if q != p {
      RegularOther(s, t, disk, p, q, names[q]);
    }
  }

  /** Over any run of operations on any partitions, each partition is the list the operations
      on it alone would make: always for a record source, and for a plain source whose
      partitions each keep to one set of field names.  The index is never stale unmarked. */
  method Run(src: OrderedSource, log: seq<(string, Op)>, ghost names: map<string, set<string>>)
    requires src.Sound() && Runnable(src.Now(), src.disk, log, names)
    modifies src
    ensures src.Sound() && src.Fresh()
    ensures forall p :: p in names ==> src.Items(p) == Replay(old(src.Items(p)), log, p)
    ensures forall p :: p in names && old(Dense(src.Now(), p)) ==> Dense(src.Now(), p)
  {
    hide *;
    ghost var s0 := src.Now();
    AllItems(src);
    RunStart(s0, src.disk, log, names);
    for i := 0 to |log|
      invariant src.Sound() && Running(src.Now(), s0, src.disk, log[..i], names)
    {
      ghost var s := src.Now();
      RunReady(s, s0, src.disk, log, i, names);
      AllItems(src);
      var p := log[i].0;
      Perform(src, p, log[i].1, names[p]);
      AllItems(src);
      PerformedList(s, src.Now(), src.disk, p, log[i].1, names[p]);
      RunStep(s, src.Now(), s0, src.disk, log, i, names);
    }
    assert log[..|log|] == log;
    AllItems(src);
    src.SoundParts();
    RunDone(src.Now(), s0, src.disk, log, names);
  }

  lemma RunDone(s: State, s0: State, disk: Loader, log: seq<(string, Op)>, names: map<string, set<string>>)
    requires Running(s, s0, disk, log, names)
    ensures forall p :: p in names ==> View(s, disk, p) == Replay(View(s0, disk, p), log, p)
    ensures forall p :: p in names && Dense(s0, p) ==> Dense(s, p)
  {
    hide View, Dense, Regular, Replay;
    forall p | p in names ensures RunningAt(s, s0, disk, log, p, names[p]) {
    }
  }

  lemma AllItems(src: OrderedSource)
    ensures forall p :: src.Items(p) == View(src.Now(), src.disk, p)
    ensures forall p :: p != "" && PartedFrom(src.fields.RecordMap?, src.loaded, p)
                        && |View(src.Now(), src.disk, p)| < INT_MAX
                        && Carries(p, |View(src.Now(), src.disk, p)| + 1) ==>
              src.Room(p, 1)
    ensures src.Now().loaded == src.loaded
    ensures src.Now().fields == src.fields
  {
    hide View, Carries, PartedFrom;
  }
}
