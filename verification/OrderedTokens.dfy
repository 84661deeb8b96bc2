/** Token streams of ordered sources: they stay with their positions while the items move, so they
    are true of the items under exact conditions only. */
module OrderedTokens {
  import opened Wrappers
  import opened Records
  import opened OrderedKeys
  import opened OrderedSources
  import opened OrderedLaws

  /** The stream kept for a field at a position. */
  function StreamAt(tokens: TokenMap, p: string, i: nat, f: string): Option<seq<nat>> {
    var key := TokenKey(Key(p, i), f);
    if key in tokens then Some(tokens[key]) else None
  }

  /** There is no stream at the position, or it is that of the text of the record. */
  ghost predicate TrueAt(encode: Encode, tokens: TokenMap, p: string, i: nat, f: string, x: Record) {
    var code := StreamAt(tokens, p, i, f);
    code.None? || (f in x && encode(x[f]) == code)
  }

  /** The streams of a partition are those of its items. */
  ghost predicate AllTrue(encode: Encode, tokens: TokenMap, p: string, f: string, s: seq<Record>) {
    forall i: nat :: i < |s| ==> TrueAt(encode, tokens, p, i, f, s[i])
  }

  // ---- one operation ---------------------------------------------------------------------

  /** A removal keeps the streams true exactly when each is true of the item that moves to it. */
  lemma RemoveTruthIff(encode: Encode, tokens: TokenMap, p: string, f: string, record: bool, s: seq<Record>, pos: nat)
    requires AllTrue(encode, tokens, p, f, s) && pos < |s|
    ensures AllTrue(encode, tokens, p, f, Removed(record, s, pos))
            <==> forall j: nat :: pos <= j < |s| - 1 ==>
                   TrueAt(encode, tokens, p, j, f, Kept(record, s[j]) + s[j + 1])
  {
    hide TrueAt, Kept;
    var t := Removed(record, s, pos);
    assert forall j: nat :: j < |t| ==> t[j] == if j < pos then s[j] else Kept(record, s[j]) + s[j + 1];
  }

  /** An insertion does exactly when each stream is true of the item that moves to it, and that at
      the position of the new item, once its texts are put, of the new item. */
  lemma InsertTruthIff(encode: Encode, tokens: TokenMap, p: string, f: string, record: bool, s: seq<Record>, r: Record,
                       pos: nat, entries: seq<Entry>)
    requires AllTrue(encode, tokens, p, f, s) && pos <= |s|
    requires PlainEntries(Key(p, pos), entries)
    requires forall i: nat :: i <= |s| ==> |Comp(Key(p, i), f)| < KEY_SIZE
    ensures var w, x, after := s + [r], ItemOf(entries), TokensAfter(encode, tokens, Key(p, pos), entries);
            AllTrue(encode, after, p, f, Inserted(record, s, r, pos, x))
            <==> && TrueAt(encode, after, p, pos, f, Kept(record, w[pos]) + x)
                 && forall j: nat :: pos < j <= |s| ==>
                      TrueAt(encode, tokens, p, j, f, Kept(record, w[j]) + s[j - 1])
  {
    hide *;
    var w, x, after := s + [r], ItemOf(entries), TokensAfter(encode, tokens, Key(p, pos), entries);
    OthersTrue(encode, tokens, p, f, |s|, pos, entries);
    InsertedParts(record, s, r, pos, x);
    TruthParts(encode, tokens, after, p, f, s, pos, Inserted(record, s, r, pos, x));
  }

  lemma InsertedParts(record: bool, s: seq<Record>, r: Record, pos: nat, x: Record)
    requires pos <= |s|
    ensures var t, w := Inserted(record, s, r, pos, x), s + [r];
            && |t| == |s| + 1 && t[..pos] == s[..pos] && t[pos] == Kept(record, w[pos]) + x
            && forall i: nat :: pos < i <= |s| ==> t[i] == Kept(record, w[i]) + s[i - 1]
  {
    hide Kept;
  }

  lemma OthersTrue(encode: Encode, tokens: TokenMap, p: string, f: string, n: nat, pos: nat, entries: seq<Entry>)
    requires PlainEntries(Key(p, pos), entries)
    requires forall i: nat :: i <= n ==> |Comp(Key(p, i), f)| < KEY_SIZE
    ensures var after := TokensAfter(encode, tokens, Key(p, pos), entries);
            forall i: nat, y :: i <= n && i != pos ==>
              (TrueAt(encode, after, p, i, f, y) <==> TrueAt(encode, tokens, p, i, f, y))
  {
    hide Key, Comp, PlainEntries, TokensAfter, StreamAt;
    forall i: nat, y | i <= n && i != pos
      ensures var after := TokensAfter(encode, tokens, Key(p, pos), entries);
              TrueAt(encode, after, p, i, f, y) <==> TrueAt(encode, tokens, p, i, f, y)
    {
      OtherPosition(encode, tokens, p, pos, entries, p, i, f);
    }
  }

  /** Streams that change at one position only, under a list that differs from there on. */
  lemma TruthParts(encode: Encode, tokens: TokenMap, after: TokenMap, p: string, f: string, s: seq<Record>, pos: nat,
                   t: seq<Record>)
    requires AllTrue(encode, tokens, p, f, s) && pos < |t| == |s| + 1 && t[..pos] == s[..pos]
    requires forall i: nat, y :: i <= |s| && i != pos ==>
               (TrueAt(encode, after, p, i, f, y) <==> TrueAt(encode, tokens, p, i, f, y))
    ensures AllTrue(encode, after, p, f, t)
            <==> && TrueAt(encode, after, p, pos, f, t[pos])
                 && forall j: nat :: pos < j <= |s| ==> TrueAt(encode, tokens, p, j, f, t[j])
  {
    hide TrueAt;
    forall i: nat | i < pos ensures TrueAt(encode, after, p, i, f, t[i]) {
      assert t[i] == t[..pos][i] == s[..pos][i] == s[i];
    }
  }

  /** A put at one position leaves the streams of the others. */
  lemma OtherPosition(encode: Encode, tokens: TokenMap, p: string, pos: nat, entries: seq<Entry>,
                      q: string, i: nat, f: string)
    requires PlainEntries(Key(p, pos), entries) && |Comp(Key(q, i), f)| < KEY_SIZE
    requires Separate(p, q) || p == q
    requires p != q || i != pos
    ensures StreamAt(TokensAfter(encode, tokens, Key(p, pos), entries), q, i, f) == StreamAt(tokens, q, i, f)
  {
    SeparateSelf(p);
    SeparateRows(p, pos, q, i);
    KeyInjective(p, pos, q, i);
    hide Key, Apart, Comp, TokensAfter, PlainEntries, Separate, TokenKey;
    CodedEntries(encode, tokens, Key(p, pos), entries, Key(q, i), f);
  }

  /** The stream at the position itself: that of the last text put, if one encodes. */
  lemma SamePosition(encode: Encode, tokens: TokenMap, p: string, pos: nat, entries: seq<Entry>, f: string)
    requires PlainEntries(Key(p, pos), entries) && |Comp(Key(p, pos), f)| < KEY_SIZE
    ensures StreamAt(TokensAfter(encode, tokens, Key(p, pos), entries), p, pos, f)
            == if LastCode(encode, entries, f).Some? then LastCode(encode, entries, f) else StreamAt(tokens, p, pos, f)
  {
    ApartSelf(Key(p, pos));
    hide Key, Apart, Comp, TokensAfter, PlainEntries, TokenKey;
    CodedEntries(encode, tokens, Key(p, pos), entries, Key(p, pos), f);
  }

  /** Every named entry has a text that encodes. */
  predicate OnlyCoded(encode: Encode, entries: seq<Entry>) {
    forall e :: e in entries && e.name.Some? ==> e.value.Some? && encode(e.value.value).Some?
  }

  lemma {:induction false} CodedItem(encode: Encode, entries: seq<Entry>, f: string)
    requires OnlyCoded(encode, entries)
    ensures var item, code := ItemOf(entries), LastCode(encode, entries, f);
            (f in item <==> code.Some?) && (f in item ==> encode(item[f]) == code)
  {
    if entries != [] {
      var front, e := entries[..|entries| - 1], entries[|entries| - 1];
      assert entries == front + [e];
      CodedItem(encode, front, f);
    }
  }

  /** The new item is true at its position exactly when it has the field or finds no stream there. */
  lemma NewItemTrueIff(encode: Encode, tokens: TokenMap, p: string, pos: nat, entries: seq<Entry>, f: string)
    requires PlainEntries(Key(p, pos), entries) && |Comp(Key(p, pos), f)| < KEY_SIZE && OnlyCoded(encode, entries)
    ensures TrueAt(encode, TokensAfter(encode, tokens, Key(p, pos), entries), p, pos, f, ItemOf(entries))
            <==> f in ItemOf(entries) || StreamAt(tokens, p, pos, f).None?
  {
    CodedItem(encode, entries, f);
    SamePosition(encode, tokens, p, pos, entries, f);
    hide StreamAt, ItemOf, TokensAfter, PlainEntries, LastCode;
  }

  /** `hyle_ordered_remove_at` on a source whose streams are true. */
  method RemoveFrom(src: OrderedSource, p: string, pos: nat, ghost f: string)
    requires src.Sound() && src.Room(p, 0) && p != "" && pos < |src.Items(p)|
    requires AllTrue(src.encode, src.TokensLoaded(p), p, f, src.Items(p))
    modifies src
    ensures src.Sound() && p in src.loaded && src.tokens == old(src.TokensLoaded(p))
    ensures var s, streams := old(src.Items(p)), old(src.TokensLoaded(p));
            AllTrue(src.encode, src.tokens, p, f, src.Items(p))
            <==> forall j: nat :: pos <= j < |s| - 1 ==>
                   TrueAt(src.encode, streams, p, j, f, Kept(src.fields.RecordMap?, s[j]) + s[j + 1])
  {
    hide *;
    ghost var s, streams := src.Items(p), src.TokensLoaded(p);
    src.RemoveAt(p, pos);
    RemoveTruthIff(src.encode, streams, p, f, src.fields.RecordMap?, s, pos);
  }

  /** `hyle_ordered_insert_at` on such a source. */
  method InsertInto(src: OrderedSource, p: string, pos: nat, entries: seq<Entry>, ghost f: string)
    requires src.Sound() && src.Room(p, 1) && p != "" && pos <= |src.Items(p)|
    requires (src.fields.PlainMap? ==> ShortNames(entries)) && TokenNames(entries) && |f| + KEY_BUFFER < KEY_SIZE
    requires AllTrue(src.encode, src.TokensLoaded(p), p, f, src.Items(p))
    modifies src
    ensures src.Sound() && p in src.loaded
    ensures src.tokens == TokensAfter(src.encode, old(src.TokensLoaded(p)), Key(p, pos), entries)
    ensures var s, r, streams := old(src.Items(p)), old(src.Past(p)), old(src.TokensLoaded(p));
            var w, record := s + [r], src.fields.RecordMap?;
            AllTrue(src.encode, src.tokens, p, f, src.Items(p))
            <==> && TrueAt(src.encode, src.tokens, p, pos, f, Kept(record, w[pos]) + ItemOf(entries))
                 && forall j: nat :: pos < j <= |s| ==>
                      TrueAt(src.encode, streams, p, j, f, Kept(record, w[j]) + s[j - 1])
  {
    hide *;
    ghost var s, r, streams := src.Items(p), src.Past(p), src.TokensLoaded(p);
    src.RoomShrinks(p);
    var _ := src.InsertAt(p, pos, entries);
    KeysPlain(p, |s| + 1, pos, entries, f);
    InsertTruthIff(src.encode, streams, p, f, src.fields.RecordMap?, s, r, pos, entries);
  }

  /** `hyle_ordered_append` on such a source: the stream found at the new position decides. */
  method AppendTo(src: OrderedSource, p: string, entries: seq<Entry>, ghost f: string)
    requires src.Sound() && src.Room(p, 1) && p != ""
    requires (src.fields.PlainMap? ==> ShortNames(entries)) && TokenNames(entries) && |f| + KEY_BUFFER < KEY_SIZE
    requires AllTrue(src.encode, src.TokensLoaded(p), p, f, src.Items(p))
    modifies src
    ensures src.Sound() && p in src.loaded
    ensures var s, r := old(src.Items(p)), old(src.Past(p));
            AllTrue(src.encode, src.tokens, p, f, src.Items(p))
            <==> TrueAt(src.encode, src.tokens, p, |s|, f, r + ItemOf(entries))
  {
    hide *;
    ghost var s, r, streams := src.Items(p), src.Past(p), src.TokensLoaded(p);
    src.RoomShrinks(p);
    var _ := src.Append(p, entries);
    KeysPlain(p, |s| + 1, |s|, entries, f);
    InsertTruthIff(src.encode, streams, p, f, false, s, r, |s|, entries);
    InsertedLast(s, r, ItemOf(entries));
  }

  lemma InsertedLast(s: seq<Record>, r: Record, x: Record)
    ensures Inserted(false, s, r, |s|, x) == Appended(s, r, x) && Kept(false, (s + [r])[|s|]) + x == r + x
  {
  }

  /** Names that keep `"row:field"` inside the token buffer for any key that its own buffer carries. */
  predicate TokenNames(entries: seq<Entry>) {
    forall e :: e in entries && e.name.Some? ==> |e.name.value| + KEY_BUFFER < KEY_SIZE
  }

  lemma KeysPlain(p: string, n: nat, pos: nat, entries: seq<Entry>, f: string)
    requires Carries(p, n) && pos < n && TokenNames(entries) && |f| + KEY_BUFFER < KEY_SIZE
    ensures PlainEntries(Key(p, pos), entries)
    ensures forall i: nat :: i < n ==> |Comp(Key(p, i), f)| < KEY_SIZE
  {
    CarriesBelow(p, n, pos);
    forall i: nat | i < n ensures |Comp(Key(p, i), f)| < KEY_SIZE {
      CarriesBelow(p, n, i);
      hide Key, BuildKey, Carries;
    }
    hide Key, BuildKey, Carries;
  }

  // ---- over a log ----------------------------------------------------------------------------

  /** What was last coded at a position, in the list a log makes of s: `base` if nothing was. */
  function CodedAt(encode: Encode, base: Option<seq<nat>>, s: seq<Record>, log: seq<(string, Op)>, p: string, i: nat,
                   f: string): Option<seq<nat>>
  {
    if log == [] then base
    else
      var front, (q, op) := log[..|log| - 1], log[|log| - 1];
      var before := CodedAt(encode, base, s, front, p, i, f);
      if q == p && Lands(op, |Replay(s, front, p)|, i) && LastCode(encode, op.entries, f).Some?
      then LastCode(encode, op.entries, f) else before
  }

  /** The operation puts an item at position i of a list of n. */
  predicate Lands(op: Op, n: nat, i: nat) {
    (op.Append? && i == n) || (op.InsertAt? && i == op.pos && i <= n)
  }

  ghost predicate AgreeAt(t: TokenMap, u: TokenMap, key: string) {
    (key in t <==> key in u) && (key in t ==> t[key] == u[key])
  }

  lemma {:induction false} PutAgrees(encode: Encode, t: TokenMap, u: TokenMap, row: string, entries: seq<Entry>,
                                     key: string)
    requires AgreeAt(t, u, key)
    ensures AgreeAt(TokensAfter(encode, t, row, entries), TokensAfter(encode, u, row, entries), key)
  {
    if entries != [] {
      PutAgrees(encode, t, u, row, entries[..|entries| - 1], key);
    }
  }

  lemma {:induction false} LoadAgrees(encode: Encode, t: TokenMap, u: TokenMap, p: string, batches: seq<seq<Entry>>,
                                      key: string)
    requires AgreeAt(t, u, key)
    ensures AgreeAt(LoadTokens(encode, t, p, batches), LoadTokens(encode, u, p, batches), key)
  {
    hide TokensAfter, Key, AgreeAt;
    if batches != [] {
      var n := |batches| - 1;
      LoadAgrees(encode, t, u, p, batches[..n], key);
      PutAgrees(encode, LoadTokens(encode, t, p, batches[..n]), LoadTokens(encode, u, p, batches[..n]), Key(p, n),
                batches[n], key);
    }
  }

  ghost predicate PlainBatches(p: string, batches: seq<seq<Entry>>) {
    forall j :: 0 <= j < |batches| ==> PlainEntries(Key(p, j), batches[j])
  }

  /** Loading one partition leaves the streams of another. */
  lemma {:induction false} LoadElsewhere(encode: Encode, tokens: TokenMap, p: string, batches: seq<seq<Entry>>,
                                         q: string, i: nat, f: string)
    requires PlainBatches(p, batches) && |Comp(Key(q, i), f)| < KEY_SIZE && Separate(p, q) && p != q
    ensures StreamAt(LoadTokens(encode, tokens, p, batches), q, i, f) == StreamAt(tokens, q, i, f)
  {
    hide TokensAfter, Key, Comp, Separate, PlainEntries, StreamAt;
    if batches != [] {
      var n := |batches| - 1;
      LoadElsewhere(encode, tokens, p, batches[..n], q, i, f);
      OtherPosition(encode, LoadTokens(encode, tokens, p, batches[..n]), p, n, batches[n], q, i, f);
    }
  }

  /** The token streams once p is loaded. */
  function WithLoaded(encode: Encode, tokens: TokenMap, loaded: set<string>, disk: Loader, p: string): TokenMap {
    if p in loaded then tokens else LoadTokens(encode, tokens, p, Disk(disk, p))
  }

  /** What an operation on a list of n items can put on keys that their buffers hold. */
  ghost predicate PlainOp(p: string, n: nat, op: Op) {
    (op.Append? || op.InsertAt?) ==> forall i: nat :: i <= n ==> PlainEntries(Key(p, i), op.entries)
  }

  /** An operation on p, seen at another partition. */
  lemma StreamsElsewhere(encode: Encode, tokens: TokenMap, after: TokenMap, loaded: set<string>, disk: Loader,
                         p: string,
                         n: nat, op: Op, q: string, i: nat, f: string)
    requires after == OpTokens(encode, WithLoaded(encode, tokens, loaded, disk, p), p, n, op)
    requires PlainOp(p, n, op) && (p !in loaded ==> PlainBatches(p, Disk(disk, p))) && |Comp(Key(q, i), f)| < KEY_SIZE
    requires Separate(p, q) && p != q
    ensures StreamAt(WithLoaded(encode, after, loaded + {p}, disk, q), q, i, f)
            == StreamAt(WithLoaded(encode, tokens, loaded, disk, q), q, i, f)
  {
    hide TokensAfter, Key, Comp, Separate, PlainEntries, LoadTokens, PlainBatches, TokenKey, Disk;
    var middle := WithLoaded(encode, tokens, loaded, disk, p);
    if p !in loaded {
      LoadElsewhere(encode, tokens, p, Disk(disk, p), q, i, f);
    }
    if op.Append? {
      OtherPosition(encode, middle, p, n, op.entries, q, i, f);
    } else if op.InsertAt? && 0 <= op.pos <= n {
      OtherPosition(encode, middle, p, op.pos, op.entries, q, i, f);
    }
    LoadAgrees(encode, tokens, after, q, Disk(disk, q), TokenKey(Key(q, i), f));
  }

  /** And at a position of its own partition. */
  lemma StreamsHere(encode: Encode, tokens: TokenMap, p: string, n: nat, op: Op, i: nat, f: string)
    requires PlainOp(p, n, op) && |Comp(Key(p, i), f)| < KEY_SIZE
    ensures StreamAt(OpTokens(encode, tokens, p, n, op), p, i, f)
            == if Lands(op, n, i) && LastCode(encode, op.entries, f).Some? then LastCode(encode, op.entries, f)
               else StreamAt(tokens, p, i, f)
  {
    hide TokensAfter, Key, Comp, PlainEntries, StreamAt, LastCode;
    if op.Append? {
      At(encode, tokens, p, n, op.entries, i, f);
    } else if op.InsertAt? && 0 <= op.pos <= n {
      At(encode, tokens, p, op.pos, op.entries, i, f);
    }
  }

  lemma At(encode: Encode, tokens: TokenMap, p: string, pos: nat, entries: seq<Entry>, i: nat, f: string)
    requires PlainEntries(Key(p, pos), entries) && |Comp(Key(p, i), f)| < KEY_SIZE
    ensures StreamAt(TokensAfter(encode, tokens, Key(p, pos), entries), p, i, f)
            == if i == pos && LastCode(encode, entries, f).Some? then LastCode(encode, entries, f)
               else StreamAt(tokens, p, i, f)
  {
    hide TokensAfter, Key, Comp, PlainEntries, StreamAt, LastCode;
    if i == pos {
      SamePosition(encode, tokens, p, pos, entries, f);
    } else {
      OtherPosition(encode, tokens, p, pos, entries, p, i, f);
    }
  }

  /** What the tokens of a run require of its log and loader, beside what its items do. */
  ghost predicate Coded(disk: Loader, log: seq<(string, Op)>, parts: set<string>) {
    && (forall i :: 0 <= i < |log| && (log[i].1.Append? || log[i].1.InsertAt?) ==> TokenNames(log[i].1.entries))
    && (forall p, j :: p in disk && 0 <= j < |disk[p]| ==> TokenNames(disk[p][j]))
    && (forall p, q :: p in parts && q in parts && p != q ==> Separate(p, q))
  }

  /** The stream at each position is what the log last coded there. */
  ghost predicate StreamsRun(encode: Encode, tokens: TokenMap, loaded: set<string>, disk: Loader,
                             s0: State, t0: TokenMap, log: seq<(string, Op)>, parts: set<string>)
  {
    forall p, i: nat, f :: p in parts && |Comp(Key(p, i), f)| < KEY_SIZE ==>
      StreamAt(WithLoaded(encode, tokens, loaded, disk, p), p, i, f) == Logged(encode, disk, s0, t0, log, p, i, f)
  }

  ghost function Logged(encode: Encode, disk: Loader, s0: State, t0: TokenMap, log: seq<(string, Op)>,
                        p: string, i: nat, f: string): Option<seq<nat>>
  {
    CodedAt(encode, StreamAt(WithLoaded(encode, t0, s0.loaded, disk, p), p, i, f), View(s0, disk, p), log, p, i, f)
  }

  lemma StreamsStart(encode: Encode, disk: Loader, s0: State, t0: TokenMap, log: seq<(string, Op)>, parts: set<string>)
    ensures StreamsRun(encode, t0, s0.loaded, disk, s0, t0, log[..0], parts)
  {
    hide StreamAt, WithLoaded, Comp, Key, View;
  }

  lemma StreamsStep(encode: Encode, tokens: TokenMap, after: TokenMap, s: State, t: State, disk: Loader, s0: State,
                    t0: TokenMap, log: seq<(string, Op)>, i: nat, names: map<string, set<string>>)
    requires Runnable(s0, disk, log, names) && Coded(disk, log, names.Keys) && i < |log|
    requires Running(s, s0, disk, log[..i], names)
    requires StreamsRun(encode, tokens, s.loaded, disk, s0, t0, log[..i], names.Keys)
    requires var (p, op) := log[i];
             if op.Lookup? then t.loaded == s.loaded && after == tokens
             else t.loaded == s.loaded + {p}
                  && after == OpTokens(encode, WithLoaded(encode, tokens, s.loaded, disk, p), p, |View(s, disk, p)|, op)
    ensures StreamsRun(encode, after, t.loaded, disk, s0, t0, log[..i + 1], names.Keys)
  {
    hide StreamAt, Logged, Comp, Key, OpTokens, Runnable, Running, WithLoaded, View;
    var (p, op) := log[i];
    var n := |View(s, disk, p)|;
    OpIsPlain(s, disk, s0, log, i, names);
    SeparateParts(disk, log, names.Keys);
    forall q, j: nat, f | q in names.Keys && |Comp(Key(q, j), f)| < KEY_SIZE
      ensures StreamAt(WithLoaded(encode, after, t.loaded, disk, q), q, j, f)
              == Logged(encode, disk, s0, t0, log[..i + 1], q, j, f)
    {
      hide *;
      StreamWas(encode, tokens, s.loaded, disk, s0, t0, log[..i], names.Keys, q, j, f);
      LoggedStep(encode, disk, s0, t0, log, i, q, j, f);
      if op.Lookup? {
      } else if q == p {
        LoadedHere(encode, after, s.loaded, disk, p);
        StreamsHere(encode, WithLoaded(encode, tokens, s.loaded, disk, p), p, n, op, j, f);
      } else {
        StreamsElsewhere(encode, tokens, after, s.loaded, disk, p, n, op, q, j, f);
      }
    }
  }

  lemma LoadedHere(encode: Encode, tokens: TokenMap, loaded: set<string>, disk: Loader, p: string)
    ensures WithLoaded(encode, tokens, loaded + {p}, disk, p) == tokens
  {
  }

  lemma SeparateParts(disk: Loader, log: seq<(string, Op)>, parts: set<string>)
    requires Coded(disk, log, parts)
    ensures forall p, q :: p in parts && q in parts && p != q ==> Separate(p, q)
  {
  }

  lemma StreamWas(encode: Encode, tokens: TokenMap, loaded: set<string>, disk: Loader, s0: State, t0: TokenMap,
                  log: seq<(string, Op)>, parts: set<string>, p: string, i: nat, f: string)
    requires StreamsRun(encode, tokens, loaded, disk, s0, t0, log, parts)
    requires p in parts && |Comp(Key(p, i), f)| < KEY_SIZE
    ensures StreamAt(WithLoaded(encode, tokens, loaded, disk, p), p, i, f) == Logged(encode, disk, s0, t0, log, p, i, f)
  {
    hide StreamAt, WithLoaded, Comp, Key, Logged;
  }

  lemma LoggedStep(encode: Encode, disk: Loader, s0: State, t0: TokenMap, log: seq<(string, Op)>, i: nat,
                   q: string, j: nat, f: string)
    requires i < |log|
    ensures var (p, op) := log[i];
            var n := |Replay(View(s0, disk, q), log[..i], q)|;
            Logged(encode, disk, s0, t0, log[..i + 1], q, j, f)
            == if p == q && Lands(op, n, j) && LastCode(encode, op.entries, f).Some?
               then LastCode(encode, op.entries, f)
               else Logged(encode, disk, s0, t0, log[..i], q, j, f)
  {
    assert log[..i + 1][..i] == log[..i];
    hide StreamAt, WithLoaded, View, Replay, LastCode;
  }

  lemma OpIsPlain(s: State, disk: Loader, s0: State, log: seq<(string, Op)>, i: nat, names: map<string, set<string>>)
    requires Runnable(s0, disk, log, names) && Coded(disk, log, names.Keys) && i < |log|
    requires Running(s, s0, disk, log[..i], names)
    ensures var (p, op) := log[i];
            && p in names && PlainOp(p, |View(s, disk, p)|, op)
            && (p !in s.loaded ==> PlainBatches(p, Disk(disk, p)))
            && |View(s, disk, p)| == |Replay(View(s0, disk, p), log[..i], p)|
  {
    var (p, op) := log[i];
    RunReady(s, s0, disk, log, i, names);
    assert RunningAt(s, s0, disk, log[..i], p, names[p]);
    var n := |View(s, disk, p)|;
    hide Runnable, Running, Replay, Regular, Dense, Carries, Key, PlainEntries;
    if op.Append? || op.InsertAt? {
      forall k: nat | k <= n ensures PlainEntries(Key(p, k), op.entries) {
        KeysPlain(p, n + 1, k, op.entries, "");
      }
    }
    if p !in s.loaded {
      forall k | 0 <= k < |Disk(disk, p)| ensures PlainEntries(Key(p, k), Disk(disk, p)[k]) {
        KeysPlain(p, n + 1, k, Disk(disk, p)[k], "");
      }
    }
  }

  /** Over any run on separate partitions: the stream at a position is true of the item there
      exactly when nothing was ever coded there, or the item's text has the tokens last coded. */
  method RunTexts(src: OrderedSource, log: seq<(string, Op)>, ghost names: map<string, set<string>>)
    requires src.Sound() && Runnable(src.Now(), src.disk, log, names) && Coded(src.disk, log, names.Keys)
    modifies src
    ensures src.Sound() && forall p :: p in names ==> src.Items(p) == Replay(old(src.Items(p)), log, p)
    ensures forall p, i: nat, f :: p in names && i < |src.Items(p)| && |Comp(Key(p, i), f)| < KEY_SIZE ==>
              (TrueAt(src.encode, src.TokensLoaded(p), p, i, f, src.Items(p)[i])
               <==> var base := StreamAt(old(src.TokensLoaded(p)), p, i, f);
                    var code := CodedAt(src.encode, base, old(src.Items(p)), log, p, i, f);
                    var x := Replay(old(src.Items(p)), log, p)[i];
                    code.None? || (f in x && src.encode(x[f]) == code))
  {
    hide *;
    ghost var s0, t0 := src.Now(), src.tokens;
    AllItems(src);
    RunStart(s0, src.disk, log, names);
    StreamsStart(src.encode, src.disk, s0, t0, log, names.Keys);
    src.NowIs();
    forall p | p in names
      ensures src.TokensLoaded(p) == WithLoaded(src.encode, t0, s0.loaded, src.disk, p)
    {
      NamedParts(s0, src.disk, log, names, p);
      TokensAreLoaded(src, p);
    }
    for i := 0 to |log|
      invariant src.Sound() && Running(src.Now(), s0, src.disk, log[..i], names)
      invariant StreamsRun(src.encode, src.tokens, src.loaded, src.disk, s0, t0, log[..i], names.Keys)
    {
      ghost var s, tokens := src.Now(), src.tokens;
      RunReady(s, s0, src.disk, log, i, names);
      AllItems(src);
      var p := log[i].0;
      TokensAreLoaded(src, p);
      Perform(src, p, log[i].1, names[p]);
      AllItems(src);
      src.NowIs();
      PerformedList(s, src.Now(), src.disk, p, log[i].1, names[p]);
      Grows(s, src.Now(), src.disk, p);
      RunStep(s, src.Now(), s0, src.disk, log, i, names);
      StreamsStep(src.encode, tokens, src.tokens, s, src.Now(), src.disk, s0, t0, log, i, names);
    }
    assert log[..|log|] == log;
    AllItems(src);
    RunDone(src.Now(), s0, src.disk, log, names);
    forall p | p in names ensures p != "" {
      NamedParts(s0, src.disk, log, names, p);
    }
    forall p, i: nat, f | p in names && i < |src.Items(p)| && |Comp(Key(p, i), f)| < KEY_SIZE
      ensures StreamAt(src.TokensLoaded(p), p, i, f)
              == CodedAt(src.encode, StreamAt(old(src.TokensLoaded(p)), p, i, f), old(src.Items(p)), log, p, i, f)
    {
      TokensAreLoaded(src, p);
      StreamWas(src.encode, src.tokens, src.loaded, src.disk, s0, t0, log, names.Keys, p, i, f);
      LoggedIs(src.encode, src.disk, s0, t0, log, p, i, f);
    }
    TrueIs(src.encode);
  }

  lemma TrueIs(encode: Encode)
    ensures forall tokens, p, i, f, x :: TrueAt(encode, tokens, p, i, f, x)
              <==> StreamAt(tokens, p, i, f).None? || (f in x && encode(x[f]) == StreamAt(tokens, p, i, f))
  {
    hide StreamAt;
  }

  lemma NamedParts(s: State, disk: Loader, log: seq<(string, Op)>, names: map<string, set<string>>, p: string)
    requires Runnable(s, disk, log, names) && p in names
    ensures p != ""
  {
  }

  lemma TokensAreLoaded(src: OrderedSource, p: string)
    requires p != ""
    ensures src.TokensLoaded(p) == WithLoaded(src.encode, src.tokens, src.loaded, src.disk, p)
    ensures src.Items(p) == View(src.Now(), src.disk, p) && src.Now().loaded == src.loaded
  {
  }

  lemma LoggedIs(encode: Encode, disk: Loader, s0: State, t0: TokenMap, log: seq<(string, Op)>, p: string, i: nat,
                 f: string)
    ensures Logged(encode, disk, s0, t0, log, p, i, f)
            == CodedAt(encode, StreamAt(WithLoaded(encode, t0, s0.loaded, disk, p), p, i, f), View(s0, disk, p), log,
                       p, i, f)
  {
  }
}
