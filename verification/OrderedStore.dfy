/** What an ordered source shows, said of its maps and of its loader alone. */
module OrderedStore {
  import opened Text
  import opened Records
  import opened EntryLaws
  import opened OrderedKeys
  import opened OrderedSources

  /** A record holds the last text of each name, a missing one as the empty text. */
  ghost predicate HoldsEntries(x: Record, entries: seq<Entry>) {
    && (forall name :: name in x <==> exists i :: LastAt(entries, name, i))
    && forall name, i :: LastAt(entries, name, i) ==>
         name in x && x[name] == if entries[i].value.Some? then entries[i].value.value else ""
  }

  /** Once loaded a partition has as many items as its count says, and each is what the maps hold
      under its key: a record, or the flat entries that go on with a colon and a name. */
  lemma StoredItems(s: State, disk: Loader, p: string)
    requires p in s.loaded && p in s.order
    ensures |View(s, disk, p)| == Val(s.order[p])
    ensures forall i :: 0 <= i < |View(s, disk, p)| ==>
              var x, key := View(s, disk, p)[i], Key(p, i);
              match s.fields
              case RecordMap(recs) => x == if key in recs then recs[key] else map[]
              case PlainMap(flat) =>
                forall f :: (f in x <==> key + ":" + f in flat) && (f in x ==> x[f] == flat[key + ":" + f])
  {
    hide Key, Val;
    forall i, f | s.fields.PlainMap?
      ensures var x, key := Cell(s, p, i), Key(p, i);
              (f in x <==> key + ":" + f in s.fields.flat) && (f in x ==> x[f] == s.fields.flat[key + ":" + f])
    {
    }
  }

  /** Before that it shows what its loader will supply, if no row present starts as its own would. */
  lemma LoaderItems(s: State, disk: Loader, p: string)
    requires p !in s.loaded && forall r :: r in s.rows ==> !(p + "__" <= r)
    ensures |View(s, disk, p)| == if p in disk then |disk[p]| else 0
    ensures p in disk ==> forall i :: 0 <= i < |disk[p]| ==> HoldsEntries(View(s, disk, p)[i], disk[p][i])
  {
    assert Hits(s.rows, p) == {};
    forall entries: seq<Entry> ensures HoldsEntries(ItemOf(entries), entries) {
      forall name ensures name in ItemOf(entries) <==> exists i :: LastAt(entries, name, i) {
        ItemIs(entries, name);
      }
      forall name, i | LastAt(entries, name, i)
        ensures name in ItemOf(entries)
                && ItemOf(entries)[name] == if entries[i].value.Some? then entries[i].value.value else ""
      {
        ItemIs(entries, name);
      }
    }
    hide HoldsEntries, ItemOf, LastAt;
  }

  /** A new source loads a partition at its first access, and counts what was supplied. */
  method FirstCount(recordMode: bool, disk: Loader, encode: Encode, p: string) returns (src: OrderedSource, n: nat)
    requires ShortLoader(recordMode, disk) && p != "" && p in disk && |disk[p]| <= INT_MAX && Carries(p, |disk[p]|)
    ensures fresh(src) && src.Sound() && p in src.loaded && n == |disk[p]| == |src.Items(p)|
    ensures forall i :: 0 <= i < n ==> HoldsEntries(src.Items(p)[i], disk[p][i])
  {
    src := new OrderedSource(recordMode, false, disk, encode);
    LoaderItems(src.Now(), disk, p);
    assert src.Room(p, 0);
    hide *;
    n := src.OrderedCount(p);
  }
}
