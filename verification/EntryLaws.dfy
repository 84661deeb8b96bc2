/** What a put stores, said of its entries alone: the last entry of a name decides. */
module EntryLaws {
  import opened Wrappers
  import opened Records
  import opened Rows
  import opened Registry

  /** The last entry of the name. */
  predicate LastAt(entries: seq<Entry>, name: string, i: int) {
    && 0 <= i < |entries| && entries[i].name == Some(name)
    && forall j :: i < j < |entries| ==> entries[j].name != Some(name)
  }

  lemma LastSnoc(front: seq<Entry>, e: Entry, name: string, i: int)
    ensures LastAt(front + [e], name, i)
            <==> if e.name == Some(name) then i == |front| else LastAt(front, name, i)
  {
    var all := front + [e];
    assert all[|front|] == e && forall k :: 0 <= k < |front| ==> all[k] == front[k];
  }

  /** The record of these entries: a missing value is the empty text. */
  lemma {:induction false} ItemIs(entries: seq<Entry>, name: string)
    ensures name in ItemOf(entries) <==> exists i :: LastAt(entries, name, i)
    ensures forall i :: LastAt(entries, name, i) ==>
              name in ItemOf(entries)
              && ItemOf(entries)[name] == (if entries[i].value.Some? then entries[i].value.value else "")
  {
    if entries != [] {
      var front, e := entries[..|entries| - 1], entries[|entries| - 1];
      assert entries == front + [e];
      ItemIs(front, name);
      forall i
        ensures LastAt(entries, name, i) <==> if e.name == Some(name) then i == |front| else LastAt(front, name, i)
      {
        LastSnoc(front, e, name, i);
      }
      hide LastAt;
      if e.name == Some(name) {
        assert LastAt(entries, name, |front|);
      } else if i :| LastAt(front, name, i) {
        assert LastAt(entries, name, i);
      }
    }
  }

  lemma {:induction false} StoredIs(resolve: (string, string) -> string, entries: seq<Entry>, i: nat)
    requires i < |entries|
    ensures StoredEntries(resolve, entries)[i].name == entries[i].name
    ensures entries[i].name.Some? ==>
              StoredEntries(resolve, entries)[i].value
              == Some(resolve(entries[i].name.value, if entries[i].value.Some? then entries[i].value.value else ""))
  {
    if i < |entries| - 1 {
      StoredIs(resolve, entries[..|entries| - 1], i);
    }
  }

  /** After a put each field named holds what the record type stores for the last of its values, and
      no other field of any row changed. */
  lemma PutStores(before: Cells, after: Cells, row: string, entries: seq<Entry>, resolve: (string, string) -> string)
    requires Grown(before, after, row, ItemOf(StoredEntries(resolve, entries)))
    ensures forall i, name :: LastAt(entries, name, i) ==>
              Cell(after, row, name)
              == Some(resolve(name, if entries[i].value.Some? then entries[i].value.value else ""))
    ensures forall r, name :: r != row || (forall i :: !LastAt(entries, name, i)) ==>
              Cell(after, r, name) == Cell(before, r, name)
  {
    var stored := StoredEntries(resolve, entries);
    forall i | 0 <= i < |entries|
      ensures stored[i].name == entries[i].name
      ensures entries[i].name.Some? ==>
                stored[i].value
                == Some(resolve(entries[i].name.value, if entries[i].value.Some? then entries[i].value.value else ""))
    {
      StoredIs(resolve, entries, i);
    }
    forall r, name
      ensures Cell(after, r, name) == if r == row && name in ItemOf(stored) then Some(ItemOf(stored)[name])
                                      else Cell(before, r, name)
    {
      CellOfRecord(before, r, name);
      CellOfRecord(after, r, name);
    }
    hide StoredEntries, ItemOf, Cell;
    forall name ensures name in ItemOf(stored) <==> exists i :: LastAt(stored, name, i) {
      ItemIs(stored, name);
    }
    forall i, name ensures LastAt(stored, name, i) <==> LastAt(entries, name, i) {
    }
    forall i, name | LastAt(entries, name, i)
      ensures name in ItemOf(stored)
      ensures ItemOf(stored)[name] == resolve(name, if entries[i].value.Some? then entries[i].value.value else "")
    {
      ItemIs(stored, name);
    }
  }

  // ---- tokens -------------------------------------------------------------------------------

  /** The last entry of the name whose text encodes. */
  predicate LastCodedAt(encode: Encode, entries: seq<Entry>, name: string, i: int) {
    && 0 <= i < |entries| && Codes(encode, entries[i], name)
    && forall j :: i < j < |entries| ==> !Codes(encode, entries[j], name)
  }

  predicate Codes(encode: Encode, e: Entry, name: string) {
    e.name == Some(name) && e.value.Some? && encode(e.value.value).Some?
  }

  /** The tokens stored for a name are those of that entry. */
  lemma {:induction false} LastCodeIs(encode: Encode, entries: seq<Entry>, name: string)
    ensures forall i :: LastCodedAt(encode, entries, name, i) ==>
              LastCode(encode, entries, name) == encode(entries[i].value.value)
    ensures (forall i :: !LastCodedAt(encode, entries, name, i)) ==> LastCode(encode, entries, name) == None
  {
    if entries != [] {
      var front, e := entries[..|entries| - 1], entries[|entries| - 1];
      LastCodeIs(encode, front, name);
      hide Codes;
      forall i
        ensures LastCodedAt(encode, entries, name, i)
                <==> if Codes(encode, e, name) then i == |front| else LastCodedAt(encode, front, name, i)
      {
        assert forall k :: 0 <= k < |front| ==> entries[k] == front[k];
      }
      if Codes(encode, e, name) {
        assert LastCodedAt(encode, entries, name, |front|);
      } else if i :| LastCodedAt(encode, front, name, i) {
        assert LastCodedAt(encode, entries, name, i);
      }
    }
  }
}
