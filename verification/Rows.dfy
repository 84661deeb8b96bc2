/** Row sets: row ids in iteration order, and the cells of their rows. */
module Rows {
  import opened Collections
  import opened Wrappers
  import opened Records

  /** What `fields_hd` holds for each row id: field name to text. */
  type Cells = map<string, Record>

  datatype Kind = Value | Reference | MultiReference | Derived

  datatype Field = Field(name: string, kind: Kind, target: Option<string>, searchable: bool, combine: bool)

  /** A field filter; its value is set to NULL once a pre-filter has dealt with it. */
  datatype FieldFilter = FieldFilter(field: string, value: Option<string>, op: Option<string>)

  function Cell(cells: Cells, row: string, field: string): Option<string> {
    if row in cells && field in cells[row] then Some(cells[row][field]) else None
  }

  /** `row_field_val`: the key `"row:field"` must fit in 512 bytes. */
  function RowFieldVal(cells: Cells, row: string, field: string): Option<string> {
    if |row| + 1 + |field| >= 512 then None else Cell(cells, row, field)
  }

  /** Index of the first field with this name, or the number of fields. */
  function FieldIndex(fields: seq<Field>, name: string): (i: nat)
    ensures i <= |fields|
    ensures i < |fields| ==> fields[i].name == name
    ensures forall k :: 0 <= k < i ==> fields[k].name != name
  {
    if fields == [] || fields[0].name == name then 0
    else
      assert forall k :: 0 < k < |fields| ==> fields[k] == fields[1..][k - 1];
      1 + FieldIndex(fields[1..], name)
  }

  /** The members of s that are in the set, in the order of s. */
  function Sift(s: seq<string>, keep: set<string>): (r: seq<string>)
    ensures |r| <= |s|
  {
    if s == [] then []
    else
      var front, last := Sift(s[..|s| - 1], keep), s[|s| - 1];
      if last in keep then front + [last] else front
  }

  lemma SiftSnoc(s: seq<string>, i: nat, keep: set<string>)
    requires i < |s|
    ensures Sift(s[..i + 1], keep) == if s[i] in keep then Sift(s[..i], keep) + [s[i]] else Sift(s[..i], keep)
  {
    assert s[..i + 1][..i] == s[..i];
  }

  lemma {:induction false} SiftIn(s: seq<string>, keep: set<string>)
    ensures forall r :: r in Sift(s, keep) <==> r in s && r in keep
    ensures Distinct(s) ==> Distinct(Sift(s, keep))
  {
    if s != [] {
      SiftIn(s[..|s| - 1], keep);
      assert s == s[..|s| - 1] + [s[|s| - 1]];
    }
  }

  /** Sifting depends on the members of s only. */
  lemma {:induction false} SiftSame(s: seq<string>, a: set<string>, b: set<string>)
    requires forall r :: r in s ==> (r in a <==> r in b)
    ensures Sift(s, a) == Sift(s, b)
  {
    if s != [] {
      SiftSame(s[..|s| - 1], a, b);
    }
  }

  lemma {:induction false} SiftAll(s: seq<string>, keep: set<string>)
    requires forall r :: r in s ==> r in keep
    ensures Sift(s, keep) == s
  {
    if s != [] {
      SiftAll(s[..|s| - 1], keep);
    }
  }

  /** Two sifts in a row are one sift by both. */
  lemma {:induction false} SiftTwice(s: seq<string>, a: set<string>, b: set<string>)
    ensures Sift(Sift(s, a), b) == Sift(s, a * b)
  {
    if s != [] {
      SiftTwice(s[..|s| - 1], a, b);
      var front, last := Sift(s[..|s| - 1], a), s[|s| - 1];
      assert (front + [last])[..|front|] == front;
    }
  }

  /** Intersecting two sifts of one list: keep of the one what is in the other. */
  lemma SiftMeet(s: seq<string>, a: set<string>, b: set<string>)
    ensures Sift(Sift(s, a), set r | r in Sift(s, b)) == Sift(s, a * b)
  {
    SiftIn(s, b);
    SiftTwice(s, a, set r | r in Sift(s, b));
    SiftSame(s, a * (set r | r in Sift(s, b)), a * b);
  }
}
