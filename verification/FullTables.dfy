/** Queries that fill the planner's tables: the seventeenth filter that is lost, and the same
    filters in an order that loses none. */
module FullTables {
  import opened Collections
  import opened Text
  import opened Wrappers
  import opened Matching
  import opened Rows
  import opened View
  import opened Planner
  import opened PlannerLaws
  import opened Environments
  import opened PlannerExact

  /** Field names of 1, 2, 3, .. bytes. */
  function Name(k: nat): string {
    seq(k + 1, _ => 'f')
  }

  function Names(n: nat): set<string> {
    set k: nat | k < n :: Name(k)
  }

  function RefField(k: nat): Field {
    Field(Name(k), MultiReference, Some("t"), false, false)
  }

  /** Sixteen multi-reference fields with one target. */
  function Sixteen(): seq<Field> {
    seq(16, k requires 0 <= k => RefField(k))
  }

  /** A source where "y" is at position 6 and any other slug at 5; nothing is indexed. */
  function World(): Env {
    var target := Target([], map[], slug => Some(if slug == "y" then 6 else 5), _ => None);
    Env((_, text) => Some(text), (_, _, _, _) => None, map["t" := target], (_, _) => None)
  }

  /** A row whose sixteen cells refer to position 5. */
  function Fives(): Cells {
    map["r" := map n | n in Names(16) :: "5"]
  }

  /** Each of the first n fields asked for "x". */
  function Asked(n: nat): (r: seq<FieldFilter>)
    ensures |r| == n && forall k :: 0 <= k < n ==> r[k] == FieldFilter(Name(k), Some("x"), None)
  {
    seq(n, k requires 0 <= k => FieldFilter(Name(k), Some("x"), None))
  }

  /** The first field asked for "y" as well. */
  const again := FieldFilter(Name(0), Some("y"), None)

  /** That filter in seventeenth place, and in second. */
  function Late(): seq<FieldFilter> {
    Asked(16) + [again]
  }

  function Early(): seq<FieldFilter> {
    [Asked(16)[0], again] + Asked(16)[1..]
  }

  lemma {:induction false} NamesSize(n: nat)
    ensures |Names(n)| == n && forall k: nat :: Name(k) in Names(n) <==> k < n
  {
    if n > 0 {
      NamesSize(n - 1);
      assert Names(n) == Names(n - 1) + {Name(n - 1)};
    }
    forall k: nat | Name(k) in Names(n) ensures k < n {
      var j: nat :| j < n && Name(j) == Name(k);
      assert |Name(j)| == |Name(k)|;
    }
  }

  lemma FieldAt(k: nat)
    requires k < 16
    ensures KindOf(Sixteen(), Name(k)) == MultiReference && IsMultiRef(Sixteen(), Name(k))
    ensures TargetOf(World(), Sixteen(), Name(k)) == Some(World().targets["t"])
    ensures forall f: FieldFilter :: f.field == Name(k) && f.op == None ==> !NeedsAll(Sixteen(), f)
  {
    hide Name;
    assert Sixteen()[k].name == Name(k);
    var i := FieldIndex(Sixteen(), Name(k));
    assert Sixteen()[i] == RefField(i);
  }

  lemma NotFullText(f: FieldFilter, fs: seq<FieldFilter>)
    ensures !IsFullText(World(), Sixteen(), [], f)
    ensures AfterFullText(World(), Sixteen(), [], fs) == fs
  {
    hide Name, Hits;
    var i := FieldIndex(Sixteen(), f.field);
    assert i < 16 ==> Sixteen()[i] == RefField(i);
    assert forall g :: !IsFullText(World(), Sixteen(), [], g);
  }

  lemma AskedRef(f: FieldFilter, k: nat)
    requires k < 16 && f.field == Name(k) && HasValue(f)
    ensures IsRef(World(), Sixteen(), f) && AsksRef(World(), Sixteen(), [], f)
  {
    NotFullText(f, []);
    FieldAt(k);
    hide Name, Sixteen, World, IsFullText, KindOf, TargetOf;
  }

  lemma AskedRefers(k: nat)
    requires k < 16
    ensures var f := FieldFilter(Name(k), Some("x"), None);
            Cell(Fives(), "r", Name(k)) == Some("5") && Refers(World(), Sixteen(), Fives(), f, "r")
  {
    FieldAt(k);
    NamesSize(16);
    hide Name, Sixteen;
    assert Digits(5) == "5" && Split("5", '\n') == ["5"];
  }

  lemma LateAt(f: FieldFilter)
    requires f in Late()
    ensures exists k: nat :: k < 16 && f.field == Name(k)
    ensures f.op == None && HasValue(f)
  {
    var i :| 0 <= i < 17 && Late()[i] == f;
    assert f.field == Name(if i < 16 then i else 0);
  }

  lemma LateIsAskedFor()
    ensures OneLine(World(), Sixteen(), Fives(), [], Late(), None, "r")
  {
    forall f | f in Late() ensures Demands(World(), Sixteen(), Fives(), [], Late(), f, "r") {
      LateAt(f);
      var k: nat :| k < 16 && f.field == Name(k);
      var g := FieldFilter(Name(k), Some("x"), None);
      assert Late()[k] == g;
      AskedRef(f, k);
      AskedRef(g, k);
      AskedRefers(k);
      FieldAt(k);
      NotFullText(f, []);
      hide Name, Sixteen, World, IsFullText, AsksRef, Refers, Fives, Late, NeedsAll, KindOf;
    }
  }

  lemma {:induction false} AskedFields(n: nat)
    requires n <= 16
    ensures RefFields(World(), Sixteen(), Asked(n)) == Names(n)
  {
    hide IsRef, World, Sixteen;
    forall k: nat | k < n ensures IsRef(World(), Sixteen(), Asked(n)[k]) && Asked(n)[k] in Asked(n) {
      AskedRef(Asked(n)[k], k);
    }
    hide Name;
  }

  lemma {:induction false} CountAtMost(env: Env, fields: seq<Field>, fs: seq<FieldFilter>)
    ensures RefCount(env, fields, fs) <= |fs|
  {
    if fs != [] {
      CountAtMost(env, fields, fs[..|fs| - 1]);
    }
  }

  lemma EarlyTaken()
    ensures GroupedTaken(World(), Sixteen(), [], Early())
  {
    NotFullText(again, Early());
    hide World, Sixteen, IsRef, AfterFullText, IsGrouped, RefCount, RefFields, Name, Names, Early;
    forall i: nat | i < |Early()| ensures HasRoom(World(), Sixteen(), Early()[..i]) {
      CountAtMost(World(), Sixteen(), Early()[..i]);
      EarlyFields(i);
      NamesSize(15);
      SubsetSize(RefFields(World(), Sixteen(), Early()[..i]), Names(15));
    }
  }

  lemma EarlyFields(i: nat)
    requires i < |Early()|
    ensures i <= 16 && RefFields(World(), Sixteen(), Early()[..i]) <= Names(15)
  {
    hide World, Sixteen, IsRef, Name;
    NamesSize(15);
    forall f | f in Early()[..i] ensures f.field in Names(15) {
      var j :| 0 <= j < i && Early()[j] == f;
      assert f.field == Name(if j <= 1 then 0 else j - 1);
    }
  }

  /** Sixteen fields asked for "x" and then the first for "y" too, any of the two being enough: the
      row is asked for and lost.  With the last filter moved to second place it is kept. */
  lemma SeventeenthLoses()
    ensures OneLine(World(), Sixteen(), Fives(), [], Late(), None, "r")
    ensures !Keeps(World(), Sixteen(), Fives(), [], Late(), None, "r")
    ensures Keeps(World(), Sixteen(), Fives(), [], Early(), None, "r")
    ensures forall f :: f in Late() <==> f in Early()
  {
    hide *;
    LateIsAskedFor();
    LateSpills();
    SameFilters();
    EarlyTaken();
    SameMembersOneLine(World(), Sixteen(), Fives(), [], Late(), Early(), None, "r");
    KeepsIsOneLine(World(), Sixteen(), Fives(), [], Early(), None, "r");
  }

  lemma SameFilters()
    ensures OpsAgree(Early()) && forall f :: f in Late() <==> f in Early()
  {
    hide Name;
    assert Asked(16) == [Asked(16)[0]] + Asked(16)[1..];
  }

  lemma LateSpills()
    ensures !Keeps(World(), Sixteen(), Fives(), [], Late(), None, "r")
  {
    NotFullText(again, Late());
    AskedRef(again, 0);
    FieldAt(0);
    AskedRefers(0);
    AskedFields(16);
    NamesSize(16);
    assert Late()[..16] == Asked(16) && Late()[16] == again;
    hide IsRef, IsFullText, Sixteen, World, Fives, Late, Keeps, KindOf, RefFields, Name, Names;
    assert IsGrouped(World(), Sixteen(), [], Late(), again);
    assert !FilterPasses(World().fold, Sixteen(), Fives(), again, "r") by {
      assert Lower("5") == "5" && Lower("y") == "y" && Split("5", '\n') == ["5"];
    }
    hide FilterPasses, IsGrouped;
    assert Spilled(World(), Sixteen(), [], Late(), 16);
    SpilledIsText(World(), World(), Sixteen(), Fives(), [], Late(), "r", 16);
  }
}
