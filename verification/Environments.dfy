/** Lawful environments of the planner, and two that are made from another one: in the first nothing
    is folded, in the second the slugs that the filters name are numbered. */
module Environments {
  import opened Text
  import opened Wrappers
  import opened Matching
  import opened Tokens
  import opened Rows
  import opened View
  import opened Planner
  import opened PlannerLaws

  // ---- environments --------------------------------------------------------------------------

  ghost predicate Injective(pos: string -> Option<nat>) {
    forall a, b :: pos(a).Some? && pos(a) == pos(b) ==> a == b
  }

  /** Folding works piece by piece, and no two slugs are at one position. */
  ghost predicate Lawful(env: Env) {
    && (exists full :: FoldLaw(env.fold, full))
    && forall t :: t in env.targets ==> Injective(env.targets[t].pos)
  }

  /** Another environment, in which the filters take the same ways through the planner. */
  ghost predicate Like(env: Env, other: Env) {
    other.search == env.search && other.targets.Keys == env.targets.Keys
  }

  lemma LikeFilter(env: Env, other: Env, fields: seq<Field>, index: Index, f: FieldFilter)
    requires Like(env, other)
    ensures IsFullText(other, fields, index, f) <==> IsFullText(env, fields, index, f)
    ensures IsRef(other, fields, f) <==> IsRef(env, fields, f)
    ensures AsksRef(other, fields, index, f) <==> AsksRef(env, fields, index, f)
    ensures forall row :: IsHit(other, fields, index, f, row) <==> IsHit(env, fields, index, f, row)
  {
  }

  lemma LikeGrouped(env: Env, other: Env, fields: seq<Field>, index: Index, fs: seq<FieldFilter>, f: FieldFilter)
    requires Like(env, other)
    ensures IsGrouped(other, fields, index, fs, f) <==> IsGrouped(env, fields, index, fs, f)
  {
    hide AsksRef, KindOf;
    LikeFilter(env, other, fields, index, f);
    forall g ensures AsksRef(other, fields, index, g) <==> AsksRef(env, fields, index, g) {
      LikeFilter(env, other, fields, index, g);
    }
  }

  lemma {:induction false} LikeRoom(env: Env, other: Env, fields: seq<Field>, fs: seq<FieldFilter>)
    requires Like(env, other)
    ensures HasRoom(other, fields, fs) <==> HasRoom(env, fields, fs)
    ensures RefCount(other, fields, fs) == RefCount(env, fields, fs)
  {
    hide IsRef;
    forall f ensures IsRef(other, fields, f) <==> IsRef(env, fields, f) {
      LikeFilter(env, other, fields, [], f);
    }
    if fs != [] {
      LikeRoom(env, other, fields, fs[..|fs| - 1]);
    }
    assert RefFields(other, fields, fs) == RefFields(env, fields, fs);
  }

  lemma LikePlace(env: Env, other: Env, fields: seq<Field>, index: Index, fs: seq<FieldFilter>, i: nat)
    requires Like(env, other)
    ensures AfterFullText(other, fields, index, fs) == AfterFullText(env, fields, index, fs)
    ensures HasPlace(other, fields, index, fs, i) <==> HasPlace(env, fields, index, fs, i)
  {
    forall f ensures IsFullText(other, fields, index, f) <==> IsFullText(env, fields, index, f) {
      LikeFilter(env, other, fields, index, f);
    }
    hide HasRoom, IsFullText;
    assert AfterFullText(other, fields, index, fs) == AfterFullText(env, fields, index, fs);
    if i < |fs| {
      LikeRoom(env, other, fields, AfterFullText(env, fields, index, fs)[..i]);
    }
  }

  /** A filter that the view tests as a text wherever there is room. */
  ghost predicate TextTested(env: Env, fields: seq<Field>, index: Index, fs: seq<FieldFilter>, g: FieldFilter) {
    HasValue(g) && !IsFullText(env, fields, index, g) && !IsGrouped(env, fields, index, fs, g)
  }

  /** The view's key `"row:name"` outgrows its buffer. */
  predicate Overlong(row: string, name: string) {
    |row| + 1 + |name| >= 512
  }

  // ---- rows made from a row ----------------------------------------------------------------------

  /** Row r gets the record of another row, its texts changed by a function of the field name. */
  ghost function Placed(cells: Cells, row: string, r: string, to: (string, string) -> string): (c: Cells)
    ensures row in cells ==> forall n ::
              Cell(c, r, n) == if Cell(cells, row, n).Some? then Some(to(n, Cell(cells, row, n).value)) else None
  {
    if row in cells then cells[r := map n | n in cells[row] :: to(n, cells[row][n])] else cells
  }

  lemma GroupedCell(env: Env, fields: seq<Field>, cells: Cells, index: Index, fs: seq<FieldFilter>, f: FieldFilter,
                    row: string)
    requires f in fs && IsGrouped(env, fields, index, fs, f) && Demands(env, fields, cells, index, fs, f, row)
    ensures row in cells && HasValue(f) && IsRef(env, fields, f) && AsksRef(env, fields, index, f)
  {
    hide NeedsAll, IsFullText, KindOf, HasToken;
  }

  // ---- nothing folded ----------------------------------------------------------------------------

  function Plainly(env: Env): Env {
    env.(fold := (_, t) => Some(t))
  }

  lemma PlainlyLawful(env: Env)
    requires Lawful(env)
    ensures Like(env, Plainly(env)) && Lawful(Plainly(env))
  {
    hide Injective;
    assert FoldLaw(Plainly(env).fold, t => t);
  }

  /** All values that the filters ask for, one after the other. */
  function Everything(fs: seq<FieldFilter>): string {
    if fs == [] then "" else Everything(fs[..|fs| - 1]) + fs[|fs| - 1].value.GetOr("")
  }

  lemma OccursMore(sub: string, a: string, b: string)
    requires Occurs(sub, a)
    ensures Occurs(sub, a + b)
  {
    var i :| 0 <= i <= |a| && OccursAt(sub, a, i);
    assert (a + b)[i..i + |sub|] == a[i..i + |sub|];
    assert OccursAt(sub, a + b, i);
  }

  lemma {:induction false} EverythingHas(fs: seq<FieldFilter>, f: FieldFilter)
    requires f in fs
    ensures Occurs(f.value.GetOr(""), Everything(fs))
  {
    var front, last := fs[..|fs| - 1], fs[|fs| - 1];
    assert fs == front + [last];
    if f in front {
      EverythingHas(front, f);
      OccursMore(f.value.GetOr(""), Everything(front), last.value.GetOr(""));
    } else {
      Within(Everything(front), last.value.GetOr(""), "");
      assert Everything(front) + last.value.GetOr("") + "" == Everything(fs);
    }
  }

  ghost predicate GroupedName(env: Env, fields: seq<Field>, index: Index, fs: seq<FieldFilter>, n: string) {
    exists f :: f in fs && f.field == n && IsGrouped(env, fields, index, fs, f)
  }

  /** The field of h holds the value that h asks for, a field that is tested as text holds all values,
      and the others what they have. */
  ghost function Holding(env: Env, fields: seq<Field>, index: Index, fs: seq<FieldFilter>, h: Option<FieldFilter>)
    : (string, string) -> string
  {
    (n, text) => if h.Some? && n == h.value.field then h.value.value.GetOr("")
                 else if KindOf(fields, n) == MultiReference || GroupedName(env, fields, index, fs, n) then text
                 else Everything(fs)
  }

  ghost function Held(env: Env, fields: seq<Field>, cells: Cells, index: Index, fs: seq<FieldFilter>, row: string,
                      r: string, h: Option<FieldFilter>): Cells
  {
    Placed(cells, row, r, Holding(env, fields, index, fs, h))
  }

  /** h asks a plain reference for one of several values. */
  ghost predicate CanHold(env: Env, fields: seq<Field>, index: Index, fs: seq<FieldFilter>, h: Option<FieldFilter>) {
    h.Some? ==>
      && h.value in fs && IsGrouped(env, fields, index, fs, h.value) && KindOf(fields, h.value.field) == Reference
  }

  /** On the field of h: any of the values asked will do, and the value of h is one. */
  lemma HoldingHere(env: Env, fields: seq<Field>, cells: Cells, index: Index, fs: seq<FieldFilter>, f: FieldFilter,
                    row: string, r: string, h: FieldFilter)
    requires row in cells && f in fs && Demands(env, fields, cells, index, fs, f, row) && f.field == h.field
    requires CanHold(env, fields, index, fs, Some(h)) && IsHit(env, fields, index, f, r)
    ensures Demands(Plainly(env), fields, Held(env, fields, cells, index, fs, row, r, Some(h)), index, fs, f, r)
  {
    var other, cells' := Plainly(env), Held(env, fields, cells, index, fs, row, r, Some(h));
    LikeGrouped(env, other, fields, index, fs, f);
    LikeFilter(env, other, fields, index, f);
    LikeFilter(env, other, fields, index, h);
    assert AsksRef(env, fields, index, h) && HasValue(h);
    if IsGrouped(env, fields, index, fs, f) {
      GroupHere(env, fields, cells, index, fs, f, row);
      HereRefers(env, fields, cells, index, fs, row, r, h);
      hide Refers, IsFullText, NeedsAll, KindOf, IsGrouped, AsksRef, Held, Plainly;
    } else if !IsFullText(env, fields, index, f) {
      SameFieldGrouped(env, fields, index, fs, f, h);
      hide IsFullText, IsGrouped;
    }
  }

  lemma GroupHere(env: Env, fields: seq<Field>, cells: Cells, index: Index, fs: seq<FieldFilter>, f: FieldFilter,
                  row: string)
    requires f in fs && IsGrouped(env, fields, index, fs, f) && KindOf(fields, f.field) == Reference
    requires Demands(env, fields, cells, index, fs, f, row)
    ensures !NeedsAll(fields, f) && !IsFullText(env, fields, index, f)
    ensures Cell(cells, row, f.field).Some?
  {
    hide IsFullText, KindOf, NeedsAll, HasToken;
    var x :| x in fs && AsksRef(env, fields, index, x) && x.field == f.field && x.value != f.value;
    assert !(Refers(env, fields, cells, f, row) && Refers(env, fields, cells, x, row));
  }

  lemma HereRefers(env: Env, fields: seq<Field>, cells: Cells, index: Index, fs: seq<FieldFilter>, row: string,
                   r: string, h: FieldFilter)
    requires row in cells && Cell(cells, row, h.field).Some? && KindOf(fields, h.field) == Reference && HasValue(h)
    ensures Refers(Plainly(env), fields, Held(env, fields, cells, index, fs, row, r, Some(h)), h, r)
    ensures Cell(Held(env, fields, cells, index, fs, row, r, Some(h)), r, h.field) == h.value
  {
    hide GroupedName, HasToken, Placed, Cell;
  }

  /** A filter on the plain reference field of a group is in the group. */
  lemma SameFieldGrouped(env: Env, fields: seq<Field>, index: Index, fs: seq<FieldFilter>, f: FieldFilter,
                         h: FieldFilter)
    requires h in fs && IsGrouped(env, fields, index, fs, h) && KindOf(fields, h.field) == Reference
    requires f.field == h.field
    ensures HasValue(f) && !IsFullText(env, fields, index, f) ==> IsGrouped(env, fields, index, fs, f)
  {
    hide IsFullText, KindOf;
    var g :| g in fs && AsksRef(env, fields, index, g) && g.field == h.field && g.value != h.value;
    assert g.value != f.value || h.value != f.value;
  }

  lemma NotGrouped(env: Env, fields: seq<Field>, index: Index, fs: seq<FieldFilter>, f: FieldFilter)
    requires KindOf(fields, f.field) != MultiReference
    ensures GroupedName(env, fields, index, fs, f.field) && HasValue(f) && !IsFullText(env, fields, index, f) ==>
              IsGrouped(env, fields, index, fs, f)
  {
    hide IsFullText, KindOf;
    if h :| h in fs && h.field == f.field && IsGrouped(env, fields, index, fs, h) {
      SameFieldGrouped(env, fields, index, fs, f, h);
    }
  }

  lemma HeldCell(env: Env, fields: seq<Field>, cells: Cells, index: Index, fs: seq<FieldFilter>, row: string,
                 r: string, h: Option<FieldFilter>, n: string)
    requires row in cells && (h.Some? ==> n != h.value.field)
    ensures Cell(Held(env, fields, cells, index, fs, row, r, h), r, n)
            == if Cell(cells, row, n).None? || KindOf(fields, n) == MultiReference
                  || GroupedName(env, fields, index, fs, n)
               then Cell(cells, row, n) else Some(Everything(fs))
  {
    hide Placed, Cell, KindOf, GroupedName, Everything;
  }

  lemma KindIsMulti(fields: seq<Field>, name: string)
    ensures IsMultiRef(fields, name) <==> KindOf(fields, name) == MultiReference
  {
  }

  lemma HoldingText(env: Env, fields: seq<Field>, cells: Cells, index: Index, fs: seq<FieldFilter>, f: FieldFilter,
                    row: string, r: string, h: Option<FieldFilter>)
    requires row in cells && f in fs && FilterPasses(env.fold, fields, cells, f, row)
    requires !IsFullText(env, fields, index, f) && !IsGrouped(env, fields, index, fs, f)
    requires (h.Some? ==> f.field != h.value.field) && (HasValue(f) ==> !Overlong(r, f.field))
    ensures FilterPasses(Plainly(env).fold, fields, Held(env, fields, cells, index, fs, row, r, h), f, r)
  {
    HeldCell(env, fields, cells, index, fs, row, r, h, f.field);
    EverythingHas(fs, f);
    hide IsFullText, IsGrouped, Held, Cell, HasToken, Occurs, Everything, GroupedName, KindOf;
    if HasValue(f) && !IsMultiRef(fields, f.field) {
      KindIsMulti(fields, f.field);
      NotGrouped(env, fields, index, fs, f);
    } else {
      KindIsMulti(fields, f.field);
    }
  }

  lemma HoldingRefers(env: Env, fields: seq<Field>, cells: Cells, index: Index, fs: seq<FieldFilter>, g: FieldFilter,
                      row: string, r: string, h: Option<FieldFilter>)
    requires row in cells && GroupedName(env, fields, index, fs, g.field) && (h.Some? ==> g.field != h.value.field)
    ensures Refers(Plainly(env), fields, Held(env, fields, cells, index, fs, row, r, h), g, r)
            <==> Refers(env, fields, cells, g, row)
  {
    hide HasToken, GroupedName, KindOf, Placed, Cell;
  }

  /** No filter demands less of such a row. */
  lemma HoldingDemands(env: Env, fields: seq<Field>, cells: Cells, index: Index, fs: seq<FieldFilter>, f: FieldFilter,
                       row: string, r: string, h: Option<FieldFilter>)
    requires row in cells && f in fs && Demands(env, fields, cells, index, fs, f, row)
    requires CanHold(env, fields, index, fs, h) && IsHit(env, fields, index, f, r)
    requires TextTested(env, fields, index, fs, f) ==> !Overlong(r, f.field)
    ensures Demands(Plainly(env), fields, Held(env, fields, cells, index, fs, row, r, h), index, fs, f, r)
  {
    var other, cells' := Plainly(env), Held(env, fields, cells, index, fs, row, r, h);
    LikeGrouped(env, other, fields, index, fs, f);
    if h.Some? && f.field == h.value.field {
      HoldingHere(env, fields, cells, index, fs, f, row, r, h.value);
    } else {
      LikeFilter(env, other, fields, index, f);
      var grouped := IsGrouped(env, fields, index, fs, f);
      if grouped {
        assert GroupedName(env, fields, index, fs, f.field);
      } else if !IsFullText(env, fields, index, f) {
        HoldingText(env, fields, cells, index, fs, f, row, r, h);
      }
      hide IsGrouped, GroupedName, Held, Plainly;
      forall g
        ensures AsksRef(env, fields, index, g) <==> AsksRef(other, fields, index, g)
        ensures g.field == f.field && grouped ==>
                  (Refers(other, fields, cells', g, r) <==> Refers(env, fields, cells, g, row))
      {
        LikeFilter(env, other, fields, index, g);
        if g.field == f.field && grouped {
          HoldingRefers(env, fields, cells, index, fs, g, row, r, h);
        }
      }
      hide AsksRef, Refers, IsFullText, IsHit, NeedsAll, FilterPasses, CanHold;
    }
  }

  lemma HoldingOneLine(env: Env, fields: seq<Field>, cells: Cells, index: Index, fs: seq<FieldFilter>, row: string,
                       r: string, h: Option<FieldFilter>)
    requires row in cells && OneLine(env, fields, cells, index, fs, None, row)
    requires CanHold(env, fields, index, fs, h) && HitsAll(env, fields, index, fs, r)
    requires forall f :: f in fs && TextTested(env, fields, index, fs, f) ==> !Overlong(r, f.field)
    ensures OneLine(Plainly(env), fields, Held(env, fields, cells, index, fs, row, r, h), index, fs, None, r)
  {
    hide Demands, CanHold, IsHit, TextTested, Overlong, Held, Plainly;
    forall f | f in fs
      ensures Demands(Plainly(env), fields, Held(env, fields, cells, index, fs, row, r, h), index, fs, f, r)
    {
      var i :| 0 <= i < |fs| && fs[i] == f;
      HoldingDemands(env, fields, cells, index, fs, f, row, r, h);
    }
  }

  // ---- slugs numbered ----------------------------------------------------------------------------

  function Values(fs: seq<FieldFilter>): (vals: seq<string>)
    ensures |vals| == |fs| && forall i :: 0 <= i < |fs| ==> vals[i] == fs[i].value.GetOr("")
  {
    seq(|fs|, i requires 0 <= i < |fs| => fs[i].value.GetOr(""))
  }

  function FirstOf(vals: seq<string>, v: string): (k: nat)
    requires v in vals
    ensures k < |vals| && vals[k] == v
  {
    if vals[0] == v then 0 else 1 + FirstOf(vals[1..], v)
  }

  /** The values are at positions from `base` on, and no other slug is anywhere. */
  function Numbered(env: Env, vals: seq<string>, base: nat): Env {
    env.(targets := map t | t in env.targets :: env.targets[t].(pos := NumberOf(vals, base)))
  }

  function NumberOf(vals: seq<string>, base: nat): string -> Option<nat> {
    slug => if slug in vals then Some(base + FirstOf(vals, slug)) else None
  }

  lemma NumberedLike(env: Env, vals: seq<string>, base: nat)
    ensures Like(env, Numbered(env, vals, base)) && Numbered(env, vals, base).fold == env.fold
  {
  }

  lemma NumberedLawful(env: Env, vals: seq<string>, base: nat)
    requires Lawful(env)
    ensures Like(env, Numbered(env, vals, base)) && Lawful(Numbered(env, vals, base))
  {
    hide FoldLaw;
    assert Injective(NumberOf(vals, base)) by {
      hide FirstOf;
    }
    hide Injective, NumberOf;
  }

  /** Numerals from `base` on, one a line. */
  function Numerals(base: nat, n: nat): string {
    if n <= 1 then Digits(base) else Lines(Numerals(base, n - 1), Digits(base + n - 1))
  }

  predicate IsNumeral(base: nat, n: nat, t: string) {
    exists k: nat :: base <= k < base + n && t == Digits(k)
  }

  function Lines(a: string, b: string): string {
    a + "\n" + b
  }

  lemma LinesIndex(a: string, b: string)
    ensures var i, all := IndexOf(a, '\n'), Lines(a, b);
            && IndexOf(all, '\n') == i < |all| && all[..i] == a[..i]
            && all[i + 1..] == if i < |a| then Lines(a[i + 1..], b) else b
    ensures a[..|a|] == a
  {
    var i, all := IndexOf(a, '\n'), Lines(a, b);
    assert forall k :: 0 <= k < |a| ==> all[k] == a[k];
    assert all[|a|] == '\n';
  }

  lemma {:induction false} SplitJoin(a: string, b: string)
    ensures Split(Lines(a, b), '\n') == Split(a, '\n') + Split(b, '\n')
    decreases |a|
  {
    LinesIndex(a, b);
    hide Lines, IndexOf;
    var i, all := IndexOf(a, '\n'), Lines(a, b);
    assert Split(all, '\n') == [a[..i]] + Split(all[i + 1..], '\n');
    if i < |a| {
      SplitJoin(a[i + 1..], b);
      assert Split(a, '\n') == [a[..i]] + Split(a[i + 1..], '\n');
      PieceJoin(a[..i], Split(a[i + 1..], '\n'), Split(b, '\n'));
    }
  }

  lemma PieceJoin(p: string, a: seq<string>, b: seq<string>)
    ensures [p] + (a + b) == ([p] + a) + b
  {
  }

  lemma OneNumeral(k: nat)
    ensures Split(Digits(k), '\n') == [Digits(k)] && Lower(Digits(k)) == Digits(k)
  {
    ValOfDigits(k);
    hide Digits, Val;
    assert forall i :: 0 <= i < |Digits(k)| ==> IsDigit(Digits(k)[i]);
    SplitFirst(Digits(k));
  }

  /** Their tokens are the numerals, which have no case. */
  lemma {:induction false} NumeralTokens(base: nat, n: nat)
    requires n > 0
    ensures forall t :: HasToken(Numerals(base, n), t) <==> IsNumeral(base, n, t)
    ensures Lower(Numerals(base, n)) == Numerals(base, n)
  {
    hide Split, Digits;
    OneNumeral(base + n - 1);
    if n > 1 {
      NumeralTokens(base, n - 1);
      SplitJoin(Numerals(base, n - 1), Digits(base + n - 1));
      NumeralsJoin(Numerals(base, n - 1), Digits(base + n - 1));
      assert forall t :: IsNumeral(base, n, t) <==> IsNumeral(base, n - 1, t) || t == Digits(base + n - 1);
      hide IsNumeral;
    } else {
      assert forall t :: IsNumeral(base, 1, t) <==> t == Digits(base);
      hide IsNumeral;
    }
  }

  lemma NumeralsJoin(a: string, b: string)
    requires Lower(a) == a && Lower(b) == b
    ensures Lower(Lines(a, b)) == Lines(a, b)
  {
    LowerConcat(a, "\n", b);
    assert Lower("\n") == "\n";
  }

  /** Every multi-reference field that has a target holds all the numerals. */
  function AtNumbers(env: Env, fields: seq<Field>, base: nat, n: nat): (string, string) -> string {
    (name, text) =>
      if KindOf(fields, name) == MultiReference && TargetOf(env, fields, name).Some? then Numerals(base, n) else text
  }

  ghost function NumberedCells(env: Env, fields: seq<Field>, cells: Cells, fs: seq<FieldFilter>, row: string, base: nat)
    : Cells
  {
    Placed(cells, row, row, AtNumbers(env, fields, base, |fs|))
  }

  lemma NumberedNeedle(env: Env, fields: seq<Field>, fs: seq<FieldFilter>, g: FieldFilter, base: nat)
    requires IsRef(env, fields, g) && g in fs
    ensures var needle := Needle(Numbered(env, Values(fs), base), fields, g);
            if KindOf(fields, g.field) == Reference then needle == Needle(env, fields, g)
            else IsNumeral(base, |fs|, needle)
    ensures KindOf(fields, g.field) != Reference ==>
              KindOf(fields, g.field) == MultiReference && TargetOf(env, fields, g.field).Some?
  {
    hide Digits, FirstOf;
    var i :| 0 <= i < |fs| && fs[i] == g;
    assert Values(fs)[i] == g.value.value && g.value.value in Values(fs);
    assert TargetOf(Numbered(env, Values(fs), base), fields, g.field).Some? <==> TargetOf(env, fields, g.field).Some?;
  }

  lemma NumberedRefers(env: Env, fields: seq<Field>, cells: Cells, fs: seq<FieldFilter>, g: FieldFilter, row: string,
                       base: nat)
    requires row in cells && IsRef(env, fields, g) && g in fs
    ensures Refers(Numbered(env, Values(fs), base), fields, NumberedCells(env, fields, cells, fs, row, base), g, row)
            <==> if KindOf(fields, g.field) == Reference then Refers(env, fields, cells, g, row)
                 else Cell(cells, row, g.field).Some?
  {
    NumberedNeedle(env, fields, fs, g, base);
    NumeralTokens(base, |fs|);
    hide HasToken, Digits, Placed, Cell, Needle, Numbered, TargetOf, IsNumeral, Numerals, Values;
  }

  lemma NumberedText(env: Env, fields: seq<Field>, cells: Cells, fs: seq<FieldFilter>, f: FieldFilter, row: string,
                     base: nat)
    requires row in cells && !(IsRef(env, fields, f) && KindOf(fields, f.field) == MultiReference)
    ensures FilterPasses(env.fold, fields, NumberedCells(env, fields, cells, fs, row, base), f, row)
            <==> FilterPasses(env.fold, fields, cells, f, row)
  {
    hide HasToken, TextMatches, Placed, Cell, Numerals;
  }

  lemma NumberedDemands(env: Env, fields: seq<Field>, cells: Cells, index: Index, fs: seq<FieldFilter>,
                        f: FieldFilter, row: string, base: nat)
    requires row in cells && f in fs && Demands(env, fields, cells, index, fs, f, row)
    ensures Demands(Numbered(env, Values(fs), base), fields, NumberedCells(env, fields, cells, fs, row, base), index,
                    fs, f, row)
  {
    var other, cells' := Numbered(env, Values(fs), base), NumberedCells(env, fields, cells, fs, row, base);
    assert Like(env, other);
    LikeGrouped(env, other, fields, index, fs, f);
    LikeFilter(env, other, fields, index, f);
    forall g | g in fs && (AsksRef(env, fields, index, g) || AsksRef(other, fields, index, g))
      ensures AsksRef(env, fields, index, g) && AsksRef(other, fields, index, g)
      ensures Refers(env, fields, cells, g, row) ==> Cell(cells, row, g.field).Some?
      ensures Refers(other, fields, cells', g, row)
              <==> if KindOf(fields, g.field) == Reference then Refers(env, fields, cells, g, row)
                   else Cell(cells, row, g.field).Some?
    {
      LikeFilter(env, other, fields, index, g);
      NumberedRefers(env, fields, cells, fs, g, row, base);
    }
    if !IsFullText(env, fields, index, f) && !IsGrouped(env, fields, index, fs, f) {
      NumberedText(env, fields, cells, fs, f, row, base);
    }
    assert other.fold == env.fold;
    hide AsksRef, Refers, IsFullText, IsHit, NeedsAll, FilterPasses, KindOf, Numbered, NumberedCells;
  }

  lemma NumberedOneLine(env: Env, fields: seq<Field>, cells: Cells, index: Index, fs: seq<FieldFilter>, row: string,
                        base: nat)
    requires row in cells && OneLine(env, fields, cells, index, fs, None, row)
    ensures OneLine(Numbered(env, Values(fs), base), fields, NumberedCells(env, fields, cells, fs, row, base), index,
                    fs, None, row)
  {
    hide Demands, Numbered, NumberedCells;
    forall g | g in fs
      ensures Demands(Numbered(env, Values(fs), base), fields, NumberedCells(env, fields, cells, fs, row, base),
                      index, fs, g, row)
    {
      NumberedDemands(env, fields, cells, index, fs, g, row, base);
    }
  }

  /** No numeral from `base` on is this text. */
  ghost predicate Avoids(base: nat, v: string) {
    forall k: nat :: base <= k ==> Digits(k) != v
  }

  lemma AvoidingBase(v: string) returns (base: nat)
    ensures Avoids(base, v)
  {
    base := Val(v) + 1;
    forall k: nat | base <= k ensures Digits(k) != v {
      ValOfDigits(k);
      hide Digits, Val;
    }
    hide Digits, Val;
  }

  /** Then a row that holds the numerals does not have the value as a text. */
  lemma NumberedFails(env: Env, fields: seq<Field>, cells: Cells, fs: seq<FieldFilter>, f: FieldFilter, row: string,
                      base: nat)
    requires row in cells && f in fs && IsRef(env, fields, f) && KindOf(fields, f.field) == MultiReference
    requires Avoids(base, Lower(f.value.value))
    ensures !FilterPasses(env.fold, fields, NumberedCells(env, fields, cells, fs, row, base), f, row)
  {
    NumeralTokens(base, |fs|);
    NotNumeral(base, |fs|, Lower(f.value.value));
    NumberedCell(env, fields, cells, fs, f, row, base);
    hide Lower, IsNumeral, Numerals, NumberedCells, Cell, HasToken, TextMatches, TargetOf, Avoids;
  }

  lemma NotNumeral(base: nat, n: nat, v: string)
    requires Avoids(base, v)
    ensures !IsNumeral(base, n, v)
  {
    hide Digits;
  }

  lemma NumberedCell(env: Env, fields: seq<Field>, cells: Cells, fs: seq<FieldFilter>, f: FieldFilter, row: string,
                     base: nat)
    requires row in cells && IsRef(env, fields, f) && KindOf(fields, f.field) == MultiReference
    ensures var cell := Cell(NumberedCells(env, fields, cells, fs, row, base), row, f.field);
            cell.Some? ==> cell.value == Numerals(base, |fs|)
  {
    hide Numerals, Placed, Cell;
  }
}
