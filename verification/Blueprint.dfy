/** Query plans: which models a query needs fetched, and what a value displays as. */
module Blueprint {
  import opened Collections
  import opened Text
  import opened Wrappers

  // ---- models and queries ----------------------------------------------------------------

  datatype Prim = StringType | NumberType | BooleanType | FileType

  datatype FieldType =
    | Primitive(prim: Prim)
    | Reference(entity: string, display: string)
    | Array(item: FieldType)
    | Shape(fields: seq<ShapeField>)

  datatype ShapeField = ShapeField(name: string, title: string, fieldType: FieldType)

  /** A model's fields in declaration order; the first of a name counts. */
  datatype ModelField = ModelField(name: string, fieldType: FieldType)

  type Models = map<string, seq<ModelField>>

  datatype Value =
    | Null
    | Bool(b: bool)
    | Int(i: int)
    | Float(text: string)
    | String(s: string)
    | List(items: seq<Value>)
    | Bytes(bytes: seq<nat>)
    | Map(entries: seq<MapEntry>)

  datatype MapEntry = MapEntry(key: string, value: Value)

  datatype Sort = Sort(field: string, ascending: bool)

  /** A query; `wheres` is an insertion-ordered map, each key once. */
  datatype Query = Query(
    model: string, select: seq<string>, wheres: seq<MapEntry>, layout: seq<seq<string>>,
    page: Option<nat>, perPage: Option<nat>, sort: Option<Sort>, verb: Option<string>)

  datatype Manifest = Manifest(
    base: string, id: Option<Value>, fields: seq<string>, filter: seq<MapEntry>,
    lookups: seq<string>, inlines: seq<string>,
    page: Option<nat>, perPage: Option<nat>, sort: Option<Sort>, verb: Option<string>, filterFields: seq<seq<string>>)

  datatype Error =
    | UnknownModel(model: string)
    | UnknownField(model: string, field: string)
    | UnknownReference(model: string, field: string, target: string)
    | EmptySelection
    | MissingBaseModel(model: string)

  datatype Result<+T> = Ok(value: T) | Err(error: Error)

  function GetEntry(entries: seq<MapEntry>, key: string): Option<Value> {
    if entries == [] then None
    else if entries[0].key == key then Some(entries[0].value) else GetEntry(entries[1..], key)
  }

  /** The entries under other keys, in order. */
  function Without(entries: seq<MapEntry>, key: string): seq<MapEntry> {
    if entries == [] then []
    else
      var rest := Without(entries[1..], key);
      if entries[0].key == key then rest else [entries[0]] + rest
  }

  function TypeOf(fields: seq<ModelField>, name: string): Option<FieldType> {
    if fields == [] then None
    else if fields[0].name == name then Some(fields[0].fieldType) else TypeOf(fields[1..], name)
  }

  /** `IndexSet::insert`. */
  function Insert(s: seq<string>, x: string): seq<string> {
    if x in s then s else s + [x]
  }

  // ---- what a field type refers to ---------------------------------------------------------

  /** A reference met in a type: where, to what, and whether it is needed as a lookup. */
  datatype Need = Need(entity: string, field: string, explicit: bool)

  function Needs(t: FieldType, field: string, explicit: bool): seq<Need>
    decreases t
  {
    match t
    case Primitive(_) => []
    case Reference(entity, _) => [Need(entity, field, explicit)]
    case Array(item) => Needs(item, field, true)
    case Shape(fields) => ShapeNeeds(fields, explicit)
  }

  function ShapeNeeds(fields: seq<ShapeField>, explicit: bool): seq<Need>
    decreases fields
  {
    if fields == [] then []
    else
      var last := fields[|fields| - 1];
      ShapeNeeds(fields[..|fields| - 1], explicit) + Needs(last.fieldType, last.name, explicit)
  }

  /** A type mentions a model: as a reference, or inside an array or a shape, at any depth. */
  predicate Mentions(t: FieldType, entity: string)
    decreases t
  {
    match t
    case Primitive(_) => false
    case Reference(e, _) => e == entity
    case Array(item) => Mentions(item, entity)
    case Shape(fields) => exists i :: 0 <= i < |fields| && Mentions(fields[i].fieldType, entity)
  }

  /** And mentions it inside an array, or anywhere if the whole is needed. */
  predicate MentionsAsLookup(t: FieldType, explicit: bool, entity: string)
    decreases t
  {
    match t
    case Primitive(_) => false
    case Reference(e, _) => explicit && e == entity
    case Array(item) => Mentions(item, entity)
    case Shape(fields) => exists i :: 0 <= i < |fields| && MentionsAsLookup(fields[i].fieldType, explicit, entity)
  }

  ghost predicate Asks(needs: seq<Need>, explicit: bool, entity: string) {
    exists n :: n in needs && n.explicit == explicit && n.entity == entity
  }

  lemma AsksConcat(a: seq<Need>, b: seq<Need>, explicit: bool, entity: string)
    ensures Asks(a + b, explicit, entity) <==> Asks(a, explicit, entity) || Asks(b, explicit, entity)
  {
    if n :| n in a && n.explicit == explicit && n.entity == entity {
      assert n in a + b;
    }
    if n :| n in b && n.explicit == explicit && n.entity == entity {
      assert n in a + b;
    }
  }

  /** The references collected from a type are exactly the ones it mentions. */
  lemma {:induction false} NeedsAreMentions(t: FieldType, field: string, explicit: bool, entity: string)
    ensures Asks(Needs(t, field, explicit), true, entity) <==> MentionsAsLookup(t, explicit, entity)
    ensures Mentions(t, entity) <==>
              Asks(Needs(t, field, explicit), true, entity) || Asks(Needs(t, field, explicit), false, entity)
    ensures explicit ==> !Asks(Needs(t, field, explicit), false, entity)
    decreases t, 0
  {
    match t
    case Primitive(_) =>
    case Reference(e, _) =>
      assert Need(e, field, explicit) in Needs(t, field, explicit);
    case Array(item) => NeedsAreMentions(item, field, true, entity);
    case Shape(fields) => ShapeNeedsAreMentions(fields, explicit, entity);
  }

  ghost predicate ShapeMentions(fields: seq<ShapeField>, entity: string) {
    exists i :: 0 <= i < |fields| && Mentions(fields[i].fieldType, entity)
  }

  ghost predicate ShapeMentionsAsLookup(fields: seq<ShapeField>, explicit: bool, entity: string) {
    exists i :: 0 <= i < |fields| && MentionsAsLookup(fields[i].fieldType, explicit, entity)
  }

  lemma {:induction false} ShapeNeedsAreMentions(fields: seq<ShapeField>, explicit: bool, entity: string)
    ensures Asks(ShapeNeeds(fields, explicit), true, entity) <==> ShapeMentionsAsLookup(fields, explicit, entity)
    ensures ShapeMentions(fields, entity) <==>
              Asks(ShapeNeeds(fields, explicit), true, entity) || Asks(ShapeNeeds(fields, explicit), false, entity)
    ensures explicit ==> !Asks(ShapeNeeds(fields, explicit), false, entity)
    decreases fields, 1
  {
    if fields != [] {
      var front, last := fields[..|fields| - 1], fields[|fields| - 1];
      ShapeNeedsAreMentions(front, explicit, entity);
      NeedsAreMentions(last.fieldType, last.name, explicit, entity);
      AsksConcat(ShapeNeeds(front, explicit), Needs(last.fieldType, last.name, explicit), true, entity);
      AsksConcat(ShapeNeeds(front, explicit), Needs(last.fieldType, last.name, explicit), false, entity);
      hide Asks, Needs, Mentions, MentionsAsLookup;
      assert forall i :: 0 <= i < |front| ==> front[i] == fields[i];
    }
  }

  // ---- collecting ---------------------------------------------------------------------------

  predicate Known(models: Models, needs: seq<Need>) {
    forall i :: 0 <= i < |needs| ==> needs[i].entity in models
  }

  /** The needs before the first one whose model is unknown. */
  function KnownPrefix(models: Models, needs: seq<Need>): (r: seq<Need>)
    ensures |r| <= |needs| && r == needs[..|r|] && Known(models, r)
    ensures |r| < |needs| ==> needs[|r|].entity !in models
  {
    if needs == [] || needs[0].entity !in models then [] else [needs[0]] + KnownPrefix(models, needs[1..])
  }

  function AddNeeds(s: seq<string>, needs: seq<Need>, explicit: bool): seq<string> {
    if needs == [] then s
    else
      var before, n := AddNeeds(s, needs[..|needs| - 1], explicit), needs[|needs| - 1];
      if n.explicit == explicit then Insert(before, n.entity) else before
  }

  lemma {:induction false} AddNeedsConcat(s: seq<string>, a: seq<Need>, b: seq<Need>, explicit: bool)
    ensures AddNeeds(s, a + b, explicit) == AddNeeds(AddNeeds(s, a, explicit), b, explicit)
  {
    if b == [] {
      assert a + b == a;
    } else {
      assert (a + b)[..|a + b| - 1] == a + b[..|b| - 1];
      AddNeedsConcat(s, a, b[..|b| - 1], explicit);
    }
  }

  lemma {:induction false} AddNeedsHas(s: seq<string>, needs: seq<Need>, explicit: bool)
    ensures forall e :: e in AddNeeds(s, needs, explicit) <==> e in s || Asks(needs, explicit, e)
    ensures Distinct(s) ==> Distinct(AddNeeds(s, needs, explicit))
  {
    if needs != [] {
      var front, n := needs[..|needs| - 1], needs[|needs| - 1];
      AddNeedsHas(s, front, explicit);
      assert needs == front + [n];
      forall e
        ensures Asks(needs, explicit, e) <==> Asks(front, explicit, e) || (n.explicit == explicit && n.entity == e)
      {
        AsksConcat(front, [n], explicit, e);
      }
    }
  }

  lemma KnownHead(models: Models, a: seq<Need>)
    requires a != []
    ensures Known(models, a) <==> a[0].entity in models && Known(models, a[1..])
    ensures KnownPrefix(models, a) == if a[0].entity in models then [a[0]] + KnownPrefix(models, a[1..]) else []
    ensures a == [a[0]] + a[1..]
  {
  }

  lemma {:induction false} KnownPrefixConcat(models: Models, a: seq<Need>, b: seq<Need>)
    ensures KnownPrefix(models, a + b)
            == if Known(models, a) then a + KnownPrefix(models, b) else KnownPrefix(models, a)
    ensures Known(models, a) <==> KnownPrefix(models, a) == a
  {
    if a == [] {
      assert a + b == b;
    } else {
      hide *;
      KnownHead(models, a);
      KnownHead(models, a + b);
      HeadConcat(a, b);
      HeadConcat(a, KnownPrefix(models, b));
      HeadIs(a, KnownPrefix(models, a[1..]));
      KnownPrefixConcat(models, a[1..], b);
    }
  }

  lemma HeadConcat(a: seq<Need>, b: seq<Need>)
    requires a != []
    ensures (a + b)[0] == a[0] && (a + b)[1..] == a[1..] + b && a + b == [a[0]] + (a[1..] + b)
  {
  }

  lemma HeadIs(a: seq<Need>, t: seq<Need>)
    requires a != []
    ensures [a[0]] + t == a <==> t == a[1..]
  {
    assert ([a[0]] + t)[1..] == t;
  }

  /** The two sets that `collect_references` inserts into. */
  class Wanted {
    var lookups: seq<string>
    var inlines: seq<string>

    constructor ()
      ensures lookups == [] && inlines == []
    {
      lookups, inlines := [], [];
    }
  }

  /** Ok, or the error of the first reference to an unknown model. */
  function Verdict(models: Models, model: string, needs: seq<Need>): Result<()> {
    var k := |KnownPrefix(models, needs)|;
    if k == |needs| then Ok(()) else Err(UnknownReference(model, needs[k].field, needs[k].entity))
  }

  /** `collect_references`: every reference of the type goes into its set, up to an unknown one. */
  method CollectReferences(models: Models, model: string, field: string, t: FieldType, explicit: bool, wanted: Wanted)
    returns (r: Result<()>)
    modifies wanted
    ensures r == Verdict(models, model, Needs(t, field, explicit))
    ensures wanted.lookups == AddNeeds(old(wanted.lookups), KnownPrefix(models, Needs(t, field, explicit)), true)
    ensures wanted.inlines == AddNeeds(old(wanted.inlines), KnownPrefix(models, Needs(t, field, explicit)), false)
    decreases t, 0
  {
    match t {
      case Primitive(_) => r := Ok(());
      case Reference(entity, _) =>
        var need := Need(entity, field, explicit);
        assert [need][..0] == [] && [need][1..] == [];
        assert [need] + [] == [need];
        if entity !in models {
          return Err(UnknownReference(model, field, entity));
        }
        if explicit {
          wanted.lookups := Insert(wanted.lookups, entity);
        } else {
          wanted.inlines := Insert(wanted.inlines, entity);
        }
        r := Ok(());
      case Array(item) => r := CollectReferences(models, model, field, item, true, wanted);
      case Shape(fields) => r := CollectShape(models, model, fields, explicit, wanted);
    }
  }

  /** The loop over a shape's fields, which stops at the first error. */
  method CollectShape(models: Models, model: string, fields: seq<ShapeField>, explicit: bool, wanted: Wanted)
    returns (r: Result<()>)
    modifies wanted
    ensures r == Verdict(models, model, ShapeNeeds(fields, explicit))
    ensures wanted.lookups == AddNeeds(old(wanted.lookups), KnownPrefix(models, ShapeNeeds(fields, explicit)), true)
    ensures wanted.inlines == AddNeeds(old(wanted.inlines), KnownPrefix(models, ShapeNeeds(fields, explicit)), false)
    decreases fields, 1
  {
    r := Ok(());
    assert fields[..0] == [] && fields[..|fields|] == fields;
    ghost var l, n := wanted.lookups, wanted.inlines;
    NoNeeds(models, l, n, explicit);
    hide *;
    for i := 0 to |fields|
      invariant Known(models, ShapeNeeds(fields[..i], explicit)) && r == Ok(())
      invariant wanted.lookups == AddNeeds(l, ShapeNeeds(fields[..i], explicit), true)
      invariant wanted.inlines == AddNeeds(n, ShapeNeeds(fields[..i], explicit), false)
    {
      ShapeStep(models, model, fields, explicit, i, l, n);
      r := CollectReferences(models, model, fields[i].name, fields[i].fieldType, explicit, wanted);
      if r.Err? {
        return;
      }
    }
    AllKnown(models, model, ShapeNeeds(fields, explicit));
  }

  lemma NoNeeds(models: Models, l: seq<string>, n: seq<string>, explicit: bool)
    ensures Known(models, ShapeNeeds([], explicit))
    ensures l == AddNeeds(l, ShapeNeeds([], explicit), true) && n == AddNeeds(n, ShapeNeeds([], explicit), false)
  {
  }

  lemma {:induction false} AllKnown(models: Models, model: string, needs: seq<Need>)
    ensures Known(models, needs) <==> Verdict(models, model, needs).Ok?
    ensures Verdict(models, model, needs).Ok? ==> Verdict(models, model, needs) == Ok(())
    ensures Known(models, needs) ==> KnownPrefix(models, needs) == needs
  {
    assert needs + [] == needs;
    KnownPrefixConcat(models, needs, []);
    hide KnownPrefix;
  }

  /** One field of a shape: on success the references so far are known, on failure the outcome of
      the whole shape is decided. */
  lemma ShapeStep(models: Models, model: string, fields: seq<ShapeField>, explicit: bool, i: nat,
                  l: seq<string>, n: seq<string>)
    requires i < |fields| && Known(models, ShapeNeeds(fields[..i], explicit))
    ensures var before, here := ShapeNeeds(fields[..i], explicit), Needs(fields[i].fieldType, fields[i].name, explicit);
            var found, now := KnownPrefix(models, here), Verdict(models, model, here);
            var all := if now.Ok? then ShapeNeeds(fields[..i + 1], explicit)
                       else KnownPrefix(models, ShapeNeeds(fields, explicit));
            && AddNeeds(AddNeeds(l, before, true), found, true) == AddNeeds(l, all, true)
            && AddNeeds(AddNeeds(n, before, false), found, false) == AddNeeds(n, all, false)
            && (now.Ok? ==> now == Ok(()) && Known(models, all))
            && (now.Err? ==> now == Verdict(models, model, ShapeNeeds(fields, explicit)))
  {
    var before, here := ShapeNeeds(fields[..i], explicit), Needs(fields[i].fieldType, fields[i].name, explicit);
    assert ShapeNeeds(fields[..i + 1], explicit) == before + here by { assert fields[..i + 1][..i] == fields[..i]; }
    hide *;
    ShapePrefix(fields, explicit, i + 1);
    AllKnown(models, model, here);
    KnownParts(models, before, here);
    AddNeedsConcat(l, before, KnownPrefix(models, here), true);
    AddNeedsConcat(n, before, KnownPrefix(models, here), false);
    if Verdict(models, model, here).Err? {
      Stopped(models, model, before, here, ShapeNeeds(fields, explicit));
    }
  }

  lemma Stopped(models: Models, model: string, a: seq<Need>, b: seq<Need>, whole: seq<Need>)
    requires Known(models, a) && !Known(models, b) && a + b <= whole
    ensures KnownPrefix(models, whole) == a + KnownPrefix(models, b)
    ensures Verdict(models, model, whole) == Verdict(models, model, b)
  {
    hide Known, KnownPrefix, Verdict;
    var rest := whole[|a + b|..];
    assert whole == (a + b) + rest;
    KnownParts(models, a, b);
    KnownPrefixConcat(models, a, b);
    KnownPrefixConcat(models, a + b, rest);
    VerdictOf(models, model, a, b, rest);
  }

  lemma KnownParts(models: Models, a: seq<Need>, b: seq<Need>)
    ensures Known(models, a + b) <==> Known(models, a) && Known(models, b)
  {
    if Known(models, a + b) {
      assert forall i :: 0 <= i < |a| ==> a[i] == (a + b)[i];
      assert forall i :: 0 <= i < |b| ==> b[i] == (a + b)[|a| + i];
    }
  }

  lemma VerdictOf(models: Models, model: string, a: seq<Need>, b: seq<Need>, c: seq<Need>)
    requires Known(models, a) && !Known(models, b)
    ensures Verdict(models, model, (a + b) + c) == Verdict(models, model, b)
  {
    KnownParts(models, a, b);
    KnownPrefixConcat(models, a, b);
    KnownPrefixConcat(models, a + b, c);
    KnownPrefixConcat(models, b, []);
    hide Known, KnownPrefix;
    var k := |KnownPrefix(models, b)|;
    assert k < |b|;
    assert ((a + b) + c)[|a| + k] == b[k];
  }

  lemma {:induction false} ShapePrefix(fields: seq<ShapeField>, explicit: bool, i: nat)
    requires i <= |fields|
    ensures ShapeNeeds(fields[..i], explicit) <= ShapeNeeds(fields, explicit)
  {
    if i < |fields| {
      ShapePrefix(fields[..|fields| - 1], explicit, i);
      assert fields[..|fields| - 1][..i] == fields[..i];
    } else {
      assert fields[..i] == fields;
    }
  }

  // ---- the manifest ---------------------------------------------------------------------------

  predicate KnownField(fields: seq<ModelField>, name: string) {
    TypeOf(fields, name).Some?
  }

  function NamesOf(fields: seq<ModelField>): (names: seq<string>)
    ensures forall n :: n in names ==> KnownField(fields, n)
  {
    if fields == [] then []
    else
      assert forall n :: KnownField(fields[1..], n) ==> KnownField(fields, n);
      [fields[0].name] + NamesOf(fields[1..])
  }

  function FirstUnknown(fields: seq<ModelField>, names: seq<string>): (i: nat)
    ensures i <= |names| && (i < |names| ==> !KnownField(fields, names[i]))
    ensures forall k :: 0 <= k < i ==> KnownField(fields, names[k])
  {
    if names == [] || !KnownField(fields, names[0]) then 0
    else
      assert forall k :: 0 < k < |names| ==> names[k] == names[1..][k - 1];
      1 + FirstUnknown(fields, names[1..])
  }

  /** `iter().flatten().collect::<IndexSet<_>>()`. */
  function InsertAll(s: seq<string>, names: seq<string>): seq<string> {
    if names == [] then s else Insert(InsertAll(s, names[..|names| - 1]), names[|names| - 1])
  }

  function LayoutFields(layout: seq<seq<string>>): seq<string> {
    if layout == [] then [] else InsertAll(LayoutFields(layout[..|layout| - 1]), layout[|layout| - 1])
  }

  /** The references of the named fields, except those skipped. */
  function FieldNeeds(fields: seq<ModelField>, names: seq<string>, explicit: seq<string>, skip: seq<string>): seq<Need>
  {
    if names == [] then []
    else
      var before, name := FieldNeeds(fields, names[..|names| - 1], explicit, skip), names[|names| - 1];
      if name in skip || !KnownField(fields, name) then before
      else before + Needs(TypeOf(fields, name).value, name, name in explicit)
  }

  function Selected(fields: seq<ModelField>, query: Query): seq<string> {
    if query.select == [] then NamesOf(fields) else query.select
  }

  function AllNeeds(fields: seq<ModelField>, query: Query): seq<Need> {
    var selected, explicit := Selected(fields, query), LayoutFields(query.layout);
    FieldNeeds(fields, selected, explicit, []) + FieldNeeds(fields, explicit, explicit, selected)
  }

  function ManifestFor(query: Query, selected: seq<string>, lookups: seq<string>, inlines: seq<string>): Manifest {
    Manifest(query.model, GetEntry(query.wheres, "id"), selected, Without(query.wheres, "id"), lookups, inlines,
             query.page, query.perPage, query.sort, query.verb, query.layout)
  }

  /** What `Blueprint::manifest` answers. */
  function Plan(models: Models, query: Query): Result<Manifest> {
    if query.model !in models then Err(UnknownModel(query.model))
    else
      var fields := models[query.model];
      var selected, explicit := Selected(fields, query), LayoutFields(query.layout);
      var i, j := FirstUnknown(fields, selected), FirstUnknown(fields, explicit);
      var needs := AllNeeds(fields, query);
      var verdict := Verdict(models, query.model, needs);
      if selected == [] then Err(EmptySelection)
      else if i < |selected| then Err(UnknownField(query.model, selected[i]))
      else if j < |explicit| then Err(UnknownField(query.model, explicit[j]))
      else if verdict.Err? then Err(verdict.error)
      else Ok(ManifestFor(query, selected, AddNeeds([], needs, true), AddNeeds([], needs, false)))
  }

  /** The two collecting loops of `manifest`. */
  method CollectFields(models: Models, model: string, fields: seq<ModelField>, names: seq<string>,
                       explicit: seq<string>, skip: seq<string>, wanted: Wanted)
    returns (r: Result<()>)
    requires forall n :: n in names ==> KnownField(fields, n)
    modifies wanted
    ensures r == Verdict(models, model, FieldNeeds(fields, names, explicit, skip))
    ensures wanted.lookups
            == AddNeeds(old(wanted.lookups), KnownPrefix(models, FieldNeeds(fields, names, explicit, skip)), true)
    ensures wanted.inlines
            == AddNeeds(old(wanted.inlines), KnownPrefix(models, FieldNeeds(fields, names, explicit, skip)), false)
  {
    r := Ok(());
    assert names[..0] == [] && names[..|names|] == names;
    ghost var l, n := wanted.lookups, wanted.inlines;
    NoFieldNeeds(models, fields, l, n, explicit, skip);
    KnownFields(fields, names);
    hide *;
    for i := 0 to |names|
      invariant Known(models, FieldNeeds(fields, names[..i], explicit, skip)) && r == Ok(())
      invariant wanted.lookups == AddNeeds(l, FieldNeeds(fields, names[..i], explicit, skip), true)
      invariant wanted.inlines == AddNeeds(n, FieldNeeds(fields, names[..i], explicit, skip), false)
    {
      FieldStep(models, model, fields, names, explicit, skip, i, l, n);
      if names[i] in skip {
        continue;
      }
      r := CollectReferences(models, model, names[i], TypeOf(fields, names[i]).value, names[i] in explicit, wanted);
      if r.Err? {
        return;
      }
    }
    AllKnown(models, model, FieldNeeds(fields, names, explicit, skip));
  }

  lemma KnownFields(fields: seq<ModelField>, names: seq<string>)
    requires forall n :: n in names ==> KnownField(fields, n)
    ensures forall i :: 0 <= i < |names| ==> TypeOf(fields, names[i]).Some?
  {
    assert forall i :: 0 <= i < |names| ==> names[i] in names;
  }

  lemma NoFieldNeeds(models: Models, fields: seq<ModelField>, l: seq<string>, n: seq<string>, explicit: seq<string>,
                     skip: seq<string>)
    ensures Known(models, FieldNeeds(fields, [], explicit, skip))
    ensures l == AddNeeds(l, FieldNeeds(fields, [], explicit, skip), true)
    ensures n == AddNeeds(n, FieldNeeds(fields, [], explicit, skip), false)
  {
  }

  lemma FieldStep(models: Models, model: string, fields: seq<ModelField>, names: seq<string>, explicit: seq<string>,
                  skip: seq<string>, i: nat, l: seq<string>, n: seq<string>)
    requires i < |names| && TypeOf(fields, names[i]).Some?
             && Known(models, FieldNeeds(fields, names[..i], explicit, skip))
    ensures var before, name := FieldNeeds(fields, names[..i], explicit, skip), names[i];
            var here := Needs(TypeOf(fields, name).value, name, name in explicit);
            var found, now := KnownPrefix(models, here), Verdict(models, model, here);
            var whole := FieldNeeds(fields, names, explicit, skip);
            var next := FieldNeeds(fields, names[..i + 1], explicit, skip);
            if name in skip then next == before
            else
              && AddNeeds(AddNeeds(l, before, true), found, true)
                 == AddNeeds(l, if now.Ok? then next else KnownPrefix(models, whole), true)
              && AddNeeds(AddNeeds(n, before, false), found, false)
                 == AddNeeds(n, if now.Ok? then next else KnownPrefix(models, whole), false)
              && (now.Ok? ==> now == Ok(()) && Known(models, next))
              && (now.Err? ==> now == Verdict(models, model, whole))
  {
    var before, name := FieldNeeds(fields, names[..i], explicit, skip), names[i];
    var here := Needs(TypeOf(fields, name).value, name, name in explicit);
    var next := FieldNeeds(fields, names[..i + 1], explicit, skip);
    assert names[..i + 1][..i] == names[..i];
    assert next == if name in skip then before else before + here;
    hide *;
    FieldPrefix(fields, names, explicit, skip, i + 1);
    if name !in skip {
      AllKnown(models, model, here);
      KnownParts(models, before, here);
      AddNeedsConcat(l, before, KnownPrefix(models, here), true);
      AddNeedsConcat(n, before, KnownPrefix(models, here), false);
      if Verdict(models, model, here).Err? {
        Stopped(models, model, before, here, FieldNeeds(fields, names, explicit, skip));
      }
    }
  }

  lemma {:induction false} FieldPrefix(fields: seq<ModelField>, names: seq<string>, explicit: seq<string>,
                                       skip: seq<string>, i: nat)
    requires i <= |names|
    ensures FieldNeeds(fields, names[..i], explicit, skip) <= FieldNeeds(fields, names, explicit, skip)
  {
    if i < |names| {
      FieldPrefix(fields, names[..|names| - 1], explicit, skip, i);
      assert names[..|names| - 1][..i] == names[..i];
    } else {
      assert names[..i] == names;
    }
  }

  /** The name checks of `manifest`. */
  method FindUnknown(fields: seq<ModelField>, names: seq<string>) returns (i: nat)
    ensures i == FirstUnknown(fields, names)
  {
    i := 0;
    FirstUnknownFrom(fields, names, 0);
    while i < |names| && KnownField(fields, names[i])
      invariant i <= |names| && forall k :: 0 <= k < i ==> KnownField(fields, names[k])
    {
      i := i + 1;
    }
  }

  lemma FirstUnknownFrom(fields: seq<ModelField>, names: seq<string>, i: nat)
    ensures FirstUnknown(fields, names) < |names| || forall k :: 0 <= k < |names| ==> KnownField(fields, names[k])
  {
  }

  /** `Blueprint::manifest`. */
  method MakeManifest(models: Models, query: Query) returns (r: Result<Manifest>)
    ensures r == Plan(models, query)
  {
    hide FirstUnknown, KnownField, LayoutFields, FieldNeeds, Verdict, AddNeeds, NamesOf;
    if query.model !in models {
      return Err(UnknownModel(query.model));
    }
    var fields := models[query.model];
    var selected := if query.select == [] then NamesOf(fields) else query.select;
    if selected == [] {
      return Err(EmptySelection);
    }
    var i := FindUnknown(fields, selected);
    if i < |selected| {
      return Err(UnknownField(query.model, selected[i]));
    }
    var explicit := LayoutFields(query.layout);
    var j := FindUnknown(fields, explicit);
    if j < |explicit| {
      return Err(UnknownField(query.model, explicit[j]));
    }
    AllFieldsKnown(fields, selected);
    AllFieldsKnown(fields, explicit);
    var wanted := new Wanted();
    ghost var a, b := FieldNeeds(fields, selected, explicit, []), FieldNeeds(fields, explicit, explicit, selected);
    TwoLoops(models, query.model, a, b);
    var first := CollectFields(models, query.model, fields, selected, explicit, [], wanted);
    if first.Err? {
      return Err(first.error);
    }
    var second := CollectFields(models, query.model, fields, explicit, explicit, selected, wanted);
    if second.Err? {
      return Err(second.error);
    }
    var id, filter := GetEntry(query.wheres, "id"), Without(query.wheres, "id");
    r := Ok(Manifest(query.model, id, selected, filter, wanted.lookups, wanted.inlines,
                     query.page, query.perPage, query.sort, query.verb, query.layout));
  }

  lemma AllFieldsKnown(fields: seq<ModelField>, names: seq<string>)
    requires FirstUnknown(fields, names) == |names|
    ensures forall n :: n in names ==> KnownField(fields, n)
  {
    hide KnownField;
  }

  lemma TwoLoops(models: Models, model: string, a: seq<Need>, b: seq<Need>)
    ensures Verdict(models, model, a).Err? ==> Verdict(models, model, a + b) == Verdict(models, model, a)
    ensures Verdict(models, model, a).Ok? ==>
              && Verdict(models, model, a + b) == Verdict(models, model, b)
              && KnownPrefix(models, a) == a
              && (Verdict(models, model, b).Ok? ==>
                    && KnownPrefix(models, b) == b
                    && forall s, explicit ::
                         AddNeeds(AddNeeds(s, a, explicit), b, explicit) == AddNeeds(s, a + b, explicit))
  {
    AllKnown(models, model, a);
    AllKnown(models, model, b);
    assert Known(models, []);
    hide Verdict, KnownPrefix, Known, AddNeeds;
    forall s, explicit ensures AddNeeds(AddNeeds(s, a, explicit), b, explicit) == AddNeeds(s, a + b, explicit) {
      AddNeedsConcat(s, a, b, explicit);
    }
    assert [] + a == a && (a + b) + [] == a + b;
    if Verdict(models, model, a).Err? {
      Stopped(models, model, [], a, a + b);
    } else if Verdict(models, model, b).Err? {
      Stopped(models, model, a, b, a + b);
    } else {
      KnownParts(models, a, b);
      AllKnown(models, model, a + b);
    }
  }

  lemma {:induction false} WithoutKeeps(entries: seq<MapEntry>, key: string, k: string)
    ensures GetEntry(Without(entries, key), k) == if k == key then None else GetEntry(entries, k)
    ensures |Without(entries, key)| <= |entries|
  {
    if entries != [] {
      WithoutKeeps(entries[1..], key, k);
    }
  }

  /** A plan splits the conditions into the id and the rest, and carries the other parts along. */
  lemma PlanCarries(models: Models, query: Query, m: Manifest)
    requires Plan(models, query) == Ok(m)
    ensures m.id == GetEntry(query.wheres, "id") && GetEntry(m.filter, "id") == None
    ensures forall k :: k != "id" ==> GetEntry(m.filter, k) == GetEntry(query.wheres, k)
    ensures m.page == query.page && m.perPage == query.perPage && m.sort == query.sort && m.verb == query.verb
    ensures m.filterFields == query.layout
  {
    forall k ensures GetEntry(m.filter, k) == if k == "id" then None else GetEntry(query.wheres, k) {
      WithoutKeeps(query.wheres, "id", k);
    }
  }

  // ---- what a plan lists ------------------------------------------------------------------------

  /** A field that the query selects or lays out as a filter. */
  predicate Used(fields: seq<ModelField>, query: Query, name: string) {
    KnownField(fields, name) && (name in Selected(fields, query) || name in LayoutFields(query.layout))
  }

  ghost predicate FieldsAsk(fields: seq<ModelField>, names: seq<string>, explicit: seq<string>, skip: seq<string>,
                            asLookup: bool, entity: string)
  {
    exists name :: name in names && name !in skip && KnownField(fields, name)
                   && Asks(Needs(TypeOf(fields, name).value, name, name in explicit), asLookup, entity)
  }

  lemma {:induction false} FieldNeedsAsk(fields: seq<ModelField>, names: seq<string>, explicit: seq<string>,
                                         skip: seq<string>, asLookup: bool, entity: string)
    ensures Asks(FieldNeeds(fields, names, explicit, skip), asLookup, entity)
            <==> FieldsAsk(fields, names, explicit, skip, asLookup, entity)
  {
    hide TypeOf, Needs;
    if names != [] {
      var front, name := names[..|names| - 1], names[|names| - 1];
      assert names == front + [name];
      FieldNeedsAsk(fields, front, explicit, skip, asLookup, entity);
      if name !in skip && KnownField(fields, name) {
        AsksConcat(FieldNeeds(fields, front, explicit, skip),
                   Needs(TypeOf(fields, name).value, name, name in explicit), asLookup, entity);
      }
    }
  }

  /** What a field of the model asks for, given the query. */
  predicate FieldMentions(fields: seq<ModelField>, name: string, entity: string) {
    KnownField(fields, name) && Mentions(TypeOf(fields, name).value, entity)
  }

  predicate FieldMentionsAsLookup(fields: seq<ModelField>, query: Query, name: string, entity: string) {
    KnownField(fields, name) && MentionsAsLookup(TypeOf(fields, name).value, name in LayoutFields(query.layout), entity)
  }

  lemma AllNeedsAsk(fields: seq<ModelField>, query: Query, asLookup: bool, entity: string)
    ensures Asks(AllNeeds(fields, query), asLookup, entity)
            <==> exists name :: Used(fields, query, name)
                   && Asks(Needs(TypeOf(fields, name).value, name, name in LayoutFields(query.layout)),
                           asLookup, entity)
  {
    var selected, explicit := Selected(fields, query), LayoutFields(query.layout);
    FieldNeedsAsk(fields, selected, explicit, [], asLookup, entity);
    FieldNeedsAsk(fields, explicit, explicit, selected, asLookup, entity);
    AsksConcat(FieldNeeds(fields, selected, explicit, []), FieldNeeds(fields, explicit, explicit, selected),
               asLookup, entity);
    assert AllNeeds(fields, query)
           == FieldNeeds(fields, selected, explicit, []) + FieldNeeds(fields, explicit, explicit, selected);
    hide Asks, Needs, TypeOf, FieldNeeds, LayoutFields, Selected, AllNeeds;
    if name :| Used(fields, query, name)
               && Asks(Needs(TypeOf(fields, name).value, name, name in explicit), asLookup, entity) {
      assert FieldsAsk(fields, selected, explicit, [], asLookup, entity)
             || FieldsAsk(fields, explicit, explicit, selected, asLookup, entity);
    }
    if FieldsAsk(fields, selected, explicit, [], asLookup, entity) {
      var name :| name in selected && KnownField(fields, name)
                  && Asks(Needs(TypeOf(fields, name).value, name, name in explicit), asLookup, entity);
      assert Used(fields, query, name);
    } else if FieldsAsk(fields, explicit, explicit, selected, asLookup, entity) {
      var name :| name in explicit && KnownField(fields, name)
                  && Asks(Needs(TypeOf(fields, name).value, name, name in explicit), asLookup, entity);
      assert Used(fields, query, name);
    }
  }

  /** A plan lists exactly what the used fields refer to: as a lookup what stands in an array or in
      a field of the filter layout, as an inline the rest; each once, and all known. */
  lemma PlanListsExactly(models: Models, query: Query, m: Manifest)
    requires Plan(models, query) == Ok(m)
    ensures query.model in models && m.base == query.model && m.fields == Selected(models[query.model], query)
    ensures forall e :: e in m.lookups <==>
              exists name :: Used(models[query.model], query, name)
                             && FieldMentionsAsLookup(models[query.model], query, name, e)
    ensures forall e :: (e in m.lookups || e in m.inlines) <==>
              exists name :: Used(models[query.model], query, name) && FieldMentions(models[query.model], name, e)
    ensures forall e :: e in m.lookups || e in m.inlines ==> e in models
    ensures Distinct(m.lookups) && Distinct(m.inlines)
  {
    var fields := models[query.model];
    var needs := AllNeeds(fields, query);
    AddNeedsHas([], needs, true);
    AddNeedsHas([], needs, false);
    AllKnown(models, query.model, needs);
    hide *;
    PlanIs(models, query, m);
    forall e
      ensures e in m.lookups <==>
                exists name :: Used(fields, query, name) && FieldMentionsAsLookup(fields, query, name, e)
      ensures (e in m.lookups || e in m.inlines) <==>
                exists name :: Used(fields, query, name) && FieldMentions(fields, name, e)
      ensures e in m.lookups || e in m.inlines ==> e in models
    {
      AllNeedsAsk(fields, query, true, e);
      AllNeedsAsk(fields, query, false, e);
      forall name | Used(fields, query, name) ensures NeedsMatch(fields, query, name, e) {
        NeedsMatchAll(fields, query, name, e);
      }
      AskedListed(fields, query, e);
      KnownAsked(models, needs, e);
    }
  }

  // The references collected from a used field are those it mentions.
  ghost predicate NeedsMatch(fields: seq<ModelField>, query: Query, name: string, entity: string) {
    KnownField(fields, name) &&
    var needs := Needs(TypeOf(fields, name).value, name, name in LayoutFields(query.layout));
    && (Asks(needs, true, entity) <==> FieldMentionsAsLookup(fields, query, name, entity))
    && (Asks(needs, true, entity) || Asks(needs, false, entity) <==> FieldMentions(fields, name, entity))
  }

  lemma NeedsMatchAll(fields: seq<ModelField>, query: Query, name: string, entity: string)
    requires Used(fields, query, name)
    ensures NeedsMatch(fields, query, name, entity)
  {
    NeedsAreMentions(TypeOf(fields, name).value, name, name in LayoutFields(query.layout), entity);
    hide Needs, Mentions, MentionsAsLookup, Asks, TypeOf, LayoutFields;
  }

  lemma AskedListed(fields: seq<ModelField>, query: Query, e: string)
    requires forall name :: Used(fields, query, name) ==> NeedsMatch(fields, query, name, e)
    requires forall asLookup :: Asks(AllNeeds(fields, query), asLookup, e)
               <==> exists name :: Used(fields, query, name)
                      && Asks(Needs(TypeOf(fields, name).value, name, name in LayoutFields(query.layout)), asLookup, e)
    ensures Asks(AllNeeds(fields, query), true, e) <==>
              exists name :: Used(fields, query, name) && FieldMentionsAsLookup(fields, query, name, e)
    ensures Asks(AllNeeds(fields, query), true, e) || Asks(AllNeeds(fields, query), false, e) <==>
              exists name :: Used(fields, query, name) && FieldMentions(fields, name, e)
  {
    hide Asks, AllNeeds, Needs, FieldMentions, FieldMentionsAsLookup, LayoutFields, KnownField;
  }

  lemma KnownAsked(models: Models, needs: seq<Need>, e: string)
    requires Known(models, needs)
    ensures Asks(needs, true, e) || Asks(needs, false, e) ==> e in models
  {
  }

  lemma PlanIs(models: Models, query: Query, m: Manifest)
    requires Plan(models, query) == Ok(m)
    ensures query.model in models && m.base == query.model && m.fields == Selected(models[query.model], query)
    ensures var needs := AllNeeds(models[query.model], query);
            && m.lookups == AddNeeds([], needs, true) && m.inlines == AddNeeds([], needs, false)
            && Known(models, needs)
    ensures Distinct<string>([])
  {
    if query.model in models {
      AllKnown(models, query.model, AllNeeds(models[query.model], query));
    }
    hide AllNeeds, AddNeeds, Known, FirstUnknown, LayoutFields, Selected;
  }

  /** A plan is made exactly when every name is known and everything mentioned exists. */
  lemma PlanSucceedsIff(models: Models, query: Query)
    ensures Plan(models, query).Ok? <==>
              && query.model in models
              && Selected(models[query.model], query) != []
              && (forall n :: n in Selected(models[query.model], query) || n in LayoutFields(query.layout) ==>
                    KnownField(models[query.model], n))
              && forall name, e ::
                   Used(models[query.model], query, name) && FieldMentions(models[query.model], name, e) ==> e in models
  {
    if query.model in models {
      var fields := models[query.model];
      var needs := AllNeeds(fields, query);
      AllKnown(models, query.model, needs);
      NamesKnownIff(fields, Selected(fields, query));
      NamesKnownIff(fields, LayoutFields(query.layout));
      hide AllNeeds, Verdict, FirstUnknown, KnownField, Selected, LayoutFields, Used, FieldMentions, AddNeeds, Known;
      KnownIff(models, query, needs);
    }
  }

  lemma NamesKnownIff(fields: seq<ModelField>, names: seq<string>)
    ensures FirstUnknown(fields, names) == |names| <==> forall n :: n in names ==> KnownField(fields, n)
  {
    hide KnownField;
  }

  lemma KnownIff(models: Models, query: Query, needs: seq<Need>)
    requires query.model in models && needs == AllNeeds(models[query.model], query)
    ensures Known(models, needs) <==>
              forall name, e ::
                Used(models[query.model], query, name) && FieldMentions(models[query.model], name, e) ==> e in models
  {
    var fields := models[query.model];
    forall e
      ensures Asks(needs, true, e) || Asks(needs, false, e)
              <==> exists name :: Used(fields, query, name) && FieldMentions(fields, name, e)
    {
      AllNeedsAsk(fields, query, true, e);
      AllNeedsAsk(fields, query, false, e);
      forall name | Used(fields, query, name) ensures NeedsMatch(fields, query, name, e) {
        NeedsMatchAll(fields, query, name, e);
      }
      hide *;
      AskedListed(fields, query, e);
    }
    hide AllNeeds, Used, FieldMentions;
    if Known(models, needs) {
      forall e | Asks(needs, true, e) || Asks(needs, false, e) ensures e in models {
        KnownAsked(models, needs, e);
      }
    } else {
      var i :| 0 <= i < |needs| && needs[i].entity !in models;
      assert needs[i] in needs && Asks(needs, needs[i].explicit, needs[i].entity);
    }
  }

  // ---- resolving ----------------------------------------------------------------------------

  type Row = map<string, Value>

  /** `value_to_lookup_key`. */
  function LookupKey(v: Value): Option<string> {
    match v
    case String(s) => Some(s)
    case Int(i) => Some(IntText(i))
    case Float(text) => Some(text)
    case _ => None
  }

  /** The key of a row: its "id". */
  function RowKey(row: Row): Option<string> {
    if "id" in row then LookupKey(row["id"]) else None
  }

  /** `rows_by_id`: rows without a usable id are left out. */
  function RowsById(rows: seq<Row>): map<string, Row> {
    if rows == [] then map[]
    else
      var before, last := RowsById(rows[..|rows| - 1]), rows[|rows| - 1];
      if RowKey(last).Some? then before[RowKey(last).value := last] else before
  }

  /** Of rows with one id the last is found. */
  lemma {:induction false} LastRowWins(rows: seq<Row>, i: nat)
    requires i < |rows| && RowKey(rows[i]).Some? && forall j :: i < j < |rows| ==> RowKey(rows[j]) != RowKey(rows[i])
    ensures RowKey(rows[i]).value in RowsById(rows) && RowsById(rows)[RowKey(rows[i]).value] == rows[i]
  {
    hide RowKey;
    if i < |rows| - 1 {
      LastRowWins(rows[..|rows| - 1], i);
      assert RowKey(rows[|rows| - 1]) != RowKey(rows[i]);
    }
  }

  type Lookups = map<string, map<string, Row>>

  /** One row or many, as a fetch gave them, and how many there are in all. */
  datatype ModelRows = One(row: Row) | Many(many: seq<Row>)

  datatype ModelResult = ModelResult(result: ModelRows, total: nat) {
    /** `ModelResult::rows`. */
    function Rows(): seq<Row> {
      match result
      case One(row) => [row]
      case Many(many) => many
    }
  }

  type Source = map<string, ModelResult>

  /** The lookups of everything in the source. */
  function Everything(source: Source): Lookups {
    map e | e in source :: RowsById(source[e].Rows())
  }

  datatype Outcome = Outcome(rows: ModelRows, total: nat, lookups: Lookups)

  /** `Blueprint::resolve`: the base rows, and the listed models by id as far as the source has them. */
  method Resolve(m: Manifest, source: Source) returns (r: Result<Outcome>)
    ensures m.base !in source ==> r == Err(MissingBaseModel(m.base))
    ensures m.base in source ==>
              && r.Ok? && r.value.rows == source[m.base].result && r.value.total == source[m.base].total
              && r.value.lookups
                 == map e | e in source && (e in m.lookups || e in m.inlines) :: RowsById(source[e].Rows())
  {
    hide RowsById;
    if m.base !in source {
      return Err(MissingBaseModel(m.base));
    }
    var lookups: Lookups := map[];
    var chain := m.lookups + m.inlines;
    assert chain[..|chain|] == chain;
    for i := 0 to |chain|
      invariant lookups == map e | e in source && e in chain[..i] :: RowsById(source[e].Rows())
    {
      assert chain[..i + 1] == chain[..i] + [chain[i]];
      if chain[i] in source {
        lookups := lookups[chain[i] := RowsById(source[chain[i]].Rows())];
      }
    }
    assert forall e :: e in chain <==> e in m.lookups || e in m.inlines;
    r := Ok(Outcome(source[m.base].result, source[m.base].total, lookups));
  }

  // ---- displaying ------------------------------------------------------------------------------

  function Join(parts: seq<string>, sep: string): string {
    if parts == [] then ""
    else if |parts| == 1 then parts[0]
    else parts[0] + sep + Join(parts[1..], sep)
  }

  function HexByte(b: nat): string {
    [LowerHex(b / 16 % 16), LowerHex(b % 16)]
  }

  function HexText(bytes: seq<nat>): string {
    if bytes == [] then "" else HexByte(bytes[0]) + HexText(bytes[1..])
  }

  /** `value_to_display_text`. */
  function DisplayText(v: Value): string
    decreases v, 0
  {
    match v
    case Null => ""
    case Bool(b) => if b then "true" else "false"
    case Int(i) => IntText(i)
    case Float(text) => text
    case String(s) => s
    case Bytes(bytes) => HexText(bytes)
    case List(items) => Join(ItemTexts(items), ", ")
    case Map(entries) => "{" + Join(EntryTexts(entries), ", ") + "}"
  }

  function ItemTexts(items: seq<Value>): seq<string>
    decreases items, 1
  {
    if items == [] then [] else [DisplayText(items[0])] + ItemTexts(items[1..])
  }

  function EntryTexts(entries: seq<MapEntry>): seq<string>
    decreases entries, 1
  {
    if entries == [] then [] else [entries[0].key + "=" + DisplayText(entries[0].value)] + EntryTexts(entries[1..])
  }

  /** The row a reference value points to, if it was fetched. */
  function Related(lookups: Lookups, entity: string, v: Value): Option<Row> {
    var key := LookupKey(v);
    if key.Some? && entity in lookups && key.value in lookups[entity] then Some(lookups[entity][key.value]) else None
  }

  /** `display_value_for_type`. */
  function DisplayForType(lookups: Lookups, t: FieldType, v: Value): string
    decreases t, 0, 0
  {
    match t
    case Reference(entity, display) =>
      var row := Related(lookups, entity, v);
      if row.Some? && display in row.value then DisplayText(row.value[display]) else DisplayText(v)
    case Primitive(prim) =>
      if prim == BooleanType && v.Bool? then (if v.b then "Yes" else "No") else DisplayText(v)
    case Array(item) => if v.List? then Join(DisplayItems(lookups, item, v.items), ", ") else DisplayText(v)
    case Shape(fields) => if v.Map? then Join(DisplayShape(lookups, fields, v.entries), "; ") else DisplayText(v)
  }

  function DisplayItems(lookups: Lookups, item: FieldType, vs: seq<Value>): seq<string>
    decreases item, 1, |vs|
  {
    if vs == [] then [] else [DisplayForType(lookups, item, vs[0])] + DisplayItems(lookups, item, vs[1..])
  }

  function DisplayShape(lookups: Lookups, fields: seq<ShapeField>, entries: seq<MapEntry>): seq<string>
    decreases fields, 1, 0
  {
    if fields == [] then []
    else
      var f, v := fields[0], GetEntry(entries, fields[0].name);
      var rest := DisplayShape(lookups, fields[1..], entries);
      if v.None? || v.value.Null? then rest
      else [f.title + ": " + DisplayForType(lookups, f.fieldType, v.value)] + rest
  }

  /** `display_value`. */
  function DisplayValue(models: Models, lookups: Lookups, model: string, field: string, v: Value): string {
    if v.Null? then ""
    else if model !in models || TypeOf(models[model], field).None? then DisplayText(v)
    else DisplayForType(lookups, TypeOf(models[model], field).value, v)
  }

  predicate SameLookup(a: Lookups, b: Lookups, entity: string) {
    (entity in a <==> entity in b) && (entity in a ==> a[entity] == b[entity])
  }

  /** What a value displays as depends only on the lookups its type mentions. */
  lemma {:induction false} DisplayDepends(a: Lookups, b: Lookups, t: FieldType, v: Value)
    requires forall e :: Mentions(t, e) ==> SameLookup(a, b, e)
    ensures DisplayForType(a, t, v) == DisplayForType(b, t, v)
    decreases t, 0, 0
  {
    match t
    case Primitive(_) =>
    case Reference(e, _) => assert Mentions(t, e);
    case Array(item) =>
      assert forall e :: Mentions(item, e) ==> Mentions(t, e);
      if v.List? {
        ItemsDepend(a, b, item, v.items);
      }
    case Shape(fields) =>
      assert forall i, e :: 0 <= i < |fields| && Mentions(fields[i].fieldType, e) ==> Mentions(t, e);
      if v.Map? {
        ShapeDepends(a, b, fields, v.entries);
      }
  }

  lemma {:induction false} ItemsDepend(a: Lookups, b: Lookups, item: FieldType, vs: seq<Value>)
    requires forall e :: Mentions(item, e) ==> SameLookup(a, b, e)
    ensures DisplayItems(a, item, vs) == DisplayItems(b, item, vs)
    decreases item, 1, |vs|
  {
    if vs != [] {
      DisplayDepends(a, b, item, vs[0]);
      ItemsDepend(a, b, item, vs[1..]);
    }
  }

  lemma {:induction false} ShapeDepends(a: Lookups, b: Lookups, fields: seq<ShapeField>, entries: seq<MapEntry>)
    requires forall i, e :: 0 <= i < |fields| && Mentions(fields[i].fieldType, e) ==> SameLookup(a, b, e)
    ensures DisplayShape(a, fields, entries) == DisplayShape(b, fields, entries)
    decreases fields, 1, 0
  {
    hide SameLookup, Mentions;
    if fields != [] {
      ShapeDepends(a, b, fields[1..], entries);
      var v := GetEntry(entries, fields[0].name);
      if v.Some? && !v.value.Null? {
        DisplayDepends(a, b, fields[0].fieldType, v.value);
      }
    }
  }

  /** Every value of every used field displays with the planned lookups as it would with the whole
      source fetched. */
  lemma PlanIsComplete(models: Models, query: Query, m: Manifest, source: Source, o: Outcome, name: string, v: Value)
    requires Plan(models, query) == Ok(m) && Used(models[query.model], query, name)
    requires o.lookups == map e | e in source && (e in m.lookups || e in m.inlines) :: RowsById(source[e].Rows())
    ensures DisplayValue(models, o.lookups, m.base, name, v)
            == DisplayValue(models, Everything(source), m.base, name, v)
  {
    PlanListsExactly(models, query, m);
    var fields := models[query.model];
    hide Plan, RowsById, LayoutFields, Selected, FieldMentionsAsLookup;
    var t := TypeOf(fields, name).value;
    forall e | Mentions(t, e) ensures SameLookup(o.lookups, Everything(source), e) {
      assert FieldMentions(fields, name, e);
    }
    DisplayDepends(o.lookups, Everything(source), t, v);
  }

  /** A type occurs in another: as the whole, or inside an array or a shape, at any depth. */
  predicate Inside(t: FieldType, u: FieldType)
    decreases t
  {
    t == u ||
    match t
    case Primitive(_) => false
    case Reference(_, _) => false
    case Array(item) => Inside(item, u)
    case Shape(fields) => exists i :: 0 <= i < |fields| && Inside(fields[i].fieldType, u)
  }

  lemma {:induction false} InsideMentions(t: FieldType, entity: string, display: string)
    requires Inside(t, Reference(entity, display))
    ensures Mentions(t, entity)
    decreases t
  {
    match t
    case Array(item) => InsideMentions(item, entity, display);
    case Shape(fields) =>
      var i :| 0 <= i < |fields| && Inside(fields[i].fieldType, Reference(entity, display));
      InsideMentions(fields[i].fieldType, entity, display);
    case _ =>
  }

  /** The last row of the source that the value names, and the text of its display field. */
  ghost predicate Labels(source: Source, entity: string, display: string, v: Value, text: string) {
    entity in source && LookupKey(v).Some? &&
    var rows := source[entity].Rows();
    exists i: nat :: i < |rows| && RowKey(rows[i]) == LookupKey(v) && display in rows[i]
                     && text == DisplayText(rows[i][display])
                     && forall j :: i < j < |rows| ==> RowKey(rows[j]) != LookupKey(v)
  }

  /** With the planned lookups, every reference in the type of a used field, however deep, shows the
      label of the row it names, not the raw key. */
  lemma ReferenceShowsLabel(models: Models, query: Query, m: Manifest, source: Source, o: Outcome, name: string,
                            entity: string, display: string, v: Value, text: string)
    requires Plan(models, query) == Ok(m) && Used(models[query.model], query, name)
    requires o.lookups == map e | e in source && (e in m.lookups || e in m.inlines) :: RowsById(source[e].Rows())
    requires Inside(TypeOf(models[query.model], name).value, Reference(entity, display))
    requires Labels(source, entity, display, v, text)
    ensures DisplayForType(o.lookups, Reference(entity, display), v) == text
  {
    ReferenceListed(models, query, m, name, entity, display);
    hide Plan, Used, Selected, Inside, TypeOf, RowsById, Labels;
    LabelShown(o.lookups, source, entity, display, v, text);
  }

  lemma ReferenceListed(models: Models, query: Query, m: Manifest, name: string, entity: string, display: string)
    requires Plan(models, query) == Ok(m) && Used(models[query.model], query, name)
    requires Inside(TypeOf(models[query.model], name).value, Reference(entity, display))
    ensures entity in m.lookups || entity in m.inlines
  {
    hide Plan, Selected, LayoutFields, Inside, Mentions, FieldMentionsAsLookup;
    PlanListsExactly(models, query, m);
    InsideMentions(TypeOf(models[query.model], name).value, entity, display);
    assert FieldMentions(models[query.model], name, entity);
  }

  lemma LabelShown(lookups: Lookups, source: Source, entity: string, display: string, v: Value, text: string)
    requires Labels(source, entity, display, v, text)
    requires entity in lookups && lookups[entity] == RowsById(source[entity].Rows())
    ensures DisplayForType(lookups, Reference(entity, display), v) == text
  {
    hide RowsById, DisplayText, RowKey;
    var rows := source[entity].Rows();
    var i: nat :| i < |rows| && RowKey(rows[i]) == LookupKey(v) && display in rows[i]
                  && text == DisplayText(rows[i][display])
                  && forall j :: i < j < |rows| ==> RowKey(rows[j]) != LookupKey(v);
    LastRowWins(rows, i);
  }
}
