/** What a plan holds, said of the query and the models alone. */
module PlanLaws {
  import opened Wrappers
  import opened Blueprint
  import opened DisplayLaws

  // ---- references in a type -----------------------------------------------------------------

  /** A reference to the entity occurs in the type, inside an array or outside of all arrays. */
  ghost predicate RefersAt(t: FieldType, entity: string, arrayed: bool)
    decreases t
  {
    match t
    case Primitive(_) => false
    case Reference(e, _) => e == entity && !arrayed
    case Array(item) => arrayed && (RefersAt(item, entity, true) || RefersAt(item, entity, false))
    case Shape(fields) => exists i :: 0 <= i < |fields| && RefersAt(fields[i].fieldType, entity, arrayed)
  }

  ghost predicate ShapeRefersAt(fields: seq<ShapeField>, entity: string, arrayed: bool) {
    exists i :: 0 <= i < |fields| && RefersAt(fields[i].fieldType, entity, arrayed)
  }

  /** A reference is collected as a lookup when it stands in an array or is needed explicitly, and as
      an inline otherwise. */
  lemma {:induction false} NeedsAt(t: FieldType, field: string, explicit: bool, entity: string)
    ensures Asks(Needs(t, field, explicit), true, entity)
            <==> RefersAt(t, entity, true) || (explicit && RefersAt(t, entity, false))
    ensures Asks(Needs(t, field, explicit), false, entity) <==> !explicit && RefersAt(t, entity, false)
    decreases t, 0
  {
    match t
    case Primitive(_) =>
    case Reference(e, _) => assert Need(e, field, explicit) in Needs(t, field, explicit);
    case Array(item) => NeedsAt(item, field, true, entity);
    case Shape(fields) => ShapeNeedsAt(fields, explicit, entity);
  }

  lemma {:induction false} ShapeNeedsAt(fields: seq<ShapeField>, explicit: bool, entity: string)
    ensures Asks(ShapeNeeds(fields, explicit), true, entity)
            <==> ShapeRefersAt(fields, entity, true) || (explicit && ShapeRefersAt(fields, entity, false))
    ensures Asks(ShapeNeeds(fields, explicit), false, entity) <==> !explicit && ShapeRefersAt(fields, entity, false)
    decreases fields, 1
  {
    if fields != [] {
      var front, last := fields[..|fields| - 1], fields[|fields| - 1];
      ShapeNeedsAt(front, explicit, entity);
      NeedsAt(last.fieldType, last.name, explicit, entity);
      AsksConcat(ShapeNeeds(front, explicit), Needs(last.fieldType, last.name, explicit), true, entity);
      AsksConcat(ShapeNeeds(front, explicit), Needs(last.fieldType, last.name, explicit), false, entity);
      hide Asks, Needs, RefersAt;
      assert forall i :: 0 <= i < |front| ==> front[i] == fields[i];
    }
  }

  // ---- names ----------------------------------------------------------------------------------

  /** Some group of the filter layout names the field. */
  ghost predicate LaidOut(layout: seq<seq<string>>, name: string) {
    exists g :: g in layout && name in g
  }

  lemma {:induction false} InsertAllHas(s: seq<string>, names: seq<string>, x: string)
    ensures x in InsertAll(s, names) <==> x in s || x in names
  {
    if names != [] {
      InsertAllHas(s, names[..|names| - 1], x);
      assert names == names[..|names| - 1] + [names[|names| - 1]];
    }
  }

  lemma {:induction false} LayoutHas(layout: seq<seq<string>>, x: string)
    ensures x in LayoutFields(layout) <==> LaidOut(layout, x)
  {
    if layout != [] {
      var front, last := layout[..|layout| - 1], layout[|layout| - 1];
      LayoutHas(front, x);
      InsertAllHas(LayoutFields(front), last, x);
      assert layout == front + [last];
    }
  }

  lemma {:induction false} NamesInOrder(fields: seq<ModelField>)
    ensures |NamesOf(fields)| == |fields| && forall i :: 0 <= i < |fields| ==> NamesOf(fields)[i] == fields[i].name
  {
    if fields != [] {
      NamesInOrder(fields[1..]);
      assert forall i :: 1 <= i < |fields| ==> fields[i] == fields[1..][i - 1];
    }
  }

  /** The fields asked for, or all of the model in their order. */
  ghost predicate Chosen(fields: seq<ModelField>, query: Query, names: seq<string>) {
    if query.select != [] then names == query.select
    else |names| == |fields| && forall i :: 0 <= i < |fields| ==> names[i] == fields[i].name
  }

  lemma SelectedIs(fields: seq<ModelField>, query: Query)
    ensures Chosen(fields, query, Selected(fields, query))
  {
    NamesInOrder(fields);
  }

  /** A chosen or laid-out field has a type in which the entity is referred to. */
  ghost predicate UsesAt(fields: seq<ModelField>, query: Query, names: seq<string>, name: string, entity: string,
                         arrayed: bool)
  {
    (name in names || LaidOut(query.layout, name))
    && exists t :: HasField(fields, name, t) && RefersAt(t, entity, arrayed)
  }

  // ---- plans ------------------------------------------------------------------------------------

  /** A plan fetches, as lookups, what used fields refer to in arrays and what laid-out fields refer
      to at all, and as inlines what the other chosen fields refer to outside of arrays. */
  lemma PlanFetches(models: Models, query: Query, m: Manifest)
    requires Plan(models, query) == Ok(m)
    ensures query.model in models && m.base == query.model && Chosen(models[query.model], query, m.fields)
    ensures forall e :: e in m.lookups <==>
              exists name :: UsesAt(models[query.model], query, m.fields, name, e, true)
                             || (UsesAt(models[query.model], query, m.fields, name, e, false)
                                 && LaidOut(query.layout, name))
    ensures forall e :: e in m.inlines <==>
              exists name :: UsesAt(models[query.model], query, m.fields, name, e, false)
                             && !LaidOut(query.layout, name)
  {
    PlanIs(models, query, m);
    var fields := models[query.model];
    var needs := AllNeeds(fields, query);
    SelectedIs(fields, query);
    AddNeedsHas([], needs, true);
    AddNeedsHas([], needs, false);
    hide *;
    forall e
      ensures e in m.lookups <==>
                exists name :: UsesAt(fields, query, m.fields, name, e, true)
                               || (UsesAt(fields, query, m.fields, name, e, false) && LaidOut(query.layout, name))
      ensures e in m.inlines <==>
                exists name :: UsesAt(fields, query, m.fields, name, e, false) && !LaidOut(query.layout, name)
    {
      AllNeedsAt(fields, query, e);
    }
  }

  lemma UsedIs(fields: seq<ModelField>, query: Query, name: string)
    ensures Used(fields, query, name) <==>
              TypeOf(fields, name).Some? && (name in Selected(fields, query) || LaidOut(query.layout, name))
    ensures TypeOf(fields, name).Some? ==> forall t :: HasField(fields, name, t) <==> t == TypeOf(fields, name).value
    ensures TypeOf(fields, name).None? ==> forall t :: !HasField(fields, name, t)
  {
    LayoutHas(query.layout, name);
    forall t ensures HasField(fields, name, t) <==> TypeOf(fields, name) == Some(t) {
      FieldIff(fields, name, t);
    }
    hide HasField, TypeOf, LaidOut, LayoutFields, Selected;
  }

  lemma AllNeedsAt(fields: seq<ModelField>, query: Query, e: string)
    ensures Asks(AllNeeds(fields, query), true, e) <==>
              exists name :: UsesAt(fields, query, Selected(fields, query), name, e, true)
                             || (UsesAt(fields, query, Selected(fields, query), name, e, false)
                                 && LaidOut(query.layout, name))
    ensures Asks(AllNeeds(fields, query), false, e) <==>
              exists name :: UsesAt(fields, query, Selected(fields, query), name, e, false)
                             && !LaidOut(query.layout, name)
  {
    AllNeedsAsk(fields, query, true, e);
    AllNeedsAsk(fields, query, false, e);
    var names := Selected(fields, query);
    forall name ensures NeedsOf(fields, query, names, name, e) {
      NeedsOfAll(fields, query, name, e);
    }
    hide Used, UsesAt, TypeOf, LaidOut, LayoutFields, Selected, Asks, Needs, AllNeeds;
    forall asLookup | Asks(AllNeeds(fields, query), asLookup, e)
      ensures exists name :: NeedsOf(fields, query, names, name, e) && Used(fields, query, name)
                && Asks(Needs(TypeOf(fields, name).value, name, name in LayoutFields(query.layout)), asLookup, e)
    {
      var name :| Used(fields, query, name)
        && Asks(Needs(TypeOf(fields, name).value, name, name in LayoutFields(query.layout)), asLookup, e);
      assert NeedsOf(fields, query, names, name, e);
    }
    forall name, arrayed | UsesAt(fields, query, names, name, e, arrayed)
      ensures NeedsOf(fields, query, names, name, e)
    {
    }
  }

  // What is collected from a field of this name.
  ghost predicate NeedsOf(fields: seq<ModelField>, query: Query, names: seq<string>, name: string, e: string) {
    var used := Used(fields, query, name);
    var laidOut := name in LayoutFields(query.layout);
    && (laidOut <==> LaidOut(query.layout, name))
    && (used && Asks(Needs(TypeOf(fields, name).value, name, laidOut), true, e)
        <==> UsesAt(fields, query, names, name, e, true) || (UsesAt(fields, query, names, name, e, false) && laidOut))
    && (used && Asks(Needs(TypeOf(fields, name).value, name, laidOut), false, e)
        <==> UsesAt(fields, query, names, name, e, false) && !laidOut)
  }

  lemma NeedsOfAll(fields: seq<ModelField>, query: Query, name: string, e: string)
    ensures NeedsOf(fields, query, Selected(fields, query), name, e)
  {
    UsedIs(fields, query, name);
    LayoutHas(query.layout, name);
    if TypeOf(fields, name).Some? {
      NeedsAt(TypeOf(fields, name).value, name, name in LayoutFields(query.layout), e);
    }
    hide HasField, TypeOf, LaidOut, LayoutFields, Selected, Asks, Needs, RefersAt;
  }

  // ---- refusals -----------------------------------------------------------------------------------

  ghost predicate Declared(fields: seq<ModelField>, name: string) {
    exists i :: 0 <= i < |fields| && fields[i].name == name
  }

  lemma {:induction false} DeclaredIff(fields: seq<ModelField>, name: string)
    ensures Declared(fields, name) <==> KnownField(fields, name)
  {
    if fields != [] {
      DeclaredIff(fields[1..], name);
      assert forall i :: 1 <= i < |fields| ==> fields[i] == fields[1..][i - 1];
    }
  }

  /** What is refused, and why: an unknown model, no field to select, the first unknown field that is
      selected, one that is laid out, or a reference of a used field to an unknown model. */
  lemma PlanRefuses(models: Models, query: Query)
    requires Plan(models, query).Err?
    ensures match Plan(models, query).error
            case UnknownModel(x) => x == query.model && x !in models
            case EmptySelection => query.model in models && query.select == [] && models[query.model] == []
            case UnknownField(x, f) =>
              && x == query.model && x in models && !Declared(models[x], f)
              && ((exists i :: 0 <= i < |query.select| && query.select[i] == f
                               && forall j :: 0 <= j < i ==> Declared(models[x], query.select[j]))
                  || (LaidOut(query.layout, f) && forall n :: n in query.select ==> Declared(models[x], n)))
            case UnknownReference(x, _, e) =>
              && x == query.model && x in models && e !in models
              && exists names, name, arrayed :: Chosen(models[x], query, names)
                   && UsesAt(models[x], query, names, name, e, arrayed)
            case MissingBaseModel(_) => false
  {
    if query.model in models {
      var fields := models[query.model];
      SelectedIs(fields, query);
      forall n ensures Declared(fields, n) <==> KnownField(fields, n) {
        DeclaredIff(fields, n);
      }
      forall n ensures n in LayoutFields(query.layout) <==> LaidOut(query.layout, n) {
        LayoutHas(query.layout, n);
      }
      RefusedReference(models, query);
      NamesKnown(fields);
      hide AllNeeds, KnownField, Declared, LaidOut, LayoutFields, AddNeeds, UsesAt, Verdict;
    }
  }

  lemma NamesKnown(fields: seq<ModelField>)
    ensures forall n :: n in NamesOf(fields) ==> KnownField(fields, n)
    ensures NamesOf(fields) == [] <==> fields == []
  {
  }

  lemma RefusedReference(models: Models, query: Query)
    requires query.model in models
    ensures var needs := AllNeeds(models[query.model], query);
            var verdict := Verdict(models, query.model, needs);
            verdict.Err? ==>
              && verdict.error.UnknownReference? && verdict.error.model == query.model
              && verdict.error.target !in models
              && exists name, arrayed ::
                   UsesAt(models[query.model], query, Selected(models[query.model], query), name,
                          verdict.error.target, arrayed)
  {
    var fields := models[query.model];
    var needs := AllNeeds(fields, query);
    var k := |KnownPrefix(models, needs)|;
    StopsAtUnknown(models, needs);
    if k < |needs| {
      var n := needs[k];
      assert n in needs && Asks(needs, n.explicit, n.entity);
      AllNeedsAt(fields, query, n.entity);
    }
    hide AllNeeds, Selected, UsesAt, Asks, KnownPrefix;
  }

  lemma {:induction false} StopsAtUnknown(models: Models, needs: seq<Need>)
    ensures var k := |KnownPrefix(models, needs)|; k <= |needs| && (k < |needs| ==> needs[k].entity !in models)
  {
    if needs != [] {
      StopsAtUnknown(models, needs[1..]);
    }
  }
}
