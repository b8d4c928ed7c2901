// A compiled object says that it is one and that it is closed. A source node that leaves
// either open is narrowed by compiling.
module SchemaNarrowing {
  import opened JsonValues
  import opened ActionSchemas
  import opened SchemaCompiler
  import opened SchemaExclusion
  import opened SchemaPruning
  import opened SchemaMeaning
  import opened SchemaCompletion

  // An object node in order but for what it says of its own type and closure.
  ghost predicate GoodBelow(s: Schema, defs: Definitions, t: Target)
  {
    && s.IsObject() && Compiles(s, defs.Keys, t) && GoodDefinitions(defs, t)
    && (s.constant.Some? ==> s.constant.value.Scalar())
    && (s.choices.Some? ==> forall i :: 0 <= i < |s.choices.value| ==> s.choices.value[i].Scalar())
    && (forall k :: k in s.Props() ==> Plain(s.Props()[k]))
  }

  // An object with no other members than the node lists.
  predicate ClosedInstance(v: Json, s: Schema)
    requires s.Node?
  {
    v.JObj? && v.members.Keys <= s.Props().Keys
  }

  lemma CompletedKeepsMembers(v: Json, s: Schema, defs: Definitions, t: Target, seen: set<string>)
    requires s.IsObject() && v.JObj?
    ensures Complete(v, s, defs, t, seen).JObj?
    ensures Complete(v, s, defs, t, seen).members.Keys == v.members.Keys + Missing(v, s, t)
  {}

  lemma ClosedIsLocallyCompiled(v: Json, s: Schema, defs: Definitions, t: Target, seen: set<string>)
    requires GoodBelow(s, defs, t) && ClosedInstance(v, s) && LocalHolds(v, s)
    ensures LocalHolds(Complete(v, s, defs, t, seen), Lower(s, t))
  {
    CompletedKeepsMembers(v, s, defs, t, seen);
    CompleteKeepsShape(v, s, defs, t, seen);
    KeptFacetsHold(v, Complete(v, s, defs, t, seen), s.facets, t);
    LowerKeepsProperties(s, t);
  }

  lemma ClosedInstanceCompletes(v: Json, s: Schema, defs: Definitions, t: Target, seen: set<string>)
    requires GoodBelow(s, defs, t) && ClosedInstance(v, s) && Accepts(v, s, defs, seen)
    ensures Accepts(Complete(v, s, defs, t, seen), Lower(s, t), LowerAll(defs, t), seen)
  {
    ClosedIsLocallyCompiled(v, s, defs, t, seen);
    CompletedMembersAreAccepted(v, s, defs, t, seen);
    CompletedKeepsMembers(v, s, defs, t, seen);
  }

  lemma CompiledTakesClosedOnly(v: Json, s: Schema, defs: Definitions, t: Target, seen: set<string>)
    requires s.IsObject() && Accepts(Complete(v, s, defs, t, seen), Lower(s, t), LowerAll(defs, t), seen)
    ensures ClosedInstance(v, s)
  {
    CompleteKeepsShape(v, s, defs, t, seen);
    LowerKeepsProperties(s, t);
    if v.JObj? { CompletedKeepsMembers(v, s, defs, t, seen); }
  }

  // Compiling an object node keeps all it accepts, completed, exactly when it accepts closed
  // objects only.
  lemma NarrowingExact(s: Schema, defs: Definitions, t: Target, seen: set<string>)
    requires GoodBelow(s, defs, t)
    ensures (forall v :: Accepts(v, s, defs, seen) ==>
               Accepts(Complete(v, s, defs, t, seen), Lower(s, t), LowerAll(defs, t), seen))
       <==> (forall v :: Accepts(v, s, defs, seen) ==> ClosedInstance(v, s))
  {
    forall v | Accepts(v, s, defs, seen)
      ensures Accepts(Complete(v, s, defs, t, seen), Lower(s, t), LowerAll(defs, t), seen) <==> ClosedInstance(v, s)
    {
      if ClosedInstance(v, s) { ClosedInstanceCompletes(v, s, defs, t, seen); }
      if Accepts(Complete(v, s, defs, t, seen), Lower(s, t), LowerAll(defs, t), seen) {
        CompiledTakesClosedOnly(v, s, defs, t, seen);
      }
    }
  }

  // Stating the type and the closure is enough.
  lemma StatedIsNotNarrowed(v: Json, s: Schema, defs: Definitions, seen: set<string>)
    requires ClosedObject(s) && Accepts(v, s, defs, seen)
    ensures ClosedInstance(v, s)
  {}

  // With properties and neither a type nor a constant or choices, null is accepted and then
  // refused by the compiled form.
  lemma UntypedIsNarrowed(s: Schema, defs: Definitions, t: Target, seen: set<string>)
    requires s.Node? && s.properties.Properties? && s.typ.NoType? && s.constant.None? && s.choices.None?
    ensures Accepts(JNull, s, defs, seen) && !Accepts(JNull, Lower(s, t), LowerAll(defs, t), seen)
  {
    assert Lower(s, t).typ == OneType(TObject) && !LocalHolds(JNull, Lower(s, t));
  }

  // Without a statement on further members, any such member can be added to an accepted
  // object, and no completion of the result is accepted by the compiled form.
  lemma OpenIsNarrowed(v: Json, s: Schema, k: string, w: Json, defs: Definitions, t: Target, seen: set<string>)
    requires s.IsObject() && s.additional.Unstated? && v.JObj? && Accepts(v, s, defs, seen) && k !in s.Props()
    requires s.constant.Some? ==> s.constant.value.Scalar()
    requires s.choices.Some? ==> forall i :: 0 <= i < |s.choices.value| ==> s.choices.value[i].Scalar()
    ensures var u := JObj(v.members[k := w]);
      Accepts(u, s, defs, seen) && !Accepts(Complete(u, s, defs, t, seen), Lower(s, t), LowerAll(defs, t), seen)
  {
    var u := JObj(v.members[k := w]);
    assert LocalHolds(u, s);
    if Accepts(Complete(u, s, defs, t, seen), Lower(s, t), LowerAll(defs, t), seen) {
      CompiledTakesClosedOnly(u, s, defs, t, seen);
    }
  }
}
