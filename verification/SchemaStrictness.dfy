// What the compiled tree is allowed to contain, whatever the source schema says.
module SchemaStrictness {
  import opened JsonValues
  import opened ActionSchemas
  import opened SchemaCompiler
  import opened SchemaRoundTrip

  // The provider's subset: no exclusive union, no keyword outside the target's table, and
  // objects that say so, are closed, require only what they list and, for the target that
  // asks for it, all they list.
  predicate IsStrict(s: Schema, t: Target)
  {
    match s
    case Ref(_) => true
    case Union(exclusive, branches) => !exclusive && forall i :: 0 <= i < |branches| ==> IsStrict(branches[i], t)
    case Node(typ, _, _, facets, items, properties, required, additional) =>
      && (forall i :: 0 <= i < |facets| ==> Keyword(facets[i]) !in DroppedNames(t))
      && (items.Items? ==> IsStrict(items.each, t))
      && (properties.NoProperties? ==> typ != OneType(TObject) && required.None? && additional.Unstated?)
      && (properties.Properties? ==>
            && typ == OneType(TObject) && additional.Closed? && required.Some?
            && required.value <= properties.of.Keys
            && (t.OpenAI? ==> required.value == properties.of.Keys)
            && forall k :: k in properties.of ==> IsStrict(properties.of[k], t))
  }

  lemma KeptIsInTable(facets: seq<Facet>, t: Target)
    ensures forall i :: 0 <= i < |Kept(facets, t)| ==> Keyword(Kept(facets, t)[i]) !in DroppedNames(t)
  {
    forall i | 0 <= i < |Kept(facets, t)|
      ensures Keyword(Kept(facets, t)[i]) !in DroppedNames(t)
    {
      assert Kept(facets, t)[i] in Kept(facets, t);
      DropsByName(t, Kept(facets, t)[i]);
    }
  }

  lemma NullableIsStrict(s: Schema, t: Target)
    requires IsStrict(s, t)
    ensures IsStrict(Nullable(s), t)
  {
    assert IsStrict(NULL_NODE, t);
  }

  lemma {:induction false} LoweredIsStrict(s: Schema, t: Target)
    ensures IsStrict(Lower(s, t), t)
    decreases s, 1
  {
    match s
    case Ref(_) =>
    case Union(_, branches) =>
      forall i | 0 <= i < |branches|
        ensures IsStrict(Lower(branches[i], t), t)
      {
        LoweredIsStrict(branches[i], t);
      }
    case Node(_, _, _, facets, items, _, _, _) =>
      KeptIsInTable(facets, t);
      if items.Items? { LoweredIsStrict(items.each, t); }
      if s.IsObject() { LoweredPropertiesAreStrict(s, t); }
  }

  lemma {:induction false} LoweredPropertiesAreStrict(s: Schema, t: Target)
    requires s.IsObject()
    ensures forall k :: k in s.Props() ==> IsStrict(Lower(s, t).Props()[k], t)
    decreases s, 0
  {
    forall k | k in s.Props()
      ensures IsStrict(Lower(s, t).Props()[k], t)
    {
      LoweredIsStrict(s.Props()[k], t);
      NullableIsStrict(Lower(s.Props()[k], t), t);
    }
  }

  // No constraint is lost that the target's table has room for, and no property and no
  // requirement: what the source requires of an object, its compiled form requires.
  lemma LoweringKeepsTable(s: Schema, t: Target)
    requires s.Node?
    ensures Lower(s, t).facets == StrippedFacets(s.facets, t)
    ensures Lower(s, t).constant == s.constant && Lower(s, t).choices == s.choices
    ensures s.IsObject() ==> Lower(s, t).Props().Keys == s.Props().Keys
    ensures s.IsObject() ==> s.Required() * s.Props().Keys <= Lower(s, t).Required()
    ensures s.IsObject() && t.Anthropic? ==> Lower(s, t).Required() <= s.Required()
  {
    StrippedFacetsAreKept(s.facets, t);
  }
}
