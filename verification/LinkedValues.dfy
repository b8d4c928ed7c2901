// Renaming of references inside values. The linker walks every JSON value of a tool's schema,
// constants and choices included, and renames each `$ref` member that names a local
// definition.
module LinkedValues {
  import opened JsonValues
  import opened ActionSchemas

  const REF_KEY := "$ref"
  const REF_PREFIX := "#/$defs/"

  // The table maps a local definition's token to its linked token; a link names one when it
  // is that token after the prefix.
  predicate NamesLocal(link: string, references: map<string, string>)
  {
    REF_PREFIX <= link && link[|REF_PREFIX|..] in references
  }

  function RewriteLink(link: string, references: map<string, string>): (r: string)
  {
    if NamesLocal(link, references) then REF_PREFIX + references[link[|REF_PREFIX|..]] else link
  }

  function RewriteValue(v: Json, references: map<string, string>): (r: Json)
  {
    match v
    case JArr(items) => JArr(seq(|items|, i requires 0 <= i < |items| => RewriteValue(items[i], references)))
    case JObj(members) =>
      JObj(map k | k in members ::
             if k == REF_KEY && members[k].JStr? then JStr(RewriteLink(members[k].s, references))
             else RewriteValue(members[k], references))
    case _ => v
  }

  // The value holds no string member `$ref` that names a local definition.
  predicate Unlinked(v: Json, references: map<string, string>)
  {
    match v
    case JArr(items) => forall i :: 0 <= i < |items| ==> Unlinked(items[i], references)
    case JObj(members) =>
      forall k :: k in members ==>
        if k == REF_KEY && members[k].JStr? then !NamesLocal(members[k].s, references)
        else Unlinked(members[k], references)
    case _ => true
  }

  // No token is mapped to itself.
  predicate Renames(references: map<string, string>)
  {
    forall token :: token in references ==> references[token] != token
  }

  lemma {:induction false} UnlinkedStays(v: Json, references: map<string, string>)
    requires Unlinked(v, references)
    ensures RewriteValue(v, references) == v
  {
    match v
    case JArr(items) =>
      forall i | 0 <= i < |items|
        ensures RewriteValue(items[i], references) == items[i]
      {
        UnlinkedStays(items[i], references);
      }
      assert RewriteValue(v, references).items == items;
    case JObj(members) =>
      forall k | k in members && !(k == REF_KEY && members[k].JStr?)
        ensures RewriteValue(members[k], references) == members[k]
      {
        UnlinkedStays(members[k], references);
      }
      assert RewriteValue(v, references).members == members;
    case _ =>
  }

  // A value that holds a link is changed into one that Python compares as different.
  lemma {:induction false} LinkedChanges(v: Json, references: map<string, string>)
    requires Renames(references) && PyEq(v, RewriteValue(v, references))
    ensures Unlinked(v, references)
  {
    match v
    case JArr(items) =>
      forall i | 0 <= i < |items|
        ensures Unlinked(items[i], references)
      {
        assert PyEq(items[i], RewriteValue(v, references).items[i]);
        LinkedChanges(items[i], references);
      }
    case JObj(members) =>
      forall k | k in members
        ensures if k == REF_KEY && members[k].JStr? then !NamesLocal(members[k].s, references)
                else Unlinked(members[k], references)
      {
        assert PyEq(members[k], RewriteValue(v, references).members[k]);
        if k == REF_KEY && members[k].JStr? {
          KeptLinkIsForeign(members[k].s, references);
        } else {
          LinkedChanges(members[k], references);
        }
      }
    case _ =>
  }

  lemma KeptLinkIsForeign(link: string, references: map<string, string>)
    requires Renames(references) && RewriteLink(link, references) == link
    ensures !NamesLocal(link, references)
  {}

  // Renaming changes a value exactly when it holds a link.
  lemma RewritingExact(v: Json, references: map<string, string>)
    requires Renames(references)
    ensures PyEq(v, RewriteValue(v, references)) <==> Unlinked(v, references)
    ensures RewriteValue(v, references) == v <==> Unlinked(v, references)
  {
    PyEqReflexive(v);
    if Unlinked(v, references) { UnlinkedStays(v, references); }
    if PyEq(v, RewriteValue(v, references)) { LinkedChanges(v, references); }
  }

  lemma RewriteKeepsShape(v: Json, references: map<string, string>)
    ensures v.Scalar() ==> RewriteValue(v, references) == v
    ensures RewriteValue(v, references).Scalar() <==> v.Scalar()
  {}

  /******* The keywords that hold values *******/

  function RewriteConstant(c: Option<Json>, references: map<string, string>): (r: Option<Json>)
  {
    if c.Some? then Some(RewriteValue(c.value, references)) else None
  }

  function RewriteChoices(c: Option<seq<Json>>, references: map<string, string>): (r: Option<seq<Json>>)
  {
    if c.None? then None
    else Some(seq(|c.value|, i requires 0 <= i < |c.value| => RewriteValue(c.value[i], references)))
  }

  function RewriteFacet(f: Facet, references: map<string, string>): (r: Facet)
  {
    match f
    case Default(preset) => Default(RewriteValue(preset, references))
    case _ => f
  }

  function RewriteFacets(facets: seq<Facet>, references: map<string, string>): (r: seq<Facet>)
  {
    seq(|facets|, i requires 0 <= i < |facets| => RewriteFacet(facets[i], references))
  }

  predicate UnlinkedValues(constant: Option<Json>, choices: Option<seq<Json>>, references: map<string, string>)
  {
    && (constant.Some? ==> Unlinked(constant.value, references))
    && (choices.Some? ==> forall i :: 0 <= i < |choices.value| ==> Unlinked(choices.value[i], references))
  }

  lemma UnlinkedValuesStay(constant: Option<Json>, choices: Option<seq<Json>>, references: map<string, string>)
    requires UnlinkedValues(constant, choices, references)
    ensures RewriteConstant(constant, references) == constant && RewriteChoices(choices, references) == choices
  {
    if constant.Some? { UnlinkedStays(constant.value, references); }
    if choices.Some? {
      forall i | 0 <= i < |choices.value| { UnlinkedStays(choices.value[i], references); }
      assert RewriteChoices(choices, references).value == choices.value;
    }
  }

  // Presets constrain no instance.
  lemma RewrittenFacetsHold(v: Json, facets: seq<Facet>, references: map<string, string>)
    ensures (forall i :: 0 <= i < |facets| ==> FacetHolds(v, facets[i])) <==>
            (forall i :: 0 <= i < |RewriteFacets(facets, references)| ==>
               FacetHolds(v, RewriteFacets(facets, references)[i]))
  {
    forall i | 0 <= i < |facets|
      ensures FacetHolds(v, facets[i]) <==> FacetHolds(v, RewriteFacets(facets, references)[i])
    {}
  }
}
