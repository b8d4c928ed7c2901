// The compiler's own check: the restored tree must equal the source with its dropped
// keywords stripped, `title` aside on both sides. This module says exactly when it passes.
module SchemaRoundTrip {
  import opened JsonValues
  import opened ActionSchemas
  import opened SchemaCompiler

  // Keyword names the target drops. Stripping works on raw JSON and does not tell a
  // keyword from a property that happens to bear its name.
  function DroppedNames(t: Target): (r: set<string>)
  {
    var always := {"minLength", "maxLength", "default"};
    match t
    case OpenAI => always
    case Anthropic =>
      always + {"pattern", "minimum", "maximum", "exclusiveMinimum", "exclusiveMaximum",
                "multipleOf", "minItems", "maxItems"}
  }

  // The keyword a facet stands for.
  function Keyword(f: Facet): (r: string)
  {
    match f
    case MinLength(_) => "minLength"
    case MaxLength(_) => "maxLength"
    case Pattern(_) => "pattern"
    case Minimum(_) => "minimum"
    case Maximum(_) => "maximum"
    case ExclusiveMinimum(_) => "exclusiveMinimum"
    case ExclusiveMaximum(_) => "exclusiveMaximum"
    case MultipleOf(_) => "multipleOf"
    case MinItems(_) => "minItems"
    case MaxItems(_) => "maxItems"
    case Default(_) => "default"
  }

  // Compiling drops a facet exactly when stripping drops its keyword.
  lemma DropsByName(t: Target, f: Facet)
    ensures Drops(t, f) <==> Keyword(f) in DroppedNames(t)
  {
    assert "pattern" !in DroppedNames(OpenAI) && "minimum" !in DroppedNames(OpenAI);
  }

  // What stripping leaves of a node's facets.
  function StrippedFacets(facets: seq<Facet>, t: Target): (r: seq<Facet>)
  {
    if facets == [] then []
    else if Keyword(facets[0]) in DroppedNames(t) then StrippedFacets(facets[1..], t)
    else [facets[0]] + StrippedFacets(facets[1..], t)
  }

  lemma {:induction false} StrippedFacetsAreKept(facets: seq<Facet>, t: Target)
    ensures StrippedFacets(facets, t) == Kept(facets, t)
  {
    if facets != [] {
      DropsByName(t, facets[0]);
      StrippedFacetsAreKept(facets[1..], t);
    }
  }

  /******* Values *******/

  // `_strip_dropped` of a value such as a constant, which it treats like a schema.
  function StrippedValue(v: Json, dropped: set<string>): (r: Json)
  {
    match v
    case JArr(items) => JArr(seq(|items|, i requires 0 <= i < |items| => StrippedValue(items[i], dropped)))
    case JObj(members) =>
      JObj(Completed(members, map k | k in members && k !in dropped :: StrippedValue(members[k], dropped)))
    case _ => v
  }

  predicate LooksLikeObject(members: map<string, Json>)
  {
    (TYPE in members && members[TYPE] == JStr("object")) || PROPERTIES in members
  }

  // Object keywords are added to whatever looks like an object schema.
  function Completed(members: map<string, Json>, kept: map<string, Json>): (r: map<string, Json>)
  {
    if LooksLikeObject(members) then
      (map[TYPE := JStr("object"), PROPERTIES := JObj(map[]), REQUIRED := JArr([])] + kept)[ADDITIONAL := JBool(false)]
    else kept
  }

  const TYPE := "type"
  const PROPERTIES := "properties"
  const REQUIRED := "required"
  const ADDITIONAL := "additionalProperties"

  // `_without_annotations` of a value.
  function Untitled(v: Json): (r: Json)
  {
    match v
    case JArr(items) => JArr(seq(|items|, i requires 0 <= i < |items| => Untitled(items[i])))
    case JObj(members) => JObj(map k | k in members && k != "title" :: Untitled(members[k]))
    case _ => v
  }

  // Titles aside, the value holds no member under a dropped name, and what looks like an
  // object schema in it is already complete and closed.
  predicate Undisturbed(v: Json, dropped: set<string>)
  {
    match v
    case JArr(items) => forall i :: 0 <= i < |items| ==> Undisturbed(items[i], dropped)
    case JObj(members) =>
      && (LooksLikeObject(members) ==> IsComplete(members))
      && forall k :: k in members && k != "title" ==> k !in dropped && Undisturbed(members[k], dropped)
    case _ => true
  }

  predicate IsComplete(members: map<string, Json>)
  {
    && TYPE in members && PROPERTIES in members && REQUIRED in members
    && ADDITIONAL in members && members[ADDITIONAL] == JBool(false)
  }

  predicate SparesObjectKeywords(dropped: set<string>)
  {
    TYPE !in dropped && PROPERTIES !in dropped && REQUIRED !in dropped && ADDITIONAL !in dropped
  }

  lemma {:induction false} UndisturbedStays(v: Json, dropped: set<string>)
    requires Undisturbed(v, dropped)
    ensures Untitled(StrippedValue(v, dropped)) == Untitled(v)
    decreases v, 1
  {
    match v
    case JArr(items) =>
      forall i | 0 <= i < |items|
        ensures Untitled(StrippedValue(items[i], dropped)) == Untitled(items[i])
      {
        UndisturbedStays(items[i], dropped);
      }
      assert Untitled(StrippedValue(v, dropped)).items == Untitled(v).items;
    case JObj(members) => UndisturbedObjectStays(v, dropped);
    case _ =>
  }

  lemma {:induction false} UndisturbedObjectStays(v: Json, dropped: set<string>)
    requires v.JObj? && Undisturbed(v, dropped)
    ensures Untitled(StrippedValue(v, dropped)) == Untitled(v)
    decreases v, 0
  {
    var a, b := Untitled(StrippedValue(v, dropped)).members, Untitled(v).members;
    forall k | k in v.members && k != "title"
      ensures Untitled(StrippedValue(v.members[k], dropped)) == Untitled(v.members[k])
    {
      UndisturbedStays(v.members[k], dropped);
    }
    assert a.Keys == b.Keys;
    assert a == b;
  }

  lemma {:induction false} StayingIsUndisturbed(v: Json, dropped: set<string>)
    requires SparesObjectKeywords(dropped) && Untitled(StrippedValue(v, dropped)) == Untitled(v)
    ensures Undisturbed(v, dropped)
  {
    match v
    case JArr(items) =>
      forall i | 0 <= i < |items|
        ensures Undisturbed(items[i], dropped)
      {
        assert Untitled(StrippedValue(v, dropped)).items[i] == Untitled(v).items[i];
        StayingIsUndisturbed(items[i], dropped);
      }
    case JObj(members) =>
      StayingIsComplete(members, dropped);
      forall k | k in members && k != "title"
        ensures k !in dropped && Undisturbed(members[k], dropped)
      {
        assert k in Untitled(v).members;
        StayingMember(members, dropped, k);
        StayingIsUndisturbed(members[k], dropped);
      }
    case _ =>
  }

  lemma StayingIsComplete(members: map<string, Json>, dropped: set<string>)
    requires Untitled(StrippedValue(JObj(members), dropped)) == Untitled(JObj(members))
    ensures LooksLikeObject(members) ==> IsComplete(members)
  {
    if LooksLikeObject(members) {
      var a := StrippedValue(JObj(members), dropped).members;
      assert TYPE in a && PROPERTIES in a && REQUIRED in a && ADDITIONAL in a && a[ADDITIONAL] == JBool(false);
      var b := Untitled(JObj(members)).members;
      assert b == Untitled(JObj(a)).members;
      assert TYPE in b && PROPERTIES in b && REQUIRED in b && ADDITIONAL in b && b[ADDITIONAL] == JBool(false);
    }
  }

  lemma StayingMember(members: map<string, Json>, dropped: set<string>, k: string)
    requires SparesObjectKeywords(dropped)
    requires Untitled(StrippedValue(JObj(members), dropped)) == Untitled(JObj(members))
    requires k in members && k != "title"
    ensures k !in dropped && Untitled(StrippedValue(members[k], dropped)) == Untitled(members[k])
  {
    var a := StrippedValue(JObj(members), dropped).members;
    var b := Untitled(JObj(members)).members;
    assert b == Untitled(JObj(a)).members;
    assert k in b && b[k] == Untitled(a[k]);
  }

  // The value-holding keywords of a node, on the stripped and on the restored side.
  function StrippedConstant(c: Option<Json>, t: Target): (r: Option<Json>)
  {
    if c.Some? then Some(Untitled(StrippedValue(c.value, DroppedNames(t)))) else None
  }

  function UntitledConstant(c: Option<Json>): (r: Option<Json>)
  {
    if c.Some? then Some(Untitled(c.value)) else None
  }

  function StrippedChoices(c: Option<seq<Json>>, t: Target): (r: Option<seq<Json>>)
  {
    if c.None? then None
    else Some(seq(|c.value|, i requires 0 <= i < |c.value| => Untitled(StrippedValue(c.value[i], DroppedNames(t)))))
  }

  function UntitledChoices(c: Option<seq<Json>>): (r: Option<seq<Json>>)
  {
    if c.None? then None
    else Some(seq(|c.value|, i requires 0 <= i < |c.value| => Untitled(c.value[i])))
  }

  predicate ValuesUndisturbed(constant: Option<Json>, choices: Option<seq<Json>>, t: Target)
  {
    && (constant.Some? ==> Undisturbed(constant.value, DroppedNames(t)))
    && (choices.Some? ==> forall i :: 0 <= i < |choices.value| ==> Undisturbed(choices.value[i], DroppedNames(t)))
  }

  lemma DroppingSparesObjectKeywords(t: Target)
    ensures SparesObjectKeywords(DroppedNames(t))
  {}

  lemma ValuesRoundTrip(constant: Option<Json>, choices: Option<seq<Json>>, t: Target)
    ensures ValuesUndisturbed(constant, choices, t) <==>
      StrippedConstant(constant, t) == UntitledConstant(constant)
        && StrippedChoices(choices, t) == UntitledChoices(choices)
  {
    DroppingSparesObjectKeywords(t);
    if ValuesUndisturbed(constant, choices, t) {
      if constant.Some? { UndisturbedStays(constant.value, DroppedNames(t)); }
      if choices.Some? {
        forall i | 0 <= i < |choices.value| { UndisturbedStays(choices.value[i], DroppedNames(t)); }
      }
    }
    if ValuesUndisturbed(constant, choices, t) && choices.Some? {
      assert StrippedChoices(choices, t).value == UntitledChoices(choices).value;
    }
    if StrippedConstant(constant, t) == UntitledConstant(constant)
      && StrippedChoices(choices, t) == UntitledChoices(choices) {
      if constant.Some? { StayingIsUndisturbed(constant.value, DroppedNames(t)); }
      if choices.Some? {
        forall i | 0 <= i < |choices.value|
          ensures Undisturbed(choices.value[i], DroppedNames(t))
        {
          assert StrippedChoices(choices, t).value[i] == UntitledChoices(choices).value[i];
          StayingIsUndisturbed(choices.value[i], DroppedNames(t));
        }
      }
    }
  }

  // Scalars are never disturbed.
  lemma ScalarsAreUndisturbed(constant: Option<Json>, choices: Option<seq<Json>>, t: Target)
    requires constant.Some? ==> constant.value.Scalar()
    requires choices.Some? ==> forall i :: 0 <= i < |choices.value| ==> choices.value[i].Scalar()
    ensures ValuesUndisturbed(constant, choices, t)
  {}

  /******* Schemas *******/

  // Stripping a mapping that has a `properties` key adds object keywords to it, which no
  // restored mapping has.
  predicate StaysAMapping(names: set<string>)
  {
    "properties" !in names
  }

  // A name that stripping does not take for a keyword.
  predicate SafeName(name: string, t: Target)
  {
    name !in DroppedNames(t) && name != "properties"
  }

  // `_without_annotations(_strip_dropped(s))`, or None when the result is no schema tree.
  function Stripped(s: Schema, t: Target): (r: Option<Schema>)
  {
    match s
    case Ref(_) => Some(s)
    case Union(exclusive, branches) =>
      if forall i :: 0 <= i < |branches| ==> Stripped(branches[i], t).Some? then
        Some(Union(exclusive,
                   seq(|branches|, i requires 0 <= i < |branches| && Stripped(branches[i], t).Some? =>
                         Stripped(branches[i], t).value)))
      else None
    case Node(typ, constant, choices, facets, items, properties, required, additional) =>
      if items.Items? && Stripped(items.each, t).None? then None
      else
        var items' := if items.Items? then Items(Stripped(items.each, t).value) else NoItems;
        if !s.IsObject() then
          Some(Node(typ, StrippedConstant(constant, t), StrippedChoices(choices, t), StrippedFacets(facets, t),
                    items', NoProperties, required, additional))
        else if !StaysAMapping(s.Props().Keys) || exists k ::
                  k in s.Props() && k !in DroppedNames(t) && k != "title" && Stripped(s.Props()[k], t).None?
        then None
        else
          var properties' := map k | k in s.Props() && k !in DroppedNames(t) && k != "title" ::
                                 Stripped(s.Props()[k], t).value;
          Some(Node(if typ.NoType? then OneType(TObject) else typ,
                    StrippedConstant(constant, t), StrippedChoices(choices, t), StrippedFacets(facets, t),
                    items', Properties(properties'), Some(s.Required()), Closed))
  }

  // `_without_annotations` of a schema.
  function UntitledSchema(s: Schema): (r: Schema)
  {
    match s
    case Ref(_) => s
    case Union(exclusive, branches) =>
      Union(exclusive, seq(|branches|, i requires 0 <= i < |branches| => UntitledSchema(branches[i])))
    case Node(typ, constant, choices, facets, items, properties, required, additional) =>
      var items' := if items.Items? then Items(UntitledSchema(items.each)) else NoItems;
      var properties' :=
        if properties.NoProperties? then NoProperties
        else Properties(map k | k in properties.of && k != "title" :: UntitledSchema(properties.of[k]));
      Node(typ, UntitledConstant(constant), UntitledChoices(choices), facets, items', properties', required, additional)
  }

  // The restored side of the check.
  function Checked(s: Schema, t: Target): (r: Schema)
  {
    UntitledSchema(Restore(s, t))
  }

  ghost predicate RoundTrips(s: Schema, t: Target)
  {
    Stripped(s, t) == Some(Checked(s, t))
  }

  // What a caller can see in a schema before compiling it: `required` and
  // `additionalProperties` on objects only, no competing `type` on a node with properties,
  // and no property that bears a dropped keyword's name or the name `properties`.
  // Constants hold nothing that stripping would disturb. Nothing below a property named
  // `title` is looked at.
  predicate Regular(s: Schema, t: Target)
  {
    match s
    case Ref(_) => true
    case Union(_, branches) => forall i :: 0 <= i < |branches| ==> Regular(branches[i], t)
    case Node(typ, constant, choices, _, items, properties, required, additional) =>
      && ValuesUndisturbed(constant, choices, t)
      && (items.Items? ==> Regular(items.each, t))
      && if s.IsObject() then
           && (typ.NoType? || typ == OneType(TObject))
           && StaysAMapping(s.Props().Keys)
           && s.Props().Keys !! DroppedNames(t)
           && (forall k :: k in s.Props() && k != "title" ==> Regular(s.Props()[k], t))
         else required.None? && additional.Unstated?
  }

  lemma {:induction false} RegularRoundTrips(s: Schema, t: Target)
    requires Regular(s, t)
    ensures RoundTrips(s, t)
    decreases s, 1
  {
    match s
    case Ref(_) =>
    case Union(_, branches) =>
      forall i | 0 <= i < |branches|
        ensures Stripped(branches[i], t) == Some(Checked(branches[i], t))
      {
        RegularRoundTrips(branches[i], t);
      }
      assert Stripped(s, t).value.branches == Checked(s, t).branches;
    case Node(_, constant, choices, _, items, properties, _, _) =>
      ValuesRoundTrip(constant, choices, t);
      StrippedFacetsAreKept(s.facets, t);
      if items.Items? { RegularRoundTrips(items.each, t); }
      if s.IsObject() { RegularObjectRoundTrips(s, t); }
  }

  lemma {:induction false} RegularObjectRoundTrips(s: Schema, t: Target)
    requires s.IsObject() && Regular(s, t)
    ensures Stripped(s, t).Some? && Stripped(s, t).value.properties == Checked(s, t).properties
    decreases s, 0
  {
    forall k | k in s.Props() && k != "title"
      ensures Stripped(s.Props()[k], t) == Some(Checked(s.Props()[k], t))
    {
      RegularRoundTrips(s.Props()[k], t);
    }
    if s.items.Items? { RegularRoundTrips(s.items.each, t); }
    assert Stripped(s, t).value.properties.of == Checked(s, t).properties.of;
  }

  lemma {:induction false} RoundTripIsRegular(s: Schema, t: Target)
    requires RoundTrips(s, t)
    ensures Regular(s, t)
    decreases s, 1
  {
    match s
    case Ref(_) =>
    case Union(_, branches) =>
      forall i | 0 <= i < |branches|
        ensures Regular(branches[i], t)
      {
        assert Stripped(s, t).value.branches[i] == Checked(s, t).branches[i];
        RoundTripIsRegular(branches[i], t);
      }
    case Node(_, constant, choices, _, items, properties, _, _) =>
      ValuesRoundTrip(constant, choices, t);
      if items.Items? { RoundTripIsRegular(items.each, t); }
      if s.IsObject() { RoundTripIsRegularObject(s, t); }
  }

  lemma {:induction false} RoundTripIsRegularObject(s: Schema, t: Target)
    requires s.IsObject() && RoundTrips(s, t)
    ensures StaysAMapping(s.Props().Keys) && s.Props().Keys !! DroppedNames(t)
    ensures forall k :: k in s.Props() && k != "title" ==> Regular(s.Props()[k], t)
    decreases s, 0
  {
    var a, b := Stripped(s, t).value.properties.of, Checked(s, t).properties.of;
    assert a == b;
    forall k | k in s.Props() && k != "title"
      ensures k !in DroppedNames(t) && Regular(s.Props()[k], t)
    {
      assert k in b && k in a;
      assert a[k] == b[k];
      RoundTripIsRegular(s.Props()[k], t);
    }
  }

  // The check passes on exactly the regular schemas.
  lemma RoundTripExact(s: Schema, t: Target)
    ensures RoundTrips(s, t) <==> Regular(s, t)
  {
    if Regular(s, t) { RegularRoundTrips(s, t); }
    if RoundTrips(s, t) { RoundTripIsRegular(s, t); }
  }

  /******* A constant the check fails on *******/

  function ConstantSchema(value: Json): (r: Schema)
  {
    Node(NoType, Some(value), None, [], NoItems, NoProperties, None, Unstated)
  }

  // A constant object that has a member named `default` compiles and then fails the check,
  // whatever the member holds and whatever else the object has.
  lemma DroppedNameInConstantFails(members: map<string, Json>, t: Target)
    requires "default" in members
    ensures Compiles(ConstantSchema(JObj(members)), {}, t) && !RoundTrips(ConstantSchema(JObj(members)), t)
  {
    var s := ConstantSchema(JObj(members));
    RoundTripExact(s, t);
    assert "default" in DroppedNames(t) && "default" != "title";
  }
}
