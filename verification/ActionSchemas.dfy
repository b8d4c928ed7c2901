// The provider-neutral action schema and the validator that gives it meaning.
//
// A `$ref`, `anyOf` or `oneOf` node carries nothing the validator reads besides that
// keyword, so a schema is one of three shapes. Annotations (`title`, `description`,
// `format`) constrain no instance and are left out of the tree.
module ActionSchemas {
  import opened JsonValues

  datatype JsonType = TObject | TArray | TString | TBoolean | TInteger | TNumber | TNull | TUnknown

  // The `type` keyword: absent, one name, or a list of names.
  datatype TypeSpec = NoType | OneType(t: JsonType) | TypeList(ts: seq<JsonType>)

  datatype Facet =
    | MinLength(count: nat)
    | MaxLength(count: nat)
    | Pattern(found: string -> bool)
    | Minimum(limit: real)
    | Maximum(limit: real)
    | ExclusiveMinimum(limit: real)
    | ExclusiveMaximum(limit: real)
    | MultipleOf(step: real)
    | MinItems(count: nat)
    | MaxItems(count: nat)
    | Default(preset: Json)

  // The `properties` keyword, absent or a mapping.
  datatype Properties = NoProperties | Properties(of: map<string, Schema>)

  datatype Items = NoItems | Items(each: Schema)

  // The `additionalProperties` keyword: absent, false, or anything else.
  datatype Additional = Unstated | Closed | Open

  datatype Schema =
    | Ref(name: string)
    | Union(exclusive: bool, branches: seq<Schema>)
    | Node(typ: TypeSpec,
           constant: Option<Json>,
           choices: Option<seq<Json>>,
           facets: seq<Facet>,
           items: Items,
           properties: Properties,
           required: Option<set<string>>,
           additional: Additional)
  {
    // The compiler treats a node as an object when it says so or lists properties.
    predicate IsObject() {
      Node? && (properties.Properties? || typ == OneType(TObject))
    }

    function Props(): (r: map<string, Schema>)
      requires Node?
    {
      if properties.Properties? then properties.of else map[]
    }

    function Required(): (r: set<string>)
      requires Node?
    {
      if required.Some? then required.value else {}
    }
  }

  type Definitions = map<string, Schema>

  predicate TypeMatches(v: Json, t: JsonType)
  {
    match t
    case TObject => v.JObj?
    case TArray => v.JArr?
    case TString => v.JStr?
    case TBoolean => v.JBool?
    case TInteger => v.JNum? && v.integral
    case TNumber => v.JNum?
    case TNull => v.JNull?
    case TUnknown => false
  }

  predicate TypeSpecAllows(v: Json, spec: TypeSpec)
  {
    match spec
    case NoType => true
    case OneType(t) => TypeMatches(v, t)
    case TypeList(ts) => exists i :: 0 <= i < |ts| && TypeMatches(v, ts[i])
  }

  predicate FacetHolds(v: Json, f: Facet)
  {
    match f
    case MinLength(n) => v.JStr? ==> n <= |v.s|
    case MaxLength(n) => v.JStr? ==> |v.s| <= n
    case Pattern(found) => v.JStr? ==> found(v.s)
    case Minimum(limit) => v.JNum? ==> limit <= v.n
    case Maximum(limit) => v.JNum? ==> v.n <= limit
    case ExclusiveMinimum(limit) => v.JNum? ==> limit < v.n
    case ExclusiveMaximum(limit) => v.JNum? ==> v.n < limit
    case MultipleOf(step) =>
      v.JNum? && step > 0.0 ==> v.n / step == (v.n / step).Floor as real
    case MinItems(n) => v.JArr? ==> n <= |v.items|
    case MaxItems(n) => v.JArr? ==> |v.items| <= n
    case Default(_) => true
  }

  // Everything a node says about an instance apart from its children.
  ghost predicate LocalHolds(v: Json, s: Schema)
    requires s.Node?
  {
    && TypeSpecAllows(v, s.typ)
    && (s.constant.Some? ==> PyEq(v, s.constant.value))
    && (s.choices.Some? ==> exists i :: 0 <= i < |s.choices.value| && PyEq(v, s.choices.value[i]))
    && (forall i :: 0 <= i < |s.facets| ==> FacetHolds(v, s.facets[i]))
    && (v.JObj? ==> s.Required() <= v.members.Keys)
    && (v.JObj? && s.additional.Closed? ==> v.members.Keys <= s.Props().Keys)
  }

  // The validator reports no finding. `seen` holds the definitions followed to get here:
  // a reference that would be followed twice, or that resolves to nothing, is a finding.
  // No acyclic schema meets that guard (see SchemaTermination).
  ghost predicate Accepts(v: Json, s: Schema, defs: Definitions, seen: set<string>)
    decreases defs.Keys - seen, s
  {
    match s
    case Ref(name) =>
      name in defs && name !in seen && Accepts(v, defs[name], defs, seen + {name})
    case Union(exclusive, branches) =>
      && (exists i :: 0 <= i < |branches| && Accepts(v, branches[i], defs, seen))
      && (exclusive ==> forall i, j ::
            && 0 <= i < |branches| && 0 <= j < |branches|
            && Accepts(v, branches[i], defs, seen) && Accepts(v, branches[j], defs, seen)
            ==> i == j)
    case Node(_, _, _, _, items, properties, _, _) =>
      && LocalHolds(v, s)
      && (v.JObj? && properties.Properties? ==> forall k ::
            k in v.members && k in properties.of
            ==> Accepts(v.members[k], properties.of[k], defs, seen))
      && (v.JArr? && items.Items? ==> forall i ::
            0 <= i < |v.items| ==> Accepts(v.items[i], items.each, defs, seen))
  }

  // Const discriminators: required properties whose schema states a constant.
  function ConstMap(s: Schema): (r: map<string, Json>)
    requires s.Node?
  {
    map k | k in s.Props() && k in s.Required() && s.Props()[k].Node? && s.Props()[k].constant.Some?
      :: s.Props()[k].constant.value
  }
}
