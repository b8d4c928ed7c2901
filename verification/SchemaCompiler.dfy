// Lowering of an action schema into one provider's strict subset, and the restoration the
// compiler builds beside it.
module SchemaCompiler {
  import opened JsonValues
  import opened ActionSchemas

  datatype Target = OpenAI | Anthropic

  // The keyword table: which value constraints a target's schema cannot carry.
  predicate Drops(t: Target, f: Facet)
  {
    match f
    case MinLength(_) => true
    case MaxLength(_) => true
    case Default(_) => true
    case _ => t.Anthropic?
  }

  function Kept(facets: seq<Facet>, t: Target): (r: seq<Facet>)
    ensures forall f :: f in r <==> f in facets && !Drops(t, f)
  {
    if facets == [] then []
    else if Drops(t, facets[0]) then Kept(facets[1..], t)
    else [facets[0]] + Kept(facets[1..], t)
  }

  const NULL_NODE: Schema :=
    Node(OneType(TNull), None, None, [], NoItems, NoProperties, None, Unstated)

  predicate SaysNull(s: Schema)
  {
    s.Node? && s.typ == OneType(TNull)
  }

  // A required nullable union for a previously optional property.
  function Nullable(s: Schema): (r: Schema)
  {
    if s.Union? then
      if exists i :: 0 <= i < |s.branches| && SaysNull(s.branches[i]) then s
      else Union(false, s.branches + [NULL_NODE])
    else Union(false, [s, NULL_NODE])
  }

  // The compiled half of a node.
  function Lower(s: Schema, t: Target): (r: Schema)
  {
    match s
    case Ref(_) => s
    case Union(_, branches) =>
      Union(false, seq(|branches|, i requires 0 <= i < |branches| => Lower(branches[i], t)))
    case Node(typ, constant, choices, facets, items, properties, required, additional) =>
      var items' := if items.Items? then Items(Lower(items.each, t)) else NoItems;
      if s.IsObject() then
        var properties' := map k | k in s.Props() ::
            if k !in s.Required() && t.OpenAI?
            then Nullable(Lower(s.Props()[k], t))
            else Lower(s.Props()[k], t);
        var required' := if t.OpenAI? then s.Props().Keys else s.Props().Keys * s.Required();
        Node(OneType(TObject), constant, choices, Kept(facets, t), items',
             Properties(properties'), Some(required'), Closed)
      else
        Node(typ, constant, choices, Kept(facets, t), items', NoProperties, None, Unstated)
  }

  // The restored half: the source without the keywords the target drops.
  function Restore(s: Schema, t: Target): (r: Schema)
  {
    match s
    case Ref(_) => s
    case Union(exclusive, branches) =>
      Union(exclusive, seq(|branches|, i requires 0 <= i < |branches| => Restore(branches[i], t)))
    case Node(typ, constant, choices, facets, items, properties, required, additional) =>
      var items' := if items.Items? then Items(Restore(items.each, t)) else NoItems;
      if s.IsObject() then
        Node(OneType(TObject), constant, choices, Kept(facets, t), items',
             Properties(map k | k in s.Props() :: Restore(s.Props()[k], t)),
             Some(s.Required()), Closed)
      else
        Node(typ, constant, choices, Kept(facets, t), items', NoProperties, None, Unstated)
  }

  function LowerAll(defs: Definitions, t: Target): (r: Definitions)
    ensures r.Keys == defs.Keys
  {
    map k | k in defs :: Lower(defs[k], t)
  }

  function RestoreAll(defs: Definitions, t: Target): (r: Definitions)
    ensures r.Keys == defs.Keys
  {
    map k | k in defs :: Restore(defs[k], t)
  }

  /******* Mutual exclusion of union branches *******/

  function Consts(s: Schema): (r: map<string, Json>)
  {
    if s.Node? then ConstMap(s) else map[]
  }

  function BranchProperties(s: Schema): (r: set<string>)
  {
    if s.Node? then s.Props().Keys else {}
  }

  predicate SharedConstDiffers(a: Schema, b: Schema)
  {
    exists k :: k in Consts(a) && k in Consts(b) && !PyEq(Consts(b)[k], Consts(a)[k])
  }

  predicate ForbidsAConst(a: Schema, b: Schema)
  {
    exists k :: k in Consts(a) && k !in BranchProperties(b)
  }

  predicate Exclusive(a: Schema, b: Schema)
  {
    SharedConstDiffers(a, b) || ForbidsAConst(a, b) || ForbidsAConst(b, a)
  }

  predicate MutuallyExclusive(branches: seq<Schema>)
  {
    && (forall i :: 0 <= i < |branches| ==> Consts(branches[i]) != map[])
    && (forall i, j :: 0 <= i < j < |branches| ==> Consts(branches[i]) != Consts(branches[j]))
    && (forall i, j :: 0 <= i < j < |branches| ==> Exclusive(branches[i], branches[j]))
  }

  function LowerSeq(branches: seq<Schema>, t: Target): (r: seq<Schema>)
  {
    seq(|branches|, i requires 0 <= i < |branches| => Lower(branches[i], t))
  }

  // `node` raises no configuration error anywhere in `s`.
  predicate Compiles(s: Schema, names: set<string>, t: Target)
  {
    match s
    case Ref(name) => name in names
    case Union(exclusive, branches) =>
      && 2 <= |branches|
      && (forall i :: 0 <= i < |branches| ==> Compiles(branches[i], names, t))
      && (exclusive ==> MutuallyExclusive(LowerSeq(branches, t)))
    case Node(_, _, choices, _, items, properties, _, additional) =>
      && (choices.Some? ==>
            choices.value != [] && forall i :: 0 <= i < |choices.value| ==> choices.value[i].Scalar())
      && (items.Items? ==> Compiles(items.each, names, t))
      && (s.IsObject() ==>
            && s.Required() <= s.Props().Keys
            && !additional.Open?
            && (forall k :: k in s.Props() ==> Compiles(s.Props()[k], names, t)))
  }
}
