// The linker: every tool's argument schema is embedded in one action schema, its local
// definitions renamed after the tool and merged into one table.
module SchemaLinking {
  import opened JsonValues
  import opened ActionSchemas
  import opened SchemaTermination
  import opened LinkedValues

  datatype ToolSpec = ToolSpec(name: string, arguments: Schema, definitions: Definitions)

  // `tool__definition`.
  function LinkedName(tool: string, name: string): (r: string)
  {
    tool + "__" + name
  }

  // A definition name as it is written inside a reference.
  function PointerToken(name: string): (r: string)
  {
    if name == "" then ""
    else Escaped(name[0]) + PointerToken(name[1..])
  }

  predicate PlainName(name: string)
  {
    forall i :: 0 <= i < |name| ==> name[i] != '~' && name[i] != '/'
  }

  lemma {:induction false} PlainTokens(name: string)
    requires PlainName(name)
    ensures PointerToken(name) == name
  {
    if name != "" { PlainTokens(name[1..]); }
  }

  lemma LinkedNamesInjective(tool: string, a: string, b: string)
    requires LinkedName(tool, a) == LinkedName(tool, b)
    ensures a == b
  {
    assert LinkedName(tool, a)[|tool| + 2..] == a;
    assert LinkedName(tool, b)[|tool| + 2..] == b;
  }

  function Escaped(c: char): (r: string)
  {
    if c == '~' then "~0" else if c == '/' then "~1" else [c]
  }

  lemma {:induction false} PointerTokensInjective(a: string, b: string)
    requires PointerToken(a) == PointerToken(b)
    ensures a == b
  {
    if a != "" && b != "" {
      var x, y := PointerToken(a), PointerToken(b);
      assert x == Escaped(a[0]) + PointerToken(a[1..]) && y == Escaped(b[0]) + PointerToken(b[1..]);
      assert x[0] == y[0] && (x[0] == '~' ==> x[1] == y[1]);
      assert a[0] == b[0];
      assert PointerToken(a[1..]) == x[|Escaped(a[0])|..] == y[|Escaped(b[0])|..] == PointerToken(b[1..]);
      PointerTokensInjective(a[1..], b[1..]);
    }
  }

  lemma TokensDistinct(names: set<string>)
    ensures forall n, m :: n in names && m in names && PointerToken(n) == PointerToken(m) ==> n == m
  {
    forall n, m | n in names && m in names && PointerToken(n) == PointerToken(m)
      ensures n == m
    {
      PointerTokensInjective(n, m);
    }
  }

  // The renaming table: a local definition's token against its linked token.
  function References(tool: ToolSpec): (r: map<string, string>)
  {
    TokensDistinct(tool.definitions.Keys);
    map n | n in tool.definitions :: PointerToken(n) := PointerToken(LinkedName(tool.name, n))
  }

  lemma ReferencesRename(tool: ToolSpec)
    ensures Renames(References(tool))
  {
    TokensDistinct(tool.definitions.Keys);
    forall n | n in tool.definitions
      ensures References(tool)[PointerToken(n)] != PointerToken(n)
    {
      assert References(tool)[PointerToken(n)] == PointerToken(LinkedName(tool.name, n));
      if PointerToken(LinkedName(tool.name, n)) == PointerToken(n) {
        PointerTokensInjective(LinkedName(tool.name, n), n);
      }
    }
  }

  // A reference token that names a local definition is replaced, inside values too; any
  // other stays.
  function Rewrite(s: Schema, references: map<string, string>): (r: Schema)
  {
    match s
    case Ref(name) => Ref(if name in references then references[name] else name)
    case Union(exclusive, branches) =>
      Union(exclusive, seq(|branches|, i requires 0 <= i < |branches| => Rewrite(branches[i], references)))
    case Node(typ, constant, choices, facets, items, properties, required, additional) =>
      Node(typ, RewriteConstant(constant, references), RewriteChoices(choices, references),
           RewriteFacets(facets, references),
           if items.Items? then Items(Rewrite(items.each, references)) else NoItems,
           if properties.Properties?
           then Properties(map k | k in properties.of :: Rewrite(properties.of[k], references))
           else NoProperties,
           required, additional)
  }

  // No constant or choice of the schema holds a string member `$ref` that names a local
  // definition.
  predicate LinkFree(s: Schema, references: map<string, string>)
  {
    match s
    case Ref(_) => true
    case Union(_, branches) => forall i :: 0 <= i < |branches| ==> LinkFree(branches[i], references)
    case Node(_, constant, choices, _, items, properties, _, _) =>
      && UnlinkedValues(constant, choices, references)
      && (items.Items? ==> LinkFree(items.each, references))
      && (properties.Properties? ==> forall k :: k in properties.of ==> LinkFree(properties.of[k], references))
  }

  // A schema of the tool's as it appears in the action schema.
  function Embedded(s: Schema, tool: ToolSpec): (r: Schema)
  {
    Rewrite(s, References(tool))
  }

  predicate LinkFreeIn(s: Schema, tool: ToolSpec)
  {
    LinkFree(s, References(tool))
  }

  predicate LinkFreeDefinitions(tool: ToolSpec)
  {
    forall n :: n in tool.definitions ==> LinkFreeIn(tool.definitions[n], tool)
  }

  // The merged table holds this tool's definitions under their linked names.
  ghost predicate Holds(merged: Definitions, tool: ToolSpec)
  {
    forall n :: n in tool.definitions ==>
      LinkedName(tool.name, n) in merged && merged[LinkedName(tool.name, n)] == Embedded(tool.definitions[n], tool)
  }

  predicate PlainNames(tool: ToolSpec)
  {
    PlainName(tool.name) && forall n :: n in tool.definitions ==> PlainName(n)
  }

  function Linked(tool: string, names: set<string>): (r: set<string>)
  {
    set n | n in names :: LinkedName(tool, n)
  }

  lemma PlainLinkedName(tool: string, n: string)
    requires PlainName(tool) && PlainName(n)
    ensures PlainName(LinkedName(tool, n))
  {}

  lemma LocalReferenceIsLinked(tool: ToolSpec, n: string)
    requires PlainNames(tool) && n in tool.definitions
    ensures Embedded(Ref(n), tool) == Ref(LinkedName(tool.name, n))
  {
    TokensDistinct(tool.definitions.Keys);
    assert References(tool)[PointerToken(n)] == PointerToken(LinkedName(tool.name, n));
    PlainTokens(n);
    PlainLinkedName(tool.name, n);
    PlainTokens(LinkedName(tool.name, n));
  }

  lemma SeenIsLinked(tool: ToolSpec, seen: set<string>, n: string)
    ensures LinkedName(tool.name, n) in Linked(tool.name, seen) <==> n in seen
    ensures Linked(tool.name, seen + {n}) == Linked(tool.name, seen) + {LinkedName(tool.name, n)}
  {
    if LinkedName(tool.name, n) in Linked(tool.name, seen) {
      var m :| m in seen && LinkedName(tool.name, n) == LinkedName(tool.name, m);
      LinkedNamesInjective(tool.name, n, m);
    }
  }

  lemma EmbeddedKeepsLocal(v: Json, s: Schema, tool: ToolSpec)
    requires s.Node? && LinkFreeIn(s, tool)
    ensures Embedded(s, tool).Node? && (LocalHolds(v, Embedded(s, tool)) <==> LocalHolds(v, s))
  {
    UnlinkedValuesStay(s.constant, s.choices, References(tool));
    RewrittenFacetsHold(v, s.facets, References(tool));
    assert Embedded(s, tool).Props().Keys == s.Props().Keys;
  }

  // Linking preserves meaning: a value is accepted by the tool's own schema with its own
  // definitions exactly when the embedded schema accepts it with the merged table, as long
  // as no constant or choice of either holds a link of its own.
  lemma {:induction false} LinkingKeepsMeaning(v: Json, s: Schema, tool: ToolSpec, merged: Definitions,
                                               seen: set<string>)
    requires PlainNames(tool) && Holds(merged, tool) && LinkFreeDefinitions(tool)
    requires Acyclic(s, tool.definitions, seen) && LinkFreeIn(s, tool)
    ensures Accepts(v, s, tool.definitions, seen)
       <==> Accepts(v, Embedded(s, tool), merged, Linked(tool.name, seen))
    decreases tool.definitions.Keys - seen, s
  {
    match s
    case Ref(name) =>
      LocalReferenceIsLinked(tool, name);
      SeenIsLinked(tool, seen, name);
      LinkingKeepsMeaning(v, tool.definitions[name], tool, merged, seen + {name});
    case Union(_, _) => LinkingKeepsUnion(v, s, tool, merged, seen);
    case Node(_, _, _, _, _, _, _, _) => LinkingKeepsNode(v, s, tool, merged, seen);
  }

  lemma {:induction false} LinkingKeepsUnion(v: Json, s: Schema, tool: ToolSpec, merged: Definitions, seen: set<string>)
    requires s.Union? && PlainNames(tool) && Holds(merged, tool) && LinkFreeDefinitions(tool)
    requires Acyclic(s, tool.definitions, seen) && LinkFreeIn(s, tool)
    ensures Accepts(v, s, tool.definitions, seen)
       <==> Accepts(v, Embedded(s, tool), merged, Linked(tool.name, seen))
    decreases tool.definitions.Keys - seen, s, 0
  {
    var r := Embedded(s, tool);
    forall i | 0 <= i < |s.branches|
      ensures Accepts(v, s.branches[i], tool.definitions, seen)
         <==> Accepts(v, r.branches[i], merged, Linked(tool.name, seen))
    {
      assert r.branches[i] == Embedded(s.branches[i], tool);
      LinkingKeepsMeaning(v, s.branches[i], tool, merged, seen);
    }
  }

  lemma {:induction false} LinkingKeepsNode(v: Json, s: Schema, tool: ToolSpec, merged: Definitions, seen: set<string>)
    requires s.Node? && PlainNames(tool) && Holds(merged, tool) && LinkFreeDefinitions(tool)
    requires Acyclic(s, tool.definitions, seen) && LinkFreeIn(s, tool)
    ensures Accepts(v, s, tool.definitions, seen)
       <==> Accepts(v, Embedded(s, tool), merged, Linked(tool.name, seen))
    decreases tool.definitions.Keys - seen, s, 0
  {
    var r := Embedded(s, tool);
    EmbeddedKeepsLocal(v, s, tool);
    if v.JObj? && s.properties.Properties? {
      forall k | k in v.members && k in s.properties.of
        ensures Accepts(v.members[k], s.properties.of[k], tool.definitions, seen)
           <==> Accepts(v.members[k], r.properties.of[k], merged, Linked(tool.name, seen))
      {
        LinkingKeepsMeaning(v.members[k], s.properties.of[k], tool, merged, seen);
      }
    } else if v.JArr? && s.items.Items? {
      forall i | 0 <= i < |v.items|
        ensures Accepts(v.items[i], s.items.each, tool.definitions, seen)
           <==> Accepts(v.items[i], r.items.each, merged, Linked(tool.name, seen))
      {
        LinkingKeepsMeaning(v.items[i], s.items.each, tool, merged, seen);
      }
    }
  }

  /******* The merged table *******/

  function Contribution(tool: ToolSpec): (r: Definitions)
    ensures r.Keys == Linked(tool.name, tool.definitions.Keys)
    ensures forall n :: n in tool.definitions ==> r[LinkedName(tool.name, n)] == Embedded(tool.definitions[n], tool)
  {
    assert forall n :: LinkedName(tool.name, n)[|tool.name| + 2..] == n;
    map key | key in Linked(tool.name, tool.definitions.Keys) ::
      Embedded(tool.definitions[key[|tool.name| + 2..]], tool)
  }

  // Later tools overwrite what earlier ones put under the same name.
  function Merge(tools: seq<ToolSpec>): (r: Definitions)
  {
    if tools == [] then map[]
    else Merge(tools[..|tools| - 1]) + Contribution(tools[|tools| - 1])
  }

  // Two tools may share a linked name only for one and the same definition.
  ghost predicate Compatible(tools: seq<ToolSpec>)
  {
    forall i, j, n, m ::
      && 0 <= i < j < |tools| && n in tools[i].definitions && m in tools[j].definitions
      && LinkedName(tools[i].name, n) == LinkedName(tools[j].name, m)
      ==> Embedded(tools[i].definitions[n], tools[i]) == Embedded(tools[j].definitions[m], tools[j])
  }

  lemma {:induction false} CompatibleMergeHolds(tools: seq<ToolSpec>, i: int)
    requires Compatible(tools) && 0 <= i < |tools|
    ensures Holds(Merge(tools), tools[i])
  {
    var last := |tools| - 1;
    if i < last {
      CompatibleMergeHolds(tools[..last], i);
      forall n | n in tools[i].definitions
        ensures Merge(tools)[LinkedName(tools[i].name, n)] == Embedded(tools[i].definitions[n], tools[i])
      {
        var key := LinkedName(tools[i].name, n);
        if key in Contribution(tools[last]) {
          var m :| m in tools[last].definitions && LinkedName(tools[last].name, m) == key;
          assert Contribution(tools[last])[key] == Embedded(tools[last].definitions[m], tools[last]);
        }
      }
    }
  }

  // The merged table keeps every tool's definitions exactly when no two tools put different
  // definitions under one linked name.
  lemma MergeExact(tools: seq<ToolSpec>)
    ensures (forall i :: 0 <= i < |tools| ==> Holds(Merge(tools), tools[i])) <==> Compatible(tools)
  {
    if Compatible(tools) {
      forall i | 0 <= i < |tools| { CompatibleMergeHolds(tools, i); }
    }
  }

  function OfType(typ: JsonType): (r: Schema)
  {
    Node(OneType(typ), None, None, [], NoItems, NoProperties, None, Unstated)
  }

  // A tool whose arguments are its one definition.
  function OneDefinition(tool: string, name: string, definition: Schema): (r: ToolSpec)
  {
    ToolSpec(tool, Ref(name), map[name := definition])
  }

  lemma LaterDefinitionWins(a: ToolSpec, b: ToolSpec, n: string, m: string)
    requires n in a.definitions && m in b.definitions && LinkedName(a.name, n) == LinkedName(b.name, m)
    ensures LinkedName(a.name, n) in Merge([a, b])
    ensures Merge([a, b])[LinkedName(a.name, n)] == Embedded(b.definitions[m], b)
  {
    var tools := [a, b];
    assert tools[..1] == [a];
    assert Merge(tools) == Merge([a]) + Contribution(b);
    assert LinkedName(b.name, m) in Contribution(b);
  }

  lemma ReferenceMeans(v: Json, key: string, defs: Definitions, definition: Schema)
    requires key in defs && defs[key] == definition
    ensures Accepts(v, Ref(key), defs, {}) <==> Accepts(v, definition, defs, {key})
  {
    assert {} + {key} == {key};
  }

  // Whenever two tools' definitions link alike, the first tool's arguments are judged by
  // the second tool's definition.
  lemma CollidingToolIsMisjudged(v: Json, a: ToolSpec, b: ToolSpec, n: string, m: string)
    requires PlainNames(a) && a.arguments == Ref(n) && n in a.definitions && m in b.definitions
    requires LinkedName(a.name, n) == LinkedName(b.name, m)
    ensures Accepts(v, Embedded(a.arguments, a), Merge([a, b]), {})
       <==> Accepts(v, Embedded(b.definitions[m], b), Merge([a, b]), {LinkedName(a.name, n)})
  {
    LaterDefinitionWins(a, b, n, m);
    LocalReferenceIsLinked(a, n);
    ReferenceMeans(v, LinkedName(a.name, n), Merge([a, b]), Embedded(b.definitions[m], b));
  }

  lemma TypeIsKept(typ: JsonType, tool: ToolSpec)
    ensures Embedded(OfType(typ), tool) == OfType(typ)
  {
    assert RewriteFacets([], References(tool)) == [];
  }

  lemma TextIsTyped(text: string, defs: Definitions, seen: set<string>)
    ensures Accepts(JStr(text), OfType(TString), defs, seen)
  {}

  lemma OwnTextIsAccepted(text: string, a: ToolSpec, n: string)
    requires a.arguments == Ref(n) && n in a.definitions && a.definitions[n] == OfType(TString)
    ensures Accepts(JStr(text), a.arguments, a.definitions, {})
  {
    ReferenceMeans(JStr(text), n, a.definitions, OfType(TString));
    TextIsTyped(text, a.definitions, {n});
  }

  lemma IntegersRefuseText(text: string, s: Schema, defs: Definitions, key: string)
    requires Accepts(JStr(text), s, defs, {}) <==> Accepts(JStr(text), OfType(TInteger), defs, {key})
    ensures !Accepts(JStr(text), s, defs, {})
  {
    assert !LocalHolds(JStr(text), OfType(TInteger));
  }

  lemma CollidingTextIsRefused(text: string, a: ToolSpec, b: ToolSpec, n: string, m: string)
    requires PlainNames(a) && a.arguments == Ref(n) && n in a.definitions && m in b.definitions
    requires LinkedName(a.name, n) == LinkedName(b.name, m) && b.definitions[m] == OfType(TInteger)
    ensures !Accepts(JStr(text), Embedded(a.arguments, a), Merge([a, b]), {})
  {
    CollidingToolIsMisjudged(JStr(text), a, b, n, m);
    TypeIsKept(TInteger, b);
    IntegersRefuseText(text, Embedded(a.arguments, a), Merge([a, b]), LinkedName(a.name, n));
  }

  // Distinct tool names are not enough: `a` with `b__c` and `a__b` with `c` link alike, and
  // a text that `a` accepts is refused by its linked schema.
  lemma DistinctToolsCanCollide(text: string)
    ensures "a" != "a__b" && LinkedName("a", "b__c") == LinkedName("a__b", "c")
    ensures var a, b := OneDefinition("a", "b__c", OfType(TString)), OneDefinition("a__b", "c", OfType(TInteger));
      && Accepts(JStr(text), a.arguments, a.definitions, {})
      && !Accepts(JStr(text), Embedded(a.arguments, a), Merge([a, b]), {})
  {
    var a, b := OneDefinition("a", "b__c", OfType(TString)), OneDefinition("a__b", "c", OfType(TInteger));
    assert LinkedName("a", "b__c") == "a__b__c" == LinkedName("a__b", "c");
    OwnTextIsAccepted(text, a, "b__c");
    CollidingTextIsRefused(text, a, b, "b__c", "c");
  }

  predicate HasDoubleUnderscore(name: string)
  {
    exists i :: 0 <= i < |name| - 1 && name[i] == '_' && name[i + 1] == '_'
  }

  // Names for which the separator is the first double underscore of a linked name.
  predicate SeparatorSafe(name: string)
  {
    !HasDoubleUnderscore(name) && (name != "" ==> name[|name| - 1] != '_')
  }

  lemma SafeNamesDoNotCollide(a: string, b: string, n: string, m: string)
    requires SeparatorSafe(a) && SeparatorSafe(b)
    requires LinkedName(a, n) == LinkedName(b, m)
    ensures a == b && n == m
  {
    var x, y := LinkedName(a, n), LinkedName(b, m);
    assert x[|a|] == '_' && x[|a| + 1] == '_' && y[|b|] == '_' && y[|b| + 1] == '_';
    if |a| < |b| {
      SeparatorInside(a, b, n, m);
    } else if |b| < |a| {
      SeparatorInside(b, a, m, n);
    }
    assert a == x[..|a|] == y[..|b|] == b;
    LinkedNamesInjective(a, n, m);
  }

  lemma SeparatorInside(a: string, b: string, n: string, m: string)
    requires LinkedName(a, n) == LinkedName(b, m) && |a| < |b|
    ensures !SeparatorSafe(b)
  {
    var x, y := LinkedName(a, n), LinkedName(b, m);
    assert b[|a|] == y[|a|] == x[|a|] == '_';
    if |a| + 1 < |b| {
      assert b[|a| + 1] == y[|a| + 1] == x[|a| + 1] == '_';
    }
  }

  predicate DistinctNames(tools: seq<ToolSpec>)
  {
    forall i, j :: 0 <= i < j < |tools| ==> tools[i].name != tools[j].name
  }

  lemma SafeToolsAreCompatible(tools: seq<ToolSpec>)
    requires DistinctNames(tools) && forall i :: 0 <= i < |tools| ==> SeparatorSafe(tools[i].name)
    ensures Compatible(tools)
  {
    forall i, j, n, m | 0 <= i < j < |tools|
      ensures LinkedName(tools[i].name, n) != LinkedName(tools[j].name, m)
    {
      if LinkedName(tools[i].name, n) == LinkedName(tools[j].name, m) {
        SafeNamesDoNotCollide(tools[i].name, tools[j].name, n, m);
      }
    }
  }
}
