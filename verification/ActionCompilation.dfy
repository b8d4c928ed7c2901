// The generated action schema compiles: linking breaks nothing that the tools' own schemas
// keep, and the rest of the schema is always in order.
module ActionCompilation {
  import opened JsonValues
  import opened ActionSchemas
  import opened SchemaCompiler
  import opened SchemaExclusion
  import opened SchemaPruning
  import opened LinkedValues
  import opened SchemaLinking
  import opened SchemaTermination
  import opened SchemaRoundTrip
  import opened SchemaRoot
  import opened ActionSchemaBuilder

  // The envelope and the tool branch stand above a tool's arguments.
  const ARGUMENTS_DEPTH := MAX_NESTING_DEPTH - 2

  // The names a tool may be declared under: lower case, digits and underscores.
  predicate ToolName(name: string)
  {
    && name != "" && 'a' <= name[0] <= 'z'
    && forall i :: 0 <= i < |name| ==> 'a' <= name[i] <= 'z' || '0' <= name[i] <= '9' || name[i] == '_'
  }

  predicate NameChars(name: string)
  {
    forall i :: 0 <= i < |name| ==> NameChar(name[i])
  }

  predicate LinkableNames(tool: ToolSpec)
  {
    ToolName(tool.name) && forall n :: n in tool.definitions ==> NameChars(n)
  }

  // The compiler takes a linked name exactly when the local one has no other characters
  // than a definition's name may have; it may begin with a digit.
  lemma LinkedNameIsValid(tool: string, n: string)
    requires ToolName(tool)
    ensures DefinitionName(LinkedName(tool, n)) <==> NameChars(n)
  {
    var name := LinkedName(tool, n);
    assert forall i :: 0 <= i < |n| ==> n[i] == name[|tool| + 2 + i];
    assert forall i :: 0 <= i < |tool| ==> name[i] == tool[i];
    if NameChars(n) {
      forall i | 0 <= i < |name|
        ensures NameChar(name[i])
      {
        if |tool| + 2 <= i { assert name[i] == n[i - |tool| - 2]; }
      }
    }
  }

  lemma LinkableNamesArePlain(tool: ToolSpec)
    requires LinkableNames(tool)
    ensures PlainNames(tool)
  {
    forall n | n in tool.definitions
      ensures PlainName(n)
    {
      assert forall i :: 0 <= i < |n| ==> NameChar(n[i]);
    }
  }

  // A tool whose own schema compiles for the target, with discriminators that linking leaves
  // alone.
  ghost predicate ToolCompiles(tool: ToolSpec, t: Target)
  {
    && LinkableNames(tool)
    && PartCompiles(tool.arguments, tool, t)
    && (forall n :: n in tool.definitions ==> PartCompiles(tool.definitions[n], tool, t))
    && DepthWithin(Lower(tool.arguments, t), LowerAll(tool.definitions, t), {}, ARGUMENTS_DEPTH)
  }

  ghost predicate PartCompiles(s: Schema, tool: ToolSpec, t: Target)
  {
    Compiles(s, tool.definitions.Keys, t) && Regular(s, t) && DiscriminatorsLinkFree(s, References(tool))
  }

  /******* Discriminators that hold no link *******/

  predicate ConstsLinkFree(s: Schema, references: map<string, string>)
  {
    forall k :: k in Consts(s) ==> Unlinked(Consts(s)[k], references)
  }

  // Compiling compares the constants of `oneOf` branches and nothing else.
  predicate DiscriminatorsLinkFree(s: Schema, references: map<string, string>)
  {
    match s
    case Ref(_) => true
    case Union(exclusive, branches) =>
      forall i :: 0 <= i < |branches| ==>
        DiscriminatorsLinkFree(branches[i], references) && (exclusive ==> ConstsLinkFree(branches[i], references))
    case Node(_, _, _, _, items, properties, _, _) =>
      && (items.Items? ==> DiscriminatorsLinkFree(items.each, references))
      && (properties.Properties? ==>
            forall k :: k in properties.of ==> DiscriminatorsLinkFree(properties.of[k], references))
  }

  lemma LinkFreeConsts(s: Schema, references: map<string, string>)
    requires LinkFree(s, references)
    ensures ConstsLinkFree(s, references)
  {
    forall k | k in Consts(s)
      ensures Unlinked(Consts(s)[k], references)
    {
      assert LinkFree(s.Props()[k], references);
    }
  }

  lemma {:induction false} LinkFreeDiscriminators(s: Schema, references: map<string, string>)
    requires LinkFree(s, references)
    ensures DiscriminatorsLinkFree(s, references)
  {
    match s
    case Ref(_) =>
    case Union(_, branches) =>
      forall i | 0 <= i < |branches|
        ensures DiscriminatorsLinkFree(branches[i], references) && ConstsLinkFree(branches[i], references)
      {
        LinkFreeDiscriminators(branches[i], references);
        LinkFreeConsts(branches[i], references);
      }
    case Node(_, _, _, _, items, properties, _, _) =>
      if items.Items? { LinkFreeDiscriminators(items.each, references); }
      if properties.Properties? {
        forall k | k in properties.of { LinkFreeDiscriminators(properties.of[k], references); }
      }
  }

  // Selection reads the same of a linked branch, its constants apart.
  lemma EmbeddedReads(s: Schema, tool: ToolSpec)
    ensures Embedded(s, tool).Node? <==> s.Node?
    ensures s.Node? ==> Embedded(s, tool).typ == s.typ
    ensures BranchProperties(Embedded(s, tool)) == BranchProperties(s)
    ensures ContainerFree(Embedded(s, tool)) <==> ContainerFree(s)
    ensures ContainerNode(Embedded(s, tool)) <==> ContainerNode(s)
  {}

  lemma EmbeddedConstMap(s: Schema, tool: ToolSpec)
    requires s.Node?
    ensures Embedded(s, tool).Node? && ConstMap(Embedded(s, tool)).Keys == ConstMap(s).Keys
    ensures forall k :: k in ConstMap(s) ==>
      ConstMap(Embedded(s, tool))[k] == RewriteValue(ConstMap(s)[k], References(tool))
  {
    var e := Embedded(s, tool);
    forall k | k in s.Props()
      ensures e.Props()[k].Node? == s.Props()[k].Node?
      ensures s.Props()[k].Node? ==> e.Props()[k].constant == RewriteConstant(s.Props()[k].constant, References(tool))
    {
      assert e.Props()[k] == Embedded(s.Props()[k], tool);
    }
  }

  // And its constants too when they hold no link.
  lemma EmbeddedConsts(s: Schema, tool: ToolSpec)
    requires ConstsLinkFree(s, References(tool))
    ensures Consts(Embedded(s, tool)) == Consts(s)
  {
    EmbeddedReads(s, tool);
    if s.Node? {
      EmbeddedConstMap(s, tool);
      forall k | k in ConstMap(s)
        ensures ConstMap(Embedded(s, tool))[k] == ConstMap(s)[k]
      {
        assert k in Consts(s);
        UnlinkedStays(ConstMap(s)[k], References(tool));
      }
      assert ConstMap(Embedded(s, tool)) == ConstMap(s);
    }
  }

  /******* Renaming commutes with compiling *******/

  lemma NullableCommutes(s: Schema, references: map<string, string>)
    ensures Nullable(Rewrite(s, references)) == Rewrite(Nullable(s), references)
  {
    var r := Rewrite(s, references);
    assert Rewrite(NULL_NODE, references) == NULL_NODE;
    if s.Union? {
      forall i | 0 <= i < |s.branches|
        ensures SaysNull(r.branches[i]) == SaysNull(s.branches[i])
      {
        assert r.branches[i] == Rewrite(s.branches[i], references);
      }
      assert Rewrite(Union(false, s.branches + [NULL_NODE]), references).branches == r.branches + [NULL_NODE];
    } else {
      assert Rewrite(Union(false, [s, NULL_NODE]), references).branches == [r, NULL_NODE];
    }
  }

  // No target keeps a preset, so dropping keywords leaves nothing to rename in them.
  lemma {:induction false} KeptCommutes(facets: seq<Facet>, references: map<string, string>, t: Target)
    ensures Kept(RewriteFacets(facets, references), t) == RewriteFacets(Kept(facets, t), references)
  {
    var r := RewriteFacets(facets, references);
    if facets != [] {
      assert r[1..] == RewriteFacets(facets[1..], references);
      KeptCommutes(facets[1..], references, t);
      if !Drops(t, facets[0]) {
        assert RewriteFacets([facets[0]] + Kept(facets[1..], t), references)
            == [facets[0]] + RewriteFacets(Kept(facets[1..], t), references);
      }
    }
  }

  lemma {:induction false} LowerCommutes(s: Schema, references: map<string, string>, t: Target)
    ensures Lower(Rewrite(s, references), t) == Rewrite(Lower(s, t), references)
    decreases s
  {
    match s
    case Ref(_) =>
    case Union(_, branches) =>
      forall i | 0 <= i < |branches|
        ensures Lower(Rewrite(branches[i], references), t) == Rewrite(Lower(branches[i], t), references)
      {
        LowerCommutes(branches[i], references, t);
      }
      assert Lower(Rewrite(s, references), t).branches == Rewrite(Lower(s, t), references).branches;
    case Node(_, _, _, facets, items, properties, _, _) =>
      KeptCommutes(facets, references, t);
      if items.Items? { LowerCommutes(items.each, references, t); }
      if s.IsObject() {
        LowerCommutesBelow(s, references, t);
        assert Rewrite(s, references).Props().Keys == s.Props().Keys;
      }
  }

  lemma {:induction false} LowerCommutesBelow(s: Schema, references: map<string, string>, t: Target)
    requires s.IsObject()
    ensures Lower(Rewrite(s, references), t).properties == Rewrite(Lower(s, t), references).properties
    decreases s, 0
  {
    var a, b := Lower(Rewrite(s, references), t).properties.of, Rewrite(Lower(s, t), references).properties.of;
    forall k | k in s.Props()
      ensures a[k] == b[k]
    {
      LowerCommutes(s.Props()[k], references, t);
      NullableCommutes(Lower(s.Props()[k], t), references);
    }
    assert a.Keys == b.Keys == s.Props().Keys;
    assert a == b;
  }

  // A tool with its schemas as a target compiles them.
  function LoweredTool(tool: ToolSpec, t: Target): (r: ToolSpec)
  {
    ToolSpec(tool.name, Lower(tool.arguments, t), LowerAll(tool.definitions, t))
  }

  lemma LoweredReferences(tool: ToolSpec, t: Target)
    ensures References(LoweredTool(tool, t)) == References(tool)
  {
    TokensDistinct(tool.definitions.Keys);
    assert LoweredTool(tool, t).definitions.Keys == tool.definitions.Keys;
  }

  lemma LoweredEmbeds(s: Schema, tool: ToolSpec, t: Target)
    ensures Lower(Embedded(s, tool), t) == Embedded(Lower(s, t), LoweredTool(tool, t))
  {
    LoweredReferences(tool, t);
    LowerCommutes(s, References(tool), t);
  }

  lemma LoweredHolds(tool: ToolSpec, merged: Definitions, t: Target)
    requires Holds(merged, tool)
    ensures Holds(LowerAll(merged, t), LoweredTool(tool, t))
  {
    forall n | n in tool.definitions
      ensures LowerAll(merged, t)[LinkedName(tool.name, n)]
        == Embedded(Lower(tool.definitions[n], t), LoweredTool(tool, t))
    {
      LoweredEmbeds(tool.definitions[n], tool, t);
    }
  }

  /******* Linking keeps what the compiler asks for *******/

  lemma EmbeddedExclusive(a: Schema, b: Schema, tool: ToolSpec)
    requires Exclusive(a, b) && ConstsLinkFree(a, References(tool)) && ConstsLinkFree(b, References(tool))
    ensures Exclusive(Embedded(a, tool), Embedded(b, tool))
  {
    EmbeddedReads(a, tool);
    EmbeddedReads(b, tool);
    EmbeddedConsts(a, tool);
    EmbeddedConsts(b, tool);
  }

  lemma EmbeddedMutuallyExclusive(branches: seq<Schema>, embedded: seq<Schema>, tool: ToolSpec)
    requires MutuallyExclusive(branches) && |embedded| == |branches|
    requires forall i :: 0 <= i < |branches| ==>
      embedded[i] == Embedded(branches[i], tool) && ConstsLinkFree(branches[i], References(tool))
    ensures MutuallyExclusive(embedded)
  {
    forall i | 0 <= i < |branches|
      ensures Consts(embedded[i]) == Consts(branches[i])
    {
      EmbeddedConsts(branches[i], tool);
    }
    forall i, j | 0 <= i < j < |branches|
      ensures Exclusive(embedded[i], embedded[j])
    {
      EmbeddedExclusive(branches[i], branches[j], tool);
    }
  }

  lemma LoweredConstsLinkFree(s: Schema, t: Target, references: map<string, string>)
    requires ConstsLinkFree(s, references) && Consts(Lower(s, t)) != map[]
    ensures ConstsLinkFree(Lower(s, t), references)
  {
    DiscriminatedIsObject(s, t);
    LowerKeepsConsts(s, t);
  }

  lemma {:induction false} EmbeddedCompiles(s: Schema, tool: ToolSpec, names: set<string>, t: Target)
    requires PlainNames(tool) && Compiles(s, tool.definitions.Keys, t)
    requires DiscriminatorsLinkFree(s, References(tool))
    requires Linked(tool.name, tool.definitions.Keys) <= names
    ensures Compiles(Embedded(s, tool), names, t)
    decreases s
  {
    match s
    case Ref(name) => LocalReferenceIsLinked(tool, name);
    case Union(exclusive, branches) =>
      forall i | 0 <= i < |branches|
        ensures Compiles(Embedded(branches[i], tool), names, t)
      {
        EmbeddedCompiles(branches[i], tool, names, t);
      }
      if exclusive { EmbeddedOneOfCompiles(branches, Embedded(s, tool).branches, tool, t); }
    case Node(_, _, _, _, items, properties, _, _) =>
      if items.Items? { EmbeddedCompiles(items.each, tool, names, t); }
      if properties.Properties? { EmbeddedPropertiesCompile(s, tool, names, t); }
      EmbeddedNodeCompiles(s, tool, names, t);
  }

  lemma EmbeddedNodeCompiles(s: Schema, tool: ToolSpec, names: set<string>, t: Target)
    requires s.Node? && Compiles(s, tool.definitions.Keys, t)
    requires s.items.Items? ==> Compiles(Embedded(s.items.each, tool), names, t)
    requires s.properties.Properties? ==>
      forall k :: k in s.properties.of ==> Compiles(Embedded(s.properties.of[k], tool), names, t)
    ensures Compiles(Embedded(s, tool), names, t)
  {
    assert Embedded(s, tool).Props().Keys == s.Props().Keys;
  }

  lemma {:induction false} EmbeddedPropertiesCompile(s: Schema, tool: ToolSpec, names: set<string>, t: Target)
    requires s.Node? && s.properties.Properties? && PlainNames(tool) && Compiles(s, tool.definitions.Keys, t)
    requires DiscriminatorsLinkFree(s, References(tool))
    requires Linked(tool.name, tool.definitions.Keys) <= names
    ensures forall k :: k in s.properties.of ==> Compiles(Embedded(s.properties.of[k], tool), names, t)
    decreases s, 0
  {
    forall k | k in s.properties.of
      ensures Compiles(Embedded(s.properties.of[k], tool), names, t)
    {
      EmbeddedCompiles(s.properties.of[k], tool, names, t);
    }
  }

  lemma EmbeddedOneOfCompiles(branches: seq<Schema>, embedded: seq<Schema>, tool: ToolSpec, t: Target)
    requires MutuallyExclusive(LowerSeq(branches, t)) && |embedded| == |branches|
    requires forall i :: 0 <= i < |branches| ==>
      embedded[i] == Embedded(branches[i], tool) && ConstsLinkFree(branches[i], References(tool))
    ensures MutuallyExclusive(LowerSeq(embedded, t))
  {
    LoweredReferences(tool, t);
    var lowered := LowerSeq(branches, t);
    forall i | 0 <= i < |branches|
      ensures LowerSeq(embedded, t)[i] == Embedded(lowered[i], LoweredTool(tool, t))
      ensures ConstsLinkFree(lowered[i], References(tool))
    {
      LoweredEmbeds(branches[i], tool, t);
      assert Consts(lowered[i]) != map[];
      LoweredConstsLinkFree(branches[i], t, References(tool));
    }
    EmbeddedMutuallyExclusive(lowered, LowerSeq(embedded, t), LoweredTool(tool, t));
  }

  // Renaming a link adds no member and completes none, so stripping sees the same.
  lemma {:induction false} RewritingStaysUndisturbed(v: Json, references: map<string, string>, dropped: set<string>)
    requires Undisturbed(v, dropped)
    ensures Undisturbed(RewriteValue(v, references), dropped)
  {
    match v
    case JArr(items) =>
      forall i | 0 <= i < |items| { RewritingStaysUndisturbed(items[i], references, dropped); }
    case JObj(members) =>
      RewrittenLooksAlike(members, references);
      forall k | k in members && k != "title"
        ensures Undisturbed(RewriteValue(v, references).members[k], dropped)
      {
        RewritingStaysUndisturbed(members[k], references, dropped);
      }
    case _ =>
  }

  lemma RewrittenLooksAlike(members: map<string, Json>, references: map<string, string>)
    ensures var r := RewriteValue(JObj(members), references).members;
      && r.Keys == members.Keys
      && (LooksLikeObject(r) <==> LooksLikeObject(members)) && (IsComplete(members) ==> IsComplete(r))
  {
    assert TYPE != REF_KEY && ADDITIONAL != REF_KEY;
  }

  lemma RewrittenValuesUndisturbed(constant: Option<Json>, choices: Option<seq<Json>>, t: Target,
                                   references: map<string, string>)
    requires ValuesUndisturbed(constant, choices, t)
    ensures ValuesUndisturbed(RewriteConstant(constant, references), RewriteChoices(choices, references), t)
  {
    if constant.Some? { RewritingStaysUndisturbed(constant.value, references, DroppedNames(t)); }
    if choices.Some? {
      forall i | 0 <= i < |choices.value| {
        RewritingStaysUndisturbed(choices.value[i], references, DroppedNames(t));
      }
    }
  }

  lemma {:induction false} EmbeddedIsRegular(s: Schema, tool: ToolSpec, t: Target)
    requires Regular(s, t)
    ensures Regular(Embedded(s, tool), t)
    decreases s
  {
    match s
    case Ref(_) =>
    case Union(_, branches) =>
      forall i | 0 <= i < |branches|
        ensures Regular(Embedded(branches[i], tool), t)
      {
        EmbeddedIsRegular(branches[i], tool, t);
      }
    case Node(_, constant, choices, _, items, properties, _, _) =>
      RewrittenValuesUndisturbed(constant, choices, t, References(tool));
      if items.Items? { EmbeddedIsRegular(items.each, tool, t); }
      if properties.Properties? {
        forall k | k in properties.of && k != "title"
          ensures Regular(Embedded(properties.of[k], tool), t)
        {
          EmbeddedIsRegular(properties.of[k], tool, t);
        }
      }
  }

  lemma {:induction false} EmbeddedDepth(s: Schema, tool: ToolSpec, merged: Definitions, seen: set<string>, d: int)
    requires PlainNames(tool) && Holds(merged, tool) && DepthWithin(s, tool.definitions, seen, d)
    ensures DepthWithin(Embedded(s, tool), merged, Linked(tool.name, seen), d)
    decreases tool.definitions.Keys - seen, s
  {
    match s
    case Ref(name) =>
      LocalReferenceIsLinked(tool, name);
      SeenIsLinked(tool, seen, name);
      EmbeddedDepth(tool.definitions[name], tool, merged, seen + {name}, d);
    case Union(_, branches) =>
      forall i | 0 <= i < |branches|
        ensures DepthWithin(Embedded(branches[i], tool), merged, Linked(tool.name, seen), d)
      {
        EmbeddedDepth(branches[i], tool, merged, seen, d);
      }
    case Node(_, _, _, _, items, properties, _, _) =>
      if items.Items? { EmbeddedDepth(items.each, tool, merged, seen, d - 1); }
      if properties.Properties? {
        forall k | k in properties.of
          ensures DepthWithin(Embedded(properties.of[k], tool), merged, Linked(tool.name, seen), d - 1)
        {
          EmbeddedDepth(properties.of[k], tool, merged, seen, d - 1);
        }
      }
  }

  // The arguments of a tool inside the compiled action schema.
  lemma LinkedArgumentsDepth(tool: ToolSpec, merged: Definitions, t: Target)
    requires ToolCompiles(tool, t) && Holds(merged, tool)
    ensures DepthWithin(Lower(Embedded(tool.arguments, tool), t), LowerAll(merged, t), {}, ARGUMENTS_DEPTH)
  {
    LinkableNamesArePlain(tool);
    LoweredEmbeds(tool.arguments, tool, t);
    LoweredHolds(tool, merged, t);
    assert Linked(tool.name, {}) == {};
    EmbeddedDepth(Lower(tool.arguments, t), LoweredTool(tool, t), LowerAll(merged, t), {}, ARGUMENTS_DEPTH);
  }

  /******* The parts of the generated schema *******/

  // A schema that compiles within `d` levels and round-trips.
  ghost predicate Compilable(s: Schema, defs: Definitions, t: Target, d: int)
  {
    Compiles(s, defs.Keys, t) && Regular(s, t) && DepthWithin(Lower(s, t), LowerAll(defs, t), {}, d)
  }

  lemma LeavesCompile(text: string, facets: seq<Facet>, defs: Definitions, t: Target, d: nat)
    ensures Compilable(ConstantNode(text), defs, t, d) && Compilable(TextNode(facets), defs, t, d)
  {}

  lemma ArrayCompiles(each: Schema, defs: Definitions, t: Target, d: nat)
    requires Compilable(each, defs, t, d)
    ensures Compilable(ArrayNode(each), defs, t, d + 1)
  {}

  lemma NullableDepth(s: Schema, defs: Definitions, d: nat)
    requires DepthWithin(s, defs, {}, d)
    ensures DepthWithin(Nullable(s), defs, {}, d)
  {
    assert DepthWithin(NULL_NODE, defs, {}, d);
  }

  lemma ObjectIsRegular(properties: map<string, Schema>, required: set<string>, t: Target)
    requires forall k :: k in properties ==> SafeName(k, t) && Regular(properties[k], t)
    ensures Regular(ObjectNode(properties, required), t)
  {
    assert ObjectNode(properties, required).Props() == properties && ValuesUndisturbed(None, None, t);
  }

  lemma ObjectDepth(properties: map<string, Schema>, required: set<string>, defs: Definitions, t: Target, d: nat)
    requires forall k :: k in properties ==> DepthWithin(Lower(properties[k], t), LowerAll(defs, t), {}, d)
    ensures DepthWithin(Lower(ObjectNode(properties, required), t), LowerAll(defs, t), {}, d + 1)
  {
    var s := ObjectNode(properties, required);
    assert s.Props() == properties;
    LowerKeepsProperties(s, t);
    forall k | k in properties
      ensures DepthWithin(Lower(s, t).Props()[k], LowerAll(defs, t), {}, d)
    {
      NullableDepth(Lower(properties[k], t), LowerAll(defs, t), d);
    }
  }

  lemma ObjectCompiles(properties: map<string, Schema>, required: set<string>, defs: Definitions, t: Target, d: nat)
    requires required <= properties.Keys
    requires forall k :: k in properties ==> SafeName(k, t) && Compilable(properties[k], defs, t, d)
    ensures Compilable(ObjectNode(properties, required), defs, t, d + 1)
  {
    var s := ObjectNode(properties, required);
    assert s.Props() == properties && s.Required() == required;
    ObjectIsRegular(properties, required, t);
    ObjectDepth(properties, required, defs, t, d);
  }

  lemma NamesAreSafe(t: Target)
    ensures SafeName("type", t) && SafeName("tool", t) && SafeName("arguments", t) && SafeName("purpose", t)
    ensures SafeName("status", t) && SafeName("answer", t) && SafeName("evidence", t) && SafeName("uncertainties", t)
    ensures SafeName("observation_id", t) && SafeName("supports", t)
  {}

  lemma EvidenceCompiles(p: string -> bool, defs: Definitions, t: Target, d: nat)
    ensures Compilable(EvidenceNode(p), defs, t, d + 1)
  {
    var e := EvidenceNode(p);
    NamesAreSafe(t);
    LeavesCompile("", [Pattern(p)], defs, t, d);
    LeavesCompile("", [MinLength(1), MaxLength(300)], defs, t, d);
    ObjectCompiles(e.properties.of, e.required.value, defs, t, d);
  }

  lemma StatusCompiles(defs: Definitions, t: Target, d: nat)
    ensures Compilable(Node(OneType(TString), None, Some(STATUSES), [], NoItems, NoProperties, None, Unstated),
                       defs, t, d)
  {}

  lemma EvidenceListCompiles(p: string -> bool, defs: Definitions, t: Target)
    ensures Compilable(ArrayNode(EvidenceNode(p)), defs, t, 2)
  {
    EvidenceCompiles(p, defs, t, 0);
    ArrayCompiles(EvidenceNode(p), defs, t, 1);
  }

  lemma UncertaintiesCompile(defs: Definitions, t: Target)
    ensures Compilable(ArrayNode(TextNode([MinLength(1)])), defs, t, 2)
  {
    LeavesCompile("", [MinLength(1)], defs, t, 1);
    ArrayCompiles(TextNode([MinLength(1)]), defs, t, 1);
  }

  lemma AnswerMemberCompiles(p: string -> bool, defs: Definitions, t: Target, k: string)
    requires k in AnswerBranch(p).properties.of
    ensures SafeName(k, t) && Compilable(AnswerBranch(p).properties.of[k], defs, t, 2)
  {
    NamesAreSafe(t);
    if k == "evidence" {
      EvidenceListCompiles(p, defs, t);
    } else if k == "uncertainties" {
      UncertaintiesCompile(defs, t);
    } else if k == "status" {
      StatusCompiles(defs, t, 2);
    } else {
      LeavesCompile("answer", [MinLength(1), MaxLength(8000)], defs, t, 2);
    }
  }

  lemma AnswerCompiles(p: string -> bool, defs: Definitions, t: Target)
    ensures Compilable(AnswerBranch(p), defs, t, 3)
  {
    var properties, required := AnswerBranch(p).properties.of, AnswerBranch(p).required.value;
    forall k | k in properties
      ensures SafeName(k, t) && Compilable(properties[k], defs, t, 2)
    {
      AnswerMemberCompiles(p, defs, t, k);
    }
    ObjectCompiles(properties, required, defs, t, 2);
  }

  lemma ArgumentsCompile(tool: ToolSpec, merged: Definitions, t: Target)
    requires ToolCompiles(tool, t) && Holds(merged, tool)
    ensures Compilable(Embedded(tool.arguments, tool), merged, t, ARGUMENTS_DEPTH)
  {
    LinkableNamesArePlain(tool);
    EmbeddedCompiles(tool.arguments, tool, merged.Keys, t);
    EmbeddedIsRegular(tool.arguments, tool, t);
    LinkedArgumentsDepth(tool, merged, t);
  }

  lemma ToolNamesAreSafe(tool: ToolSpec, t: Target, k: string)
    requires k in ToolBranch(tool).properties.of
    ensures SafeName(k, t)
  {
    NamesAreSafe(t);
  }

  lemma ToolMemberCompiles(tool: ToolSpec, merged: Definitions, t: Target, k: string)
    requires ToolCompiles(tool, t) && Holds(merged, tool) && k in ToolBranch(tool).properties.of
    ensures Compilable(ToolBranch(tool).properties.of[k], merged, t, ARGUMENTS_DEPTH)
  {
    if k == "arguments" {
      ArgumentsCompile(tool, merged, t);
    } else if k == "tool" {
      LeavesCompile(tool.name, [], merged, t, ARGUMENTS_DEPTH);
    } else {
      LeavesCompile("tool", [MinLength(1), MaxLength(300)], merged, t, ARGUMENTS_DEPTH);
    }
  }

  lemma ToolBranchCompiles(tool: ToolSpec, merged: Definitions, t: Target)
    requires ToolCompiles(tool, t) && Holds(merged, tool)
    ensures Compilable(ToolBranch(tool), merged, t, ARGUMENTS_DEPTH + 1)
  {
    var properties, required := ToolBranch(tool).properties.of, ToolBranch(tool).required.value;
    forall k | k in properties
      ensures SafeName(k, t) && Compilable(properties[k], merged, t, ARGUMENTS_DEPTH)
    {
      ToolNamesAreSafe(tool, t, k);
      ToolMemberCompiles(tool, merged, t, k);
    }
    ObjectCompiles(properties, required, merged, t, ARGUMENTS_DEPTH);
  }

  /******* The merged definitions *******/

  lemma {:induction false} MergedFrom(tools: seq<ToolSpec>, k: string) returns (i: nat, n: string)
    ensures k in Merge(tools) ==> i < |tools| && n in tools[i].definitions && k == LinkedName(tools[i].name, n)
  {
    i, n := 0, "";
    if tools != [] {
      var last := |tools| - 1;
      if k in Contribution(tools[last]) {
        i := last;
        n :| n in tools[last].definitions && k == LinkedName(tools[last].name, n);
      } else {
        i, n := MergedFrom(tools[..last], k);
      }
    }
  }

  predicate HasUnderscore(name: string)
  {
    exists i :: 0 <= i < |name| && name[i] == '_'
  }

  lemma LinkedNamesHaveUnderscores(tool: string, n: string)
    ensures HasUnderscore(LinkedName(tool, n))
  {
    assert LinkedName(tool, n)[|tool|] == '_';
  }

  lemma KeywordsHaveNone(t: Target)
    ensures forall name :: name in DroppedNames(t) ==> !HasUnderscore(name)
    ensures !HasUnderscore("title") && !HasUnderscore("properties")
  {}

  lemma MergedNamesAreSafe(tools: seq<ToolSpec>, t: Target)
    ensures StaysAMapping(Merge(tools).Keys) && Merge(tools).Keys !! DroppedNames(t)
  {
    KeywordsHaveNone(t);
    forall k | k in Merge(tools)
      ensures HasUnderscore(k)
    {
      var i, n := MergedFrom(tools, k);
      LinkedNamesHaveUnderscores(tools[i].name, n);
    }
  }

  lemma MergedCompile(tools: seq<ToolSpec>, t: Target, k: string)
    requires Compatible(tools) && forall i :: 0 <= i < |tools| ==> ToolCompiles(tools[i], t)
    requires k in Merge(tools)
    ensures DefinitionName(k) && Compiles(Merge(tools)[k], Merge(tools).Keys, t) && RoundTrips(Merge(tools)[k], t)
  {
    var i, n := MergedFrom(tools, k);
    var tool := tools[i];
    LinkableNamesArePlain(tool);
    LinkedNameIsValid(tool.name, n);
    CompatibleMergeHolds(tools, i);
    EmbeddedCompiles(tool.definitions[n], tool, Merge(tools).Keys, t);
    EmbeddedIsRegular(tool.definitions[n], tool, t);
    RoundTripExact(Merge(tools)[k], t);
  }

  /******* The whole *******/

  function Generated(tools: seq<ToolSpec>, answerOnly: bool, p: string -> bool): (r: Action)
  {
    Action(true, ActionBranches(tools, answerOnly, p), if answerOnly then map[] else Merge(tools))
  }

  lemma GeneratedBranchCompiles(tools: seq<ToolSpec>, answerOnly: bool, p: string -> bool, t: Target, i: nat)
    requires Compatible(tools) && forall j :: 0 <= j < |tools| ==> ToolCompiles(tools[j], t)
    requires i < BranchCount(tools, answerOnly)
    ensures Compilable(ActionBranches(tools, answerOnly, p)[i], Generated(tools, answerOnly, p).defs,
                       t, ARGUMENTS_DEPTH + 1)
  {
    BranchAt(tools, answerOnly, p, i);
    var defs := Generated(tools, answerOnly, p).defs;
    if !answerOnly && i < |tools| {
      CompatibleMergeHolds(tools, i);
      ToolBranchCompiles(tools[i], defs, t);
    } else {
      AnswerCompiles(p, defs, t);
      DepthGrows(Lower(AnswerBranch(p), t), LowerAll(defs, t), {}, 3, ARGUMENTS_DEPTH + 1);
    }
  }

  // A tagged union of compilable branches over compilable definitions compiles strictly.
  lemma TaggedUnionCompiles(a: Action, t: Target)
    requires a.branches != [] && Tagged(a.branches)
    requires forall i :: 0 <= i < |a.branches| ==> Compilable(a.branches[i], a.defs, t, ARGUMENTS_DEPTH + 1)
    requires forall k :: k in a.defs ==>
      DefinitionName(k) && Compiles(a.defs[k], a.defs.Keys, t) && RoundTrips(a.defs[k], t)
    requires StaysAMapping(a.defs.Keys) && a.defs.Keys !! DroppedNames(t)
    ensures CompilesStrictly(a, t)
  {
    TaggedIsExclusive(a.branches, t);
    RoundTripExact(a.Root(), t);
    var lowered := Lower(a.Root(), t);
    forall i | 0 <= i < |lowered.branches|
      ensures DepthWithin(lowered.branches[i], LowerAll(a.defs, t), {}, ARGUMENTS_DEPTH + 1)
    {
      assert lowered.branches[i] == Lower(a.branches[i], t);
    }
    assert DepthWithin(lowered, LowerAll(a.defs, t), {}, MAX_NESTING_DEPTH - 1);
  }

  // Distinct tools that each compile, with discriminators that hold no link, and whose
  // definitions do not collide, generate an action schema that compiles.
  lemma GeneratedCompiles(tools: seq<ToolSpec>, answerOnly: bool, p: string -> bool, t: Target)
    requires DistinctNames(tools) && Compatible(tools) && forall i :: 0 <= i < |tools| ==> ToolCompiles(tools[i], t)
    ensures CompilesStrictly(Generated(tools, answerOnly, p), t)
  {
    var a := Generated(tools, answerOnly, p);
    GeneratedBranchesAreTagged(tools, answerOnly, p);
    forall i | 0 <= i < |a.branches|
      ensures Compilable(a.branches[i], a.defs, t, ARGUMENTS_DEPTH + 1)
    {
      GeneratedBranchCompiles(tools, answerOnly, p, t, i);
    }
    if !answerOnly {
      MergedNamesAreSafe(tools, t);
      forall k | k in a.defs
        ensures DefinitionName(k) && Compiles(a.defs[k], a.defs.Keys, t) && RoundTrips(a.defs[k], t)
      {
        MergedCompile(tools, t, k);
      }
    }
    TaggedUnionCompiles(a, t);
  }
}
