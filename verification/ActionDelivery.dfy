// From the tools' own argument schemas to a provider and back: what a provider may send
// under the generated and compiled action schema is, once pruned, an answer or an action
// whose arguments its own tool accepts.
module ActionDelivery {
  import opened JsonValues
  import opened ActionSchemas
  import opened SchemaCompiler
  import opened SchemaExclusion
  import opened SchemaPruning
  import opened SchemaGuidance
  import opened SchemaMeaning
  import opened LinkedValues
  import opened SchemaLinking
  import opened SchemaTermination
  import opened SchemaCompletion
  import opened SchemaConservation
  import opened SchemaRoot
  import opened ActionSchemaBuilder
  import opened ActionCompilation
  import opened ActionForms

  // A tool whose own schema is plain and resolves.
  ghost predicate GoodTool(tool: ToolSpec)
  {
    && PlainNames(tool) && Plain(tool.arguments) && PlainDefinitions(tool.definitions)
    && Acyclic(tool.arguments, tool.definitions, {})
  }

  // Pruning a tool's arguments follows what a provider sends, or what the tool accepts.
  ghost predicate FollowsWhatIsSent(tool: ToolSpec, t: Target)
  {
    SentGuided(tool.arguments, tool.definitions, t, {})
  }

  ghost predicate FollowsWhatIsMeant(tool: ToolSpec)
  {
    SourceGuided(tool.arguments, tool.definitions, {})
  }

  // Constants and declared types that tell the branches of every union apart are enough.
  lemma DecidedToolIsFollowed(tool: ToolSpec, t: Target)
    requires GoodTool(tool) && Decided(tool.arguments, tool.definitions, {})
    ensures FollowsWhatIsSent(tool, t) && FollowsWhatIsMeant(tool)
  {
    DecidedIsGuided(tool.arguments, tool.definitions, t, {});
  }

  /******* Plain schemas hold no links *******/

  // Scalars hold no link.
  lemma {:induction false} PlainIsLinkFree(s: Schema, references: map<string, string>)
    requires Plain(s)
    ensures LinkFree(s, references)
  {
    match s
    case Ref(_) =>
    case Union(_, branches) =>
      forall i | 0 <= i < |branches| { PlainIsLinkFree(branches[i], references); }
    case Node(_, _, _, _, items, properties, _, _) =>
      if items.Items? { PlainIsLinkFree(items.each, references); }
      if properties.Properties? {
        forall k | k in properties.of { PlainIsLinkFree(properties.of[k], references); }
      }
  }

  lemma GoodToolIsLinkFree(tool: ToolSpec)
    requires GoodTool(tool)
    ensures LinkFreeIn(tool.arguments, tool) && LinkFreeDefinitions(tool)
  {
    PlainIsLinkFree(tool.arguments, References(tool));
    forall n | n in tool.definitions { PlainIsLinkFree(tool.definitions[n], References(tool)); }
  }

  lemma NullableIsLinkFree(s: Schema, references: map<string, string>)
    requires LinkFree(s, references)
    ensures LinkFree(Nullable(s), references)
  {
    assert LinkFree(NULL_NODE, references);
  }

  lemma {:induction false} LoweredIsLinkFree(s: Schema, t: Target, references: map<string, string>)
    requires LinkFree(s, references)
    ensures LinkFree(Lower(s, t), references)
  {
    match s
    case Ref(_) =>
    case Union(_, branches) =>
      forall i | 0 <= i < |branches|
        ensures LinkFree(Lower(branches[i], t), references)
      {
        LoweredIsLinkFree(branches[i], t, references);
      }
    case Node(_, _, _, _, items, properties, _, _) =>
      if items.Items? { LoweredIsLinkFree(items.each, t, references); }
      if properties.Properties? {
        forall k | k in properties.of
          ensures LinkFree(Lower(properties.of[k], t), references)
          ensures LinkFree(Nullable(Lower(properties.of[k], t)), references)
        {
          LoweredIsLinkFree(properties.of[k], t, references);
          NullableIsLinkFree(Lower(properties.of[k], t), references);
        }
      }
  }

  lemma LoweredToolIsLinkFree(tool: ToolSpec, t: Target)
    requires LinkFreeDefinitions(tool)
    ensures LinkFreeDefinitions(LoweredTool(tool, t))
  {
    LoweredReferences(tool, t);
    forall n | n in tool.definitions
      ensures LinkFree(Lower(tool.definitions[n], t), References(tool))
    {
      assert LinkFreeIn(tool.definitions[n], tool);
      LoweredIsLinkFree(tool.definitions[n], t, References(tool));
    }
  }

  lemma {:induction false} RestoredIsLinkFree(s: Schema, t: Target, references: map<string, string>)
    requires LinkFree(s, references)
    ensures LinkFree(Restore(s, t), references)
  {
    match s
    case Ref(_) =>
    case Union(_, branches) =>
      forall i | 0 <= i < |branches| { RestoredIsLinkFree(branches[i], t, references); }
    case Node(_, _, _, _, items, properties, _, _) =>
      if items.Items? { RestoredIsLinkFree(items.each, t, references); }
      if properties.Properties? {
        forall k | k in properties.of { RestoredIsLinkFree(properties.of[k], t, references); }
      }
  }

  lemma {:induction false} ResolvedIsLinkFree(s: Schema, tool: ToolSpec, seen: set<string>)
    requires LinkFreeIn(s, tool) && LinkFreeDefinitions(tool)
    ensures LinkFreeIn(Resolved(s, tool.definitions, seen), tool)
    decreases tool.definitions.Keys - seen
  {
    if s.Ref? && s.name in tool.definitions && s.name !in seen {
      ResolvedIsLinkFree(tool.definitions[s.name], tool, seen + {s.name});
    }
  }

  /******* Linking keeps a schema meant for pruning *******/

  lemma {:induction false} EmbeddedIsPlain(s: Schema, tool: ToolSpec)
    requires Plain(s)
    ensures Plain(Embedded(s, tool))
    decreases s
  {
    match s
    case Ref(_) =>
    case Union(_, branches) =>
      forall i | 0 <= i < |branches|
        ensures Plain(Embedded(branches[i], tool))
      {
        EmbeddedIsPlain(branches[i], tool);
      }
    case Node(_, _, _, _, items, properties, _, _) =>
      if items.Items? { EmbeddedIsPlain(items.each, tool); }
      if properties.Properties? {
        forall k | k in properties.of
          ensures Plain(Embedded(properties.of[k], tool))
        {
          EmbeddedIsPlain(properties.of[k], tool);
        }
      }
  }

  lemma {:induction false} EmbeddedResolves(s: Schema, tool: ToolSpec, merged: Definitions, seen: set<string>)
    requires PlainNames(tool) && Holds(merged, tool) && Acyclic(s, tool.definitions, seen)
    ensures Resolved(Embedded(s, tool), merged, Linked(tool.name, seen))
         == Embedded(Resolved(s, tool.definitions, seen), tool)
    decreases tool.definitions.Keys - seen
  {
    if s.Ref? {
      LocalReferenceIsLinked(tool, s.name);
      SeenIsLinked(tool, seen, s.name);
      EmbeddedResolves(tool.definitions[s.name], tool, merged, seen + {s.name});
    }
  }

  lemma EmbeddedCandidate(v: Json, s: Schema, tool: ToolSpec, merged: Definitions, seen: set<string>)
    requires PlainNames(tool) && Holds(merged, tool) && Acyclic(s, tool.definitions, seen)
    requires LinkFreeIn(s, tool) && LinkFreeDefinitions(tool)
    ensures Candidate(v, Embedded(s, tool), merged, Linked(tool.name, seen)) == Candidate(v, s, tool.definitions, seen)
  {
    var r := Resolved(s, tool.definitions, seen);
    EmbeddedResolves(s, tool, merged, seen);
    EmbeddedReads(r, tool);
    ResolvedIsLinkFree(s, tool, seen);
    LinkFreeConsts(r, References(tool));
    EmbeddedConsts(r, tool);
  }

  lemma EmbeddedSelection(v: Json, branches: seq<Schema>, embedded: seq<Schema>, tool: ToolSpec, merged: Definitions,
                          seen: set<string>)
    requires PlainNames(tool) && Holds(merged, tool) && LinkFreeDefinitions(tool) && |embedded| == |branches|
    requires forall i :: 0 <= i < |branches| ==>
      LinkFreeIn(branches[i], tool) && Acyclic(branches[i], tool.definitions, seen)
      && embedded[i] == Embedded(branches[i], tool)
    ensures Selected(v, embedded, merged, Linked(tool.name, seen)) == Selected(v, branches, tool.definitions, seen)
  {
    forall i | 0 <= i < |branches|
      ensures Candidate(v, embedded[i], merged, Linked(tool.name, seen))
           == Candidate(v, branches[i], tool.definitions, seen)
    {
      EmbeddedCandidate(v, branches[i], tool, merged, seen);
    }
    assert forall i :: OnlyCandidate(v, embedded, merged, Linked(tool.name, seen), i)
                  <==> OnlyCandidate(v, branches, tool.definitions, seen, i);
  }

  // Pruning against the linked schema is pruning against the tool's own.
  lemma {:induction false} LinkingKeepsPruning(v: Json, s: Schema, tool: ToolSpec, merged: Definitions,
                                               seen: set<string>)
    requires PlainNames(tool) && Holds(merged, tool) && Acyclic(s, tool.definitions, seen)
    requires LinkFreeIn(s, tool) && LinkFreeDefinitions(tool)
    ensures Prune(v, Embedded(s, tool), merged, Linked(tool.name, seen)) == Prune(v, s, tool.definitions, seen)
    decreases tool.definitions.Keys - seen, s
  {
    match s
    case Ref(name) =>
      LocalReferenceIsLinked(tool, name);
      SeenIsLinked(tool, seen, name);
      LinkingKeepsPruning(v, tool.definitions[name], tool, merged, seen + {name});
    case Union(_, branches) =>
      EmbeddedSelection(v, branches, Embedded(s, tool).branches, tool, merged, seen);
      var i := Selected(v, branches, tool.definitions, seen);
      if i.Some? { LinkingKeepsPruning(v, branches[i.value], tool, merged, seen); }
    case Node(_, _, _, _, items, _, _, _) =>
      if v.JObj? {
        LinkingKeepsMemberPruning(v, s, tool, merged, seen);
      } else if v.JArr? && items.Items? {
        forall i | 0 <= i < |v.items|
          ensures Prune(v.items[i], Embedded(items.each, tool), merged, Linked(tool.name, seen))
               == Prune(v.items[i], items.each, tool.definitions, seen)
        {
          LinkingKeepsPruning(v.items[i], items.each, tool, merged, seen);
        }
      }
  }

  lemma {:induction false} LinkingKeepsMemberPruning(v: Json, s: Schema, tool: ToolSpec, merged: Definitions,
                                                     seen: set<string>)
    requires s.Node? && v.JObj? && PlainNames(tool) && Holds(merged, tool) && Acyclic(s, tool.definitions, seen)
    requires LinkFreeIn(s, tool) && LinkFreeDefinitions(tool)
    ensures Prune(v, Embedded(s, tool), merged, Linked(tool.name, seen)) == Prune(v, s, tool.definitions, seen)
    decreases tool.definitions.Keys - seen, s, 0
  {
    var e := Embedded(s, tool);
    var p, q := Prune(v, e, merged, Linked(tool.name, seen)).members, Prune(v, s, tool.definitions, seen).members;
    assert e.Props().Keys == s.Props().Keys && e.Required() == s.Required();
    forall k | k in v.members && k in s.Props()
      ensures Prune(v.members[k], e.Props()[k], merged, Linked(tool.name, seen))
           == Prune(v.members[k], s.Props()[k], tool.definitions, seen)
    {
      LinkingKeepsPruning(v.members[k], s.Props()[k], tool, merged, seen);
    }
    assert p.Keys == q.Keys;
    assert p == q;
  }

  lemma EmbeddedPrunesAlike(v: Json, branches: seq<Schema>, embedded: seq<Schema>, i: nat, tool: ToolSpec,
                            merged: Definitions, seen: set<string>)
    requires PlainNames(tool) && Holds(merged, tool) && LinkFreeDefinitions(tool)
    requires |embedded| == |branches| && i < |branches|
    requires forall j :: 0 <= j < |branches| ==>
      LinkFreeIn(branches[j], tool) && Acyclic(branches[j], tool.definitions, seen)
      && embedded[j] == Embedded(branches[j], tool)
    requires PrunesAlike(v, branches, i, tool.definitions, seen)
    ensures PrunesAlike(v, embedded, i, merged, Linked(tool.name, seen))
  {
    var u := Union(false, branches);
    assert Embedded(u, tool).branches == embedded;
    LinkingKeepsPruning(v, u, tool, merged, seen);
    LinkingKeepsPruning(v, branches[i], tool, merged, seen);
  }

  /******* Linking keeps what pruning follows *******/

  lemma NullableIsAcyclic(s: Schema, defs: Definitions, seen: set<string>)
    requires Acyclic(s, defs, seen)
    ensures Acyclic(Nullable(s), defs, seen)
  {
    assert Acyclic(NULL_NODE, defs, seen);
  }

  lemma {:induction false} LoweredIsAcyclic(s: Schema, defs: Definitions, t: Target, seen: set<string>)
    requires Acyclic(s, defs, seen)
    ensures Acyclic(Lower(s, t), LowerAll(defs, t), seen)
    decreases defs.Keys - seen, s
  {
    match s
    case Ref(name) => LoweredIsAcyclic(defs[name], defs, t, seen + {name});
    case Union(_, branches) =>
      forall i | 0 <= i < |branches|
        ensures Acyclic(Lower(branches[i], t), LowerAll(defs, t), seen)
      {
        LoweredIsAcyclic(branches[i], defs, t, seen);
      }
    case Node(_, _, _, _, items, properties, _, _) =>
      if items.Items? { LoweredIsAcyclic(items.each, defs, t, seen); }
      if properties.Properties? {
        forall k | k in properties.of
          ensures Acyclic(Lower(properties.of[k], t), LowerAll(defs, t), seen)
          ensures Acyclic(Nullable(Lower(properties.of[k], t)), LowerAll(defs, t), seen)
        {
          LoweredIsAcyclic(properties.of[k], defs, t, seen);
          NullableIsAcyclic(Lower(properties.of[k], t), LowerAll(defs, t), seen);
        }
      }
  }

  // A linked schema accepts in compiled form what the tool's own compiled schema accepts.
  lemma LinkingKeepsSending(v: Json, s: Schema, tool: ToolSpec, merged: Definitions, t: Target, seen: set<string>)
    requires PlainNames(tool) && Holds(merged, tool) && Acyclic(s, tool.definitions, seen)
    requires LinkFreeIn(s, tool) && LinkFreeDefinitions(tool)
    ensures Accepts(v, Lower(Embedded(s, tool), t), LowerAll(merged, t), Linked(tool.name, seen))
       <==> Accepts(v, Lower(s, t), LowerAll(tool.definitions, t), seen)
  {
    LoweredEmbeds(s, tool, t);
    LoweredHolds(tool, merged, t);
    LoweredReferences(tool, t);
    LoweredIsLinkFree(s, t, References(tool));
    LoweredToolIsLinkFree(tool, t);
    LoweredIsAcyclic(s, tool.definitions, t, seen);
    LinkingKeepsMeaning(v, Lower(s, t), LoweredTool(tool, t), LowerAll(merged, t), seen);
  }

  lemma EmbeddedFollowsSent(branches: seq<Schema>, embedded: seq<Schema>, tool: ToolSpec, merged: Definitions,
                            t: Target, seen: set<string>)
    requires PlainNames(tool) && Holds(merged, tool) && LinkFreeDefinitions(tool) && |embedded| == |branches|
    requires forall j :: 0 <= j < |branches| ==>
      LinkFreeIn(branches[j], tool) && Acyclic(branches[j], tool.definitions, seen)
      && embedded[j] == Embedded(branches[j], tool)
    requires FollowsSent(branches, tool.definitions, t, seen)
    ensures FollowsSent(embedded, merged, t, Linked(tool.name, seen))
  {
    var linked := Linked(tool.name, seen);
    forall v, i | 0 <= i < |embedded| && Accepts(v, Lower(embedded[i], t), LowerAll(merged, t), linked)
      ensures PrunesAlike(v, embedded, i, merged, linked)
    {
      LinkingKeepsSending(v, branches[i], tool, merged, t, seen);
      EmbeddedPrunesAlike(v, branches, embedded, i, tool, merged, seen);
    }
  }

  lemma EmbeddedFollowsSource(branches: seq<Schema>, embedded: seq<Schema>, tool: ToolSpec, merged: Definitions,
                              seen: set<string>)
    requires PlainNames(tool) && Holds(merged, tool) && LinkFreeDefinitions(tool) && |embedded| == |branches|
    requires forall j :: 0 <= j < |branches| ==>
      LinkFreeIn(branches[j], tool) && Acyclic(branches[j], tool.definitions, seen)
      && embedded[j] == Embedded(branches[j], tool)
    requires FollowsSource(branches, tool.definitions, seen)
    ensures FollowsSource(embedded, merged, Linked(tool.name, seen))
  {
    var linked := Linked(tool.name, seen);
    forall v, i | 0 <= i < |embedded| && Accepts(v, embedded[i], merged, linked)
      ensures PrunesAlike(v, embedded, i, merged, linked)
    {
      LinkingKeepsMeaning(v, branches[i], tool, merged, seen);
      EmbeddedPrunesAlike(v, branches, embedded, i, tool, merged, seen);
    }
  }

  lemma {:induction false} EmbeddedIsSentGuided(s: Schema, tool: ToolSpec, merged: Definitions, t: Target,
                                                seen: set<string>)
    requires PlainNames(tool) && Holds(merged, tool) && LinkFreeIn(s, tool) && LinkFreeDefinitions(tool)
    requires Acyclic(s, tool.definitions, seen) && SentGuided(s, tool.definitions, t, seen)
    ensures SentGuided(Embedded(s, tool), merged, t, Linked(tool.name, seen))
    decreases tool.definitions.Keys - seen, s
  {
    match s
    case Ref(name) =>
      LocalReferenceIsLinked(tool, name);
      SeenIsLinked(tool, seen, name);
      EmbeddedIsSentGuided(tool.definitions[name], tool, merged, t, seen + {name});
    case Union(_, branches) =>
      EmbeddedFollowsSent(branches, Embedded(s, tool).branches, tool, merged, t, seen);
      forall i | 0 <= i < |branches|
        ensures SentGuided(Embedded(branches[i], tool), merged, t, Linked(tool.name, seen))
      {
        EmbeddedIsSentGuided(branches[i], tool, merged, t, seen);
      }
    case Node(_, _, _, _, items, properties, _, _) =>
      if items.Items? { EmbeddedIsSentGuided(items.each, tool, merged, t, seen); }
      if properties.Properties? {
        forall k | k in properties.of
          ensures SentGuided(Embedded(properties.of[k], tool), merged, t, Linked(tool.name, seen))
        {
          EmbeddedIsSentGuided(properties.of[k], tool, merged, t, seen);
        }
      }
  }

  lemma {:induction false} EmbeddedIsSourceGuided(s: Schema, tool: ToolSpec, merged: Definitions, seen: set<string>)
    requires PlainNames(tool) && Holds(merged, tool) && LinkFreeIn(s, tool) && LinkFreeDefinitions(tool)
    requires Acyclic(s, tool.definitions, seen) && SourceGuided(s, tool.definitions, seen)
    ensures SourceGuided(Embedded(s, tool), merged, Linked(tool.name, seen))
    decreases tool.definitions.Keys - seen, s
  {
    match s
    case Ref(name) =>
      LocalReferenceIsLinked(tool, name);
      SeenIsLinked(tool, seen, name);
      EmbeddedIsSourceGuided(tool.definitions[name], tool, merged, seen + {name});
    case Union(_, branches) =>
      EmbeddedFollowsSource(branches, Embedded(s, tool).branches, tool, merged, seen);
      forall i | 0 <= i < |branches|
        ensures SourceGuided(Embedded(branches[i], tool), merged, Linked(tool.name, seen))
      {
        EmbeddedIsSourceGuided(branches[i], tool, merged, seen);
      }
    case Node(_, _, _, _, items, properties, _, _) =>
      if items.Items? { EmbeddedIsSourceGuided(items.each, tool, merged, seen); }
      if properties.Properties? {
        forall k | k in properties.of
          ensures SourceGuided(Embedded(properties.of[k], tool), merged, Linked(tool.name, seen))
        {
          EmbeddedIsSourceGuided(properties.of[k], tool, merged, seen);
        }
      }
  }

  lemma {:induction false} MergedArePlain(tools: seq<ToolSpec>)
    requires forall i :: 0 <= i < |tools| ==> GoodTool(tools[i])
    ensures PlainDefinitions(Merge(tools))
  {
    if tools != [] {
      var front, last := tools[..|tools| - 1], tools[|tools| - 1];
      MergedArePlain(front);
      forall k | k in Contribution(last)
        ensures Plain(Contribution(last)[k])
      {
        var n :| n in last.definitions && k == LinkedName(last.name, n);
        EmbeddedIsPlain(last.definitions[n], last);
      }
    }
  }

  /******* The generated schema is meant for pruning *******/

  // A node without unions below it.
  ghost predicate Simple(s: Schema, defs: Definitions)
  {
    Plain(s) && Decided(s, defs, {})
  }

  lemma LeavesAreSimple(text: string, facets: seq<Facet>, defs: Definitions)
    ensures Simple(ConstantNode(text), defs) && Simple(TextNode(facets), defs)
  {}

  lemma ArrayIsSimple(each: Schema, defs: Definitions)
    requires Simple(each, defs)
    ensures Simple(ArrayNode(each), defs)
  {}

  lemma ObjectIsSimple(properties: map<string, Schema>, required: set<string>, defs: Definitions)
    requires forall k :: k in properties ==> Simple(properties[k], defs)
    ensures Simple(ObjectNode(properties, required), defs)
  {}

  lemma EvidenceIsSimple(p: string -> bool, defs: Definitions)
    ensures Simple(EvidenceNode(p), defs)
  {
    var e := EvidenceNode(p);
    forall k | k in e.properties.of
      ensures Simple(e.properties.of[k], defs)
    {
      LeavesAreSimple("", [Pattern(p)], defs);
      LeavesAreSimple("", [MinLength(1), MaxLength(300)], defs);
    }
    ObjectIsSimple(e.properties.of, e.required.value, defs);
  }

  lemma StatusIsSimple(defs: Definitions)
    ensures Simple(Node(OneType(TString), None, Some(STATUSES), [], NoItems, NoProperties, None, Unstated), defs)
  {}

  lemma AnswerIsSimple(p: string -> bool, defs: Definitions)
    ensures Simple(AnswerBranch(p), defs)
  {
    var e := AnswerBranch(p);
    LeavesAreSimple("answer", [MinLength(1), MaxLength(8000)], defs);
    LeavesAreSimple("", [MinLength(1)], defs);
    StatusIsSimple(defs);
    EvidenceIsSimple(p, defs);
    ArrayIsSimple(EvidenceNode(p), defs);
    ArrayIsSimple(TextNode([MinLength(1)]), defs);
    ObjectIsSimple(e.properties.of, e.required.value, defs);
  }

  lemma AnswerIsGuided(p: string -> bool, defs: Definitions, t: Target)
    requires PlainDefinitions(defs)
    ensures var s := AnswerBranch(p); Plain(s) && SentGuided(s, defs, t, {}) && SourceGuided(s, defs, {})
  {
    AnswerIsSimple(p, defs);
    DecidedIsGuided(AnswerBranch(p), defs, t, {});
  }

  lemma ObjectIsGuided(properties: map<string, Schema>, required: set<string>, defs: Definitions, t: Target)
    ensures (forall k :: k in properties ==> SentGuided(properties[k], defs, t, {}))
      ==> SentGuided(ObjectNode(properties, required), defs, t, {})
    ensures (forall k :: k in properties ==> SourceGuided(properties[k], defs, {}))
      ==> SourceGuided(ObjectNode(properties, required), defs, {})
    ensures (forall k :: k in properties ==> Plain(properties[k])) ==> Plain(ObjectNode(properties, required))
  {}

  lemma LeavesAreGuided(text: string, facets: seq<Facet>, defs: Definitions, t: Target)
    ensures forall s :: s == ConstantNode(text) || s == TextNode(facets) ==>
      Plain(s) && SentGuided(s, defs, t, {}) && SourceGuided(s, defs, {})
  {}

  lemma ToolMemberIsGuided(tool: ToolSpec, merged: Definitions, t: Target, k: string)
    requires GoodTool(tool) && Holds(merged, tool) && k in ToolBranch(tool).properties.of
    ensures var s := ToolBranch(tool).properties.of[k];
      && Plain(s)
      && (FollowsWhatIsSent(tool, t) ==> SentGuided(s, merged, t, {}))
      && (FollowsWhatIsMeant(tool) ==> SourceGuided(s, merged, {}))
  {
    if k == "arguments" {
      assert Linked(tool.name, {}) == {};
      EmbeddedIsPlain(tool.arguments, tool);
      GoodToolIsLinkFree(tool);
      if FollowsWhatIsSent(tool, t) { EmbeddedIsSentGuided(tool.arguments, tool, merged, t, {}); }
      if FollowsWhatIsMeant(tool) { EmbeddedIsSourceGuided(tool.arguments, tool, merged, {}); }
    } else if k == "tool" {
      LeavesAreGuided(tool.name, [], merged, t);
    } else {
      LeavesAreGuided("tool", [MinLength(1), MaxLength(300)], merged, t);
    }
  }

  lemma ToolIsGuided(tool: ToolSpec, merged: Definitions, t: Target)
    requires GoodTool(tool) && Holds(merged, tool)
    ensures Plain(ToolBranch(tool))
    ensures FollowsWhatIsSent(tool, t) ==> SentGuided(ToolBranch(tool), merged, t, {})
    ensures FollowsWhatIsMeant(tool) ==> SourceGuided(ToolBranch(tool), merged, {})
  {
    var e := ToolBranch(tool);
    forall k | k in e.properties.of
      ensures Plain(e.properties.of[k])
      ensures FollowsWhatIsSent(tool, t) ==> SentGuided(e.properties.of[k], merged, t, {})
      ensures FollowsWhatIsMeant(tool) ==> SourceGuided(e.properties.of[k], merged, {})
    {
      ToolMemberIsGuided(tool, merged, t, k);
    }
    ObjectIsGuided(e.properties.of, e.required.value, merged, t);
  }

  ghost predicate AllFollowSent(tools: seq<ToolSpec>, t: Target)
  {
    forall i :: 0 <= i < |tools| ==> FollowsWhatIsSent(tools[i], t)
  }

  ghost predicate AllFollowMeant(tools: seq<ToolSpec>)
  {
    forall i :: 0 <= i < |tools| ==> FollowsWhatIsMeant(tools[i])
  }

  lemma GeneratedBranchIsGuided(tools: seq<ToolSpec>, answerOnly: bool, p: string -> bool, t: Target, i: nat)
    requires Compatible(tools) && forall j :: 0 <= j < |tools| ==> GoodTool(tools[j])
    requires i < BranchCount(tools, answerOnly)
    ensures var s, defs := ActionBranches(tools, answerOnly, p)[i], Generated(tools, answerOnly, p).defs;
      && Plain(s)
      && ((!answerOnly && i < |tools| ==> FollowsWhatIsSent(tools[i], t)) ==> SentGuided(s, defs, t, {}))
      && ((!answerOnly && i < |tools| ==> FollowsWhatIsMeant(tools[i])) ==> SourceGuided(s, defs, {}))
  {
    BranchAt(tools, answerOnly, p, i);
    MergedArePlain(tools);
    if !answerOnly && i < |tools| {
      CompatibleMergeHolds(tools, i);
      ToolIsGuided(tools[i], Merge(tools), t);
    } else {
      AnswerIsGuided(p, Generated(tools, answerOnly, p).defs, t);
    }
  }

  // The tags of the branches tell them apart at the root.
  lemma TaggedIsFollowed(branches: seq<Schema>, defs: Definitions, t: Target)
    requires Tagged(branches) && PlainDefinitions(defs) && Plain(Union(false, branches))
    ensures FollowsSent(branches, defs, t, {}) && FollowsSource(branches, defs, {})
  {
    TaggedIsDecidable(branches);
    assert forall i :: 0 <= i < |branches| ==> Resolved(branches[i], defs, {}) == branches[i];
    ApartIsFollowed(branches, defs, t, {});
  }

  lemma TaggedIsGuided(a: Action, t: Target)
    requires Tagged(a.branches) && PlainDefinitions(a.defs)
    requires forall i :: 0 <= i < |a.branches| ==> Plain(a.branches[i])
    ensures PlainAction(a)
    ensures (forall i :: 0 <= i < |a.branches| ==> SentGuided(a.branches[i], a.defs, t, {}))
      ==> SentGuided(a.Root(), a.defs, t, {})
    ensures (forall i :: 0 <= i < |a.branches| ==> SourceGuided(a.branches[i], a.defs, {}))
      ==> SourceGuided(a.Root(), a.defs, {})
  {
    TaggedIsFollowed(a.branches, a.defs, t);
  }

  // Distinct tools whose own schemas are plain and resolve, and whose definitions do not
  // collide, generate a plain action; pruning follows what is sent under it, or what it
  // means, if it does so for every tool.
  lemma GeneratedIsGuided(tools: seq<ToolSpec>, answerOnly: bool, p: string -> bool, t: Target)
    requires DistinctNames(tools) && Compatible(tools) && forall i :: 0 <= i < |tools| ==> GoodTool(tools[i])
    ensures var a := Generated(tools, answerOnly, p);
      && PlainAction(a)
      && (AllFollowSent(tools, t) ==> SentGuided(a.Root(), a.defs, t, {}))
      && (AllFollowMeant(tools) ==> SourceGuided(a.Root(), a.defs, {}))
  {
    var a := Generated(tools, answerOnly, p);
    MergedArePlain(tools);
    forall i | 0 <= i < |a.branches|
      ensures Plain(a.branches[i])
      ensures AllFollowSent(tools, t) ==> SentGuided(a.branches[i], a.defs, t, {})
      ensures AllFollowMeant(tools) ==> SourceGuided(a.branches[i], a.defs, {})
    {
      GeneratedBranchIsGuided(tools, answerOnly, p, t, i);
    }
    GeneratedBranchesAreTagged(tools, answerOnly, p);
    TaggedIsGuided(a, t);
  }

  /******* Back to the tool's own schema *******/

  lemma {:induction false} RestoreCommutes(s: Schema, references: map<string, string>, t: Target)
    ensures Restore(Rewrite(s, references), t) == Rewrite(Restore(s, t), references)
    decreases s
  {
    match s
    case Ref(_) =>
    case Union(_, branches) =>
      forall i | 0 <= i < |branches|
        ensures Restore(Rewrite(branches[i], references), t) == Rewrite(Restore(branches[i], t), references)
      {
        RestoreCommutes(branches[i], references, t);
      }
      assert Restore(Rewrite(s, references), t).branches == Rewrite(Restore(s, t), references).branches;
    case Node(_, _, _, _, items, properties, _, _) =>
      if items.Items? { RestoreCommutes(items.each, references, t); }
      if properties.Properties? { RestoreCommutesBelow(s, references, t); }
      RestoreCommutesAt(s, references, t);
  }

  lemma {:induction false} RestoreCommutesBelow(s: Schema, references: map<string, string>, t: Target)
    requires s.Node? && s.properties.Properties?
    ensures forall k :: k in s.properties.of ==>
      Restore(Rewrite(s.properties.of[k], references), t) == Rewrite(Restore(s.properties.of[k], t), references)
    decreases s, 0
  {
    forall k | k in s.properties.of
      ensures Restore(Rewrite(s.properties.of[k], references), t) == Rewrite(Restore(s.properties.of[k], t), references)
    {
      RestoreCommutes(s.properties.of[k], references, t);
    }
  }

  lemma RestoreCommutesAt(s: Schema, references: map<string, string>, t: Target)
    requires s.Node?
    requires s.items.Items? ==>
      Restore(Rewrite(s.items.each, references), t) == Rewrite(Restore(s.items.each, t), references)
    requires s.properties.Properties? ==> forall k :: k in s.properties.of ==>
      Restore(Rewrite(s.properties.of[k], references), t) == Rewrite(Restore(s.properties.of[k], t), references)
    ensures Restore(Rewrite(s, references), t) == Rewrite(Restore(s, t), references)
  {
    KeptCommutes(s.facets, references, t);
    if s.IsObject() { PropertiesCommute(s, references, t); }
  }

  lemma PropertiesCommute(s: Schema, references: map<string, string>, t: Target)
    requires s.IsObject()
    requires s.properties.Properties? ==> forall k :: k in s.properties.of ==>
      Restore(Rewrite(s.properties.of[k], references), t) == Rewrite(Restore(s.properties.of[k], t), references)
    ensures Restore(Rewrite(s, references), t).properties == Rewrite(Restore(s, t), references).properties
  {
    var a, b := Restore(Rewrite(s, references), t).properties.of, Rewrite(Restore(s, t), references).properties.of;
    assert a.Keys == b.Keys == s.Props().Keys;
    assert a == b;
  }

  // A tool with its schemas as a target restores them.
  function RestoredTool(tool: ToolSpec, t: Target): (r: ToolSpec)
  {
    ToolSpec(tool.name, Restore(tool.arguments, t), RestoreAll(tool.definitions, t))
  }

  lemma RestoredReferences(tool: ToolSpec, t: Target)
    ensures References(RestoredTool(tool, t)) == References(tool)
  {
    TokensDistinct(tool.definitions.Keys);
    assert RestoredTool(tool, t).definitions.Keys == tool.definitions.Keys;
  }

  lemma RestoredHolds(tool: ToolSpec, merged: Definitions, t: Target)
    requires Holds(merged, tool)
    ensures Holds(RestoreAll(merged, t), RestoredTool(tool, t))
  {
    RestoredReferences(tool, t);
    forall n | n in tool.definitions
      ensures RestoreAll(merged, t)[LinkedName(tool.name, n)]
        == Embedded(Restore(tool.definitions[n], t), RestoredTool(tool, t))
    {
      RestoreCommutes(tool.definitions[n], References(tool), t);
    }
  }

  lemma {:induction false} RestoredIsAcyclic(s: Schema, defs: Definitions, t: Target, seen: set<string>)
    requires Acyclic(s, defs, seen)
    ensures Acyclic(Restore(s, t), RestoreAll(defs, t), seen)
    decreases defs.Keys - seen, s
  {
    match s
    case Ref(name) => RestoredIsAcyclic(defs[name], defs, t, seen + {name});
    case Union(_, branches) =>
      forall i | 0 <= i < |branches|
        ensures Acyclic(Restore(branches[i], t), RestoreAll(defs, t), seen)
      {
        RestoredIsAcyclic(branches[i], defs, t, seen);
      }
    case Node(_, _, _, _, items, properties, _, _) =>
      if items.Items? { RestoredIsAcyclic(items.each, defs, t, seen); }
      if properties.Properties? {
        forall k | k in properties.of
          ensures Acyclic(Restore(properties.of[k], t), RestoreAll(defs, t), seen)
        {
          RestoredIsAcyclic(properties.of[k], defs, t, seen);
        }
      }
  }

  lemma RestoredToolIsLinkFree(tool: ToolSpec, t: Target)
    requires GoodTool(tool)
    ensures LinkFreeDefinitions(RestoredTool(tool, t))
    ensures LinkFreeIn(Restore(tool.arguments, t), RestoredTool(tool, t))
  {
    GoodToolIsLinkFree(tool);
    RestoredReferences(tool, t);
    RestoredIsLinkFree(tool.arguments, t, References(tool));
    forall n | n in tool.definitions
      ensures LinkFree(Restore(tool.definitions[n], t), References(tool))
    {
      assert LinkFreeIn(tool.definitions[n], tool);
      RestoredIsLinkFree(tool.definitions[n], t, References(tool));
    }
  }

  // The arguments the linked schema accepts are those the tool's own schema accepts.
  lemma RestoredArgumentsAreTheTools(v: Json, tool: ToolSpec, merged: Definitions, t: Target)
    requires GoodTool(tool) && Holds(merged, tool)
    ensures Accepts(v, Restore(Embedded(tool.arguments, tool), t), RestoreAll(merged, t), {})
       <==> Accepts(v, Restore(tool.arguments, t), RestoreAll(tool.definitions, t), {})
  {
    RestoredReferences(tool, t);
    RestoreCommutes(tool.arguments, References(tool), t);
    RestoredHolds(tool, merged, t);
    RestoredIsAcyclic(tool.arguments, tool.definitions, t, {});
    RestoredToolIsLinkFree(tool, t);
    assert Linked(tool.name, {}) == {};
    LinkingKeepsMeaning(v, Restore(tool.arguments, t), RestoredTool(tool, t), RestoreAll(merged, t), {});
  }

  // A call of this tool with arguments that its own schema, less the keywords the target
  // drops, accepts.
  ghost predicate ServesTool(v: Json, tool: ToolSpec, t: Target)
  {
    && IsCall(v, tool.name, Restored(t))
    && Accepts(v.members["arguments"], Restore(tool.arguments, t), RestoreAll(tool.definitions, t), {})
  }

  lemma ToolBranchServes(v: Json, tool: ToolSpec, merged: Definitions, t: Target)
    requires GoodTool(tool) && Holds(merged, tool)
    ensures Accepts(v, Restore(ToolBranch(tool), t), RestoreAll(merged, t), {}) <==> ServesTool(v, tool, t)
  {
    CallExact(v, tool, Restored(t), RestoreAll(merged, t));
    if IsCall(v, tool.name, Restored(t)) {
      RestoredArgumentsAreTheTools(v.members["arguments"], tool, merged, t);
    }
  }

  // The whole way: under the strict envelope of the generated schema a provider can only
  // send what, once pruned, is an answer or a call that serves one of the declared tools.
  lemma DeliveredActionServesItsTool(v: Json, tools: seq<ToolSpec>, answerOnly: bool, p: string -> bool, t: Target)
    requires DistinctNames(tools) && Compatible(tools)
    requires forall i :: 0 <= i < |tools| ==> GoodTool(tools[i]) && ToolCompiles(tools[i], t)
    requires AllFollowSent(tools, t)
    ensures var a := Generated(tools, answerOnly, p);
      MaySend(v, a, t) ==>
        var w := Prune(v, a.Root(), a.defs, {});
        IsAnswer(w, p, Restored(t)) || (!answerOnly && exists i :: 0 <= i < |tools| && ServesTool(w, tools[i], t))
  {
    var a := Generated(tools, answerOnly, p);
    if MaySend(v, a, t) {
      var w := Prune(v, a.Root(), a.defs, {});
      GeneratedIsGuided(tools, answerOnly, p, t);
      GeneratedCompiles(tools, answerOnly, p, t);
      ProviderActionIsAccepted(v, a, t);
      var i := RestoredBranch(w, a, t);
      BranchAt(tools, answerOnly, p, i);
      if !answerOnly && i < |tools| {
        CompatibleMergeHolds(tools, i);
        ToolBranchServes(w, tools[i], a.defs, t);
      } else {
        AnswerExact(w, p, Restored(t), RestoreAll(a.defs, t));
      }
    }
  }

  lemma RestoredBranch(w: Json, a: Action, t: Target) returns (i: nat)
    requires Accepts(w, Restore(a.Root(), t), RestoreAll(a.defs, t), {})
    ensures i < |a.branches| && Accepts(w, Restore(a.branches[i], t), RestoreAll(a.defs, t), {})
  {
    var r := Restore(a.Root(), t);
    i :| 0 <= i < |r.branches| && Accepts(w, r.branches[i], RestoreAll(a.defs, t), {});
  }

  /******* From a tool to the provider *******/

  function ToolCall(tool: string, arguments: Json, purpose: string): (r: Json)
  {
    JObj(map["type" := JStr("tool"), "tool" := JStr(tool), "arguments" := arguments, "purpose" := JStr(purpose)])
  }

  predicate PurposeFits(purpose: string)
  {
    1 <= |purpose| <= 300
  }

  // A call of this tool with arguments that its own schema accepts.
  ghost predicate CallsTool(v: Json, tool: ToolSpec)
  {
    IsCall(v, tool.name, Written) && Accepts(v.members["arguments"], tool.arguments, tool.definitions, {})
  }

  lemma ToolBranchCalls(v: Json, tool: ToolSpec, merged: Definitions)
    requires GoodTool(tool) && Holds(merged, tool)
    ensures Accepts(v, ToolBranch(tool), merged, {}) <==> CallsTool(v, tool)
  {
    CallExact(v, tool, Written, merged);
    if IsCall(v, tool.name, Written) {
      assert Linked(tool.name, {}) == {};
      GoodToolIsLinkFree(tool);
      LinkingKeepsMeaning(v.members["arguments"], tool.arguments, tool, merged, {});
    }
  }

  lemma ToolCallCalls(tool: ToolSpec, arguments: Json, purpose: string)
    requires PurposeFits(purpose) && Accepts(arguments, tool.arguments, tool.definitions, {})
    ensures CallsTool(ToolCall(tool.name, arguments, purpose), tool)
  {}

  lemma SoleBranchAccepts(v: Json, a: Action, t: Target, i: nat)
    requires MutuallyExclusive(LowerSeq(a.branches, t)) && Plain(a.Root())
    requires i < |a.branches| && Accepts(v, a.branches[i], a.defs, {})
    ensures Accepts(v, a.Root(), a.defs, {}) && AcceptingBranch(v, a.branches, a.defs, {}) == Some(i)
  {
    forall j | 0 <= j < |a.branches| && j != i
      ensures !Accepts(v, a.branches[j], a.defs, {})
    {
      AdmittedSourceBranchesAreDisjoint(v, a.branches, t, i, j, a.defs, {});
    }
  }

  lemma GeneratedBranchExact(v: Json, tools: seq<ToolSpec>, answerOnly: bool, p: string -> bool, i: nat)
    requires Compatible(tools) && forall j :: 0 <= j < |tools| ==> GoodTool(tools[j])
    requires i < BranchCount(tools, answerOnly)
    ensures Accepts(v, ActionBranches(tools, answerOnly, p)[i], Generated(tools, answerOnly, p).defs, {})
       <==> if !answerOnly && i < |tools| then CallsTool(v, tools[i]) else IsAnswer(v, p, Written)
  {
    BranchAt(tools, answerOnly, p, i);
    if !answerOnly && i < |tools| {
      CompatibleMergeHolds(tools, i);
      ToolBranchCalls(v, tools[i], Merge(tools));
    } else {
      AnswerExact(v, p, Written, Generated(tools, answerOnly, p).defs);
    }
  }

  // The root accepts what one of its branches does, and tells which.
  lemma GeneratedBranchIsTheOne(v: Json, tools: seq<ToolSpec>, answerOnly: bool, p: string -> bool, i: nat)
    requires DistinctNames(tools) && Compatible(tools) && forall j :: 0 <= j < |tools| ==> GoodTool(tools[j])
    requires i < BranchCount(tools, answerOnly)
    requires Accepts(v, ActionBranches(tools, answerOnly, p)[i], Generated(tools, answerOnly, p).defs, {})
    ensures var a := Generated(tools, answerOnly, p);
      Accepts(v, a.Root(), a.defs, {}) && AcceptingBranch(v, a.branches, a.defs, {}) == Some(i)
  {
    GeneratedSchemaIsAdmitted(tools, answerOnly, p, OpenAI);
    GeneratedIsGuided(tools, answerOnly, p, OpenAI);
    SoleBranchAccepts(v, Generated(tools, answerOnly, p), OpenAI, i);
  }

  ghost predicate IsAction(v: Json, tools: seq<ToolSpec>, answerOnly: bool, p: string -> bool)
  {
    IsAnswer(v, p, Written) || (!answerOnly && exists i :: 0 <= i < |tools| && CallsTool(v, tools[i]))
  }

  lemma AcceptedIsAction(v: Json, tools: seq<ToolSpec>, answerOnly: bool, p: string -> bool)
    requires DistinctNames(tools) && Compatible(tools) && forall i :: 0 <= i < |tools| ==> GoodTool(tools[i])
    requires Accepts(v, Generated(tools, answerOnly, p).Root(), Generated(tools, answerOnly, p).defs, {})
    ensures IsAction(v, tools, answerOnly, p)
  {
    var a := Generated(tools, answerOnly, p);
    GeneratedBranchExact(v, tools, answerOnly, p, AcceptingBranch(v, a.branches, a.defs, {}).value);
  }

  lemma ActionIsAccepted(v: Json, tools: seq<ToolSpec>, answerOnly: bool, p: string -> bool) returns (i: nat)
    requires DistinctNames(tools) && Compatible(tools) && forall i :: 0 <= i < |tools| ==> GoodTool(tools[i])
    requires IsAction(v, tools, answerOnly, p)
    ensures i < BranchCount(tools, answerOnly)
    ensures Accepts(v, ActionBranches(tools, answerOnly, p)[i], Generated(tools, answerOnly, p).defs, {})
  {
    i := BranchCount(tools, answerOnly) - 1;
    if !IsAnswer(v, p, Written) { i :| i < |tools| && CallsTool(v, tools[i]); }
    GeneratedBranchExact(v, tools, answerOnly, p, i);
  }

  // The generated schema accepts the answers and, unless only an answer will do, the calls of
  // the declared tools with arguments their own schemas accept; nothing else.
  lemma GeneratedExact(v: Json, tools: seq<ToolSpec>, answerOnly: bool, p: string -> bool)
    requires DistinctNames(tools) && Compatible(tools) && forall i :: 0 <= i < |tools| ==> GoodTool(tools[i])
    ensures Accepts(v, Generated(tools, answerOnly, p).Root(), Generated(tools, answerOnly, p).defs, {})
       <==> IsAction(v, tools, answerOnly, p)
  {
    if IsAction(v, tools, answerOnly, p) {
      var i := ActionIsAccepted(v, tools, answerOnly, p);
      GeneratedBranchIsTheOne(v, tools, answerOnly, p, i);
    } else if Accepts(v, Generated(tools, answerOnly, p).Root(), Generated(tools, answerOnly, p).defs, {}) {
      AcceptedIsAction(v, tools, answerOnly, p);
    }
  }

  // The other way: every call of a declared tool with arguments that its own schema accepts
  // can be sent by a provider, and so can every answer.
  lemma EveryBranchCanBeSent(v: Json, tools: seq<ToolSpec>, answerOnly: bool, p: string -> bool, t: Target, i: nat)
    requires DistinctNames(tools) && Compatible(tools) && i < BranchCount(tools, answerOnly)
    requires forall j :: 0 <= j < |tools| ==> GoodTool(tools[j]) && ToolCompiles(tools[j], t)
    requires if !answerOnly && i < |tools| then CallsTool(v, tools[i]) else IsAnswer(v, p, Written)
    ensures var a := Generated(tools, answerOnly, p);
      && PlainAction(a) && CompilesStrictly(a, t) && Accepts(v, a.Root(), a.defs, {})
      && AcceptingBranch(v, a.branches, a.defs, {}) == Some(i)
      && MaySend(Complete(v, a.Root(), a.defs, t, {}), a, t)
  {
    GeneratedIsGuided(tools, answerOnly, p, t);
    GeneratedCompiles(tools, answerOnly, p, t);
    GeneratedBranchExact(v, tools, answerOnly, p, i);
    GeneratedBranchIsTheOne(v, tools, answerOnly, p, i);
    EveryActionCanBeSent(v, Generated(tools, answerOnly, p), t);
  }

  lemma EveryToolCallCanBeSent(tools: seq<ToolSpec>, i: nat, arguments: Json, purpose: string, p: string -> bool,
                               t: Target)
    requires DistinctNames(tools) && Compatible(tools) && i < |tools| && PurposeFits(purpose)
    requires forall j :: 0 <= j < |tools| ==> GoodTool(tools[j]) && ToolCompiles(tools[j], t)
    requires Accepts(arguments, tools[i].arguments, tools[i].definitions, {})
    ensures var a, call := Generated(tools, false, p), ToolCall(tools[i].name, arguments, purpose);
      Accepts(call, a.Root(), a.defs, {}) && MaySend(Complete(call, a.Root(), a.defs, t, {}), a, t)
  {
    ToolCallCalls(tools[i], arguments, purpose);
    EveryBranchCanBeSent(ToolCall(tools[i].name, arguments, purpose), tools, false, p, t, i);
  }

  lemma TaggedActionFollows(a: Action, t: Target)
    requires Tagged(a.branches) && PlainAction(a)
    ensures FollowsSent(a.branches, a.defs, t, {}) && FollowsSource(a.branches, a.defs, {})
  {
    TaggedIsFollowed(a.branches, a.defs, t);
  }

  lemma GeneratedFollows(tools: seq<ToolSpec>, answerOnly: bool, p: string -> bool, t: Target)
    requires DistinctNames(tools) && Compatible(tools) && forall j :: 0 <= j < |tools| ==> GoodTool(tools[j])
    ensures var a := Generated(tools, answerOnly, p);
      FollowsSent(a.branches, a.defs, t, {}) && FollowsSource(a.branches, a.defs, {})
  {
    var a := Generated(tools, answerOnly, p);
    GeneratedBranchesAreTagged(tools, answerOnly, p);
    GeneratedIsGuided(tools, answerOnly, p, t);
    TaggedActionFollows(a, t);
  }

  lemma GeneratedArrivesBy(tools: seq<ToolSpec>, answerOnly: bool, p: string -> bool, t: Target, i: nat)
    requires DistinctNames(tools) && Compatible(tools) && i < BranchCount(tools, answerOnly)
    requires forall j :: 0 <= j < |tools| ==> GoodTool(tools[j])
    requires !answerOnly && i < |tools| ==> FollowsWhatIsSent(tools[i], t) && FollowsWhatIsMeant(tools[i])
    ensures ArrivesBy(Generated(tools, answerOnly, p), t, i)
  {
    GeneratedFollows(tools, answerOnly, p, t);
    GeneratedBranchIsGuided(tools, answerOnly, p, t, i);
  }

  // Every answer can be sent by a provider, and arrives as itself, whatever the tools are.
  lemma EveryAnswerArrives(v: Json, tools: seq<ToolSpec>, answerOnly: bool, p: string -> bool, t: Target)
    requires DistinctNames(tools) && Compatible(tools) && IsAnswer(v, p, Written)
    requires forall j :: 0 <= j < |tools| ==> GoodTool(tools[j]) && ToolCompiles(tools[j], t)
    ensures var a := Generated(tools, answerOnly, p);
      MaySend(Complete(v, a.Root(), a.defs, t, {}), a, t) && Arrived(v, a, t) == v
  {
    var i := BranchCount(tools, answerOnly) - 1;
    EveryBranchCanBeSent(v, tools, answerOnly, p, t, i);
    GeneratedArrivesBy(tools, answerOnly, p, t, i);
    BranchArrives(v, Generated(tools, answerOnly, p), t, i);
    AnswerIsNullFree(v, p, Written);
  }

  lemma LeavesPruneAway(v: Json, text: string, facets: seq<Facet>, defs: Definitions)
    requires v.JStr?
    ensures Prune(v, ConstantNode(text), defs, {}) == v && Prune(v, TextNode(facets), defs, {}) == v
  {}

  lemma PrunedObject(m: map<string, Json>, w: map<string, Json>, properties: map<string, Schema>, required: set<string>,
                     defs: Definitions)
    requires m.Keys <= required && m.Keys <= properties.Keys && w.Keys == m.Keys
    requires forall k :: k in m ==> Prune(m[k], properties[k], defs, {}) == w[k]
    ensures Prune(JObj(m), ObjectNode(properties, required), defs, {}) == JObj(w)
  {
    var s := ObjectNode(properties, required);
    assert s.Required() == required && s.properties.of == properties;
    var p := Prune(JObj(m), s, defs, {});
    assert p.members == w;
  }

  lemma PrunedCallMember(tool: ToolSpec, arguments: Json, purpose: string, merged: Definitions, k: string)
    requires GoodTool(tool) && Holds(merged, tool) && k in ToolCall(tool.name, arguments, purpose).members
    ensures k in ToolBranch(tool).properties.of
    ensures Prune(ToolCall(tool.name, arguments, purpose).members[k], ToolBranch(tool).properties.of[k], merged, {})
         == ToolCall(tool.name, Prune(arguments, tool.arguments, tool.definitions, {}), purpose).members[k]
  {
    if k == "arguments" {
      assert Linked(tool.name, {}) == {};
      GoodToolIsLinkFree(tool);
      LinkingKeepsPruning(arguments, tool.arguments, tool, merged, {});
    } else if k == "tool" {
      LeavesPruneAway(JStr(tool.name), tool.name, [], merged);
    } else if k == "purpose" {
      LeavesPruneAway(JStr(purpose), "", [MinLength(1), MaxLength(300)], merged);
    } else {
      LeavesPruneAway(JStr("tool"), "tool", [], merged);
    }
  }

  // Pruning a call against its branch prunes the arguments against the tool's own schema.
  lemma PrunedCall(tool: ToolSpec, arguments: Json, purpose: string, merged: Definitions)
    requires GoodTool(tool) && Holds(merged, tool)
    ensures Prune(ToolCall(tool.name, arguments, purpose), ToolBranch(tool), merged, {})
         == ToolCall(tool.name, Prune(arguments, tool.arguments, tool.definitions, {}), purpose)
  {
    var m := ToolCall(tool.name, arguments, purpose).members;
    var w := ToolCall(tool.name, Prune(arguments, tool.arguments, tool.definitions, {}), purpose).members;
    var properties, required := ToolBranch(tool).properties.of, ToolBranch(tool).required.value;
    CallKeys(tool, arguments, purpose);
    CallKeys(tool, Prune(arguments, tool.arguments, tool.definitions, {}), purpose);
    forall k | k in m
      ensures Prune(m[k], properties[k], merged, {}) == w[k]
    {
      PrunedCallMember(tool, arguments, purpose, merged, k);
    }
    PrunedObject(m, w, properties, required, merged);
  }

  lemma CallKeys(tool: ToolSpec, arguments: Json, purpose: string)
    ensures ToolCall(tool.name, arguments, purpose).members.Keys
         == ToolBranch(tool).required.value == ToolBranch(tool).properties.of.Keys
  {}

  lemma ToolCallArrivesPruned(tools: seq<ToolSpec>, i: nat, arguments: Json, purpose: string, p: string -> bool,
                              t: Target)
    requires DistinctNames(tools) && Compatible(tools) && i < |tools| && PurposeFits(purpose)
    requires forall j :: 0 <= j < |tools| ==> GoodTool(tools[j]) && ToolCompiles(tools[j], t)
    requires FollowsWhatIsSent(tools[i], t) && FollowsWhatIsMeant(tools[i])
    requires Accepts(arguments, tools[i].arguments, tools[i].definitions, {})
    ensures Arrived(ToolCall(tools[i].name, arguments, purpose), Generated(tools, false, p), t)
         == ToolCall(tools[i].name, Prune(arguments, tools[i].arguments, tools[i].definitions, {}), purpose)
  {
    var a, call := Generated(tools, false, p), ToolCall(tools[i].name, arguments, purpose);
    ToolCallCalls(tools[i], arguments, purpose);
    EveryBranchCanBeSent(call, tools, false, p, t, i);
    GeneratedArrivesBy(tools, false, p, t, i);
    BranchArrives(call, a, t, i);
    CompatibleMergeHolds(tools, i);
    BranchAt(tools, false, p, i);
    assert PrunesAlike(call, a.branches, i, a.defs, {});
    PruneIgnoresExclusivity(call, a.exclusive, a.branches, a.defs, {});
    PrunedCall(tools[i], arguments, purpose, a.defs);
  }

  // And it arrives as the same call, its arguments pruned as the tool's own schema would
  // prune them: without some of their null members, and as itself when they have none.
  lemma EveryToolCallArrives(tools: seq<ToolSpec>, i: nat, arguments: Json, purpose: string, p: string -> bool,
                             t: Target) returns (pruned: Json)
    requires DistinctNames(tools) && Compatible(tools) && i < |tools| && PurposeFits(purpose)
    requires forall j :: 0 <= j < |tools| ==> GoodTool(tools[j]) && ToolCompiles(tools[j], t)
    requires FollowsWhatIsSent(tools[i], t) && FollowsWhatIsMeant(tools[i])
    requires Accepts(arguments, tools[i].arguments, tools[i].definitions, {})
    ensures Arrived(ToolCall(tools[i].name, arguments, purpose), Generated(tools, false, p), t)
         == ToolCall(tools[i].name, pruned, purpose)
    ensures pruned == Prune(arguments, tools[i].arguments, tools[i].definitions, {})
    ensures OnlyNullsRemoved(arguments, pruned)
    ensures NullFree(arguments) ==>
      Arrived(ToolCall(tools[i].name, arguments, purpose), Generated(tools, false, p), t)
        == ToolCall(tools[i].name, arguments, purpose)
  {
    pruned := Prune(arguments, tools[i].arguments, tools[i].definitions, {});
    ToolCallArrivesPruned(tools, i, arguments, purpose, p, t);
    PruneRemovesOnlyNulls(arguments, tools[i].arguments, tools[i].definitions, {});
    if NullFree(arguments) { NullFreeIsNotPruned(arguments, tools[i].arguments, tools[i].definitions, {}); }
  }
}
