// The action schema the policy is bound to: one branch per declared tool and one to answer.
module ActionSchemaBuilder {
  import opened JsonValues
  import opened ActionSchemas
  import opened SchemaCompiler
  import opened SchemaExclusion
  import opened SchemaPruning
  import opened SchemaLinking

  function ConstantNode(text: string): (r: Schema)
  {
    Node(NoType, Some(JStr(text)), None, [], NoItems, NoProperties, None, Unstated)
  }

  function TextNode(facets: seq<Facet>): (r: Schema)
  {
    Node(OneType(TString), None, None, facets, NoItems, NoProperties, None, Unstated)
  }

  function ArrayNode(each: Schema): (r: Schema)
  {
    Node(OneType(TArray), None, None, [Default(JArr([]))], Items(each), NoProperties, None, Unstated)
  }

  function ObjectNode(properties: map<string, Schema>, required: set<string>): (r: Schema)
  {
    Node(OneType(TObject), None, None, [], NoItems, Properties(properties), Some(required), Closed)
  }

  function EvidenceNode(observationId: string -> bool): (r: Schema)
  {
    ObjectNode(map["observation_id" := TextNode([Pattern(observationId)]),
                   "supports" := TextNode([MinLength(1), MaxLength(300)])],
               {"observation_id", "supports"})
  }

  const STATUSES: seq<Json> := [JStr("answered"), JStr("insufficient_evidence")]

  function AnswerBranch(observationId: string -> bool): (r: Schema)
  {
    ObjectNode(map["type" := ConstantNode("answer"),
                   "status" := Node(OneType(TString), None, Some(STATUSES), [], NoItems, NoProperties, None, Unstated),
                   "answer" := TextNode([MinLength(1), MaxLength(8000)]),
                   "evidence" := ArrayNode(EvidenceNode(observationId)),
                   "uncertainties" := ArrayNode(TextNode([MinLength(1)]))],
               {"type", "status", "answer"})
  }

  function ToolBranch(tool: ToolSpec): (r: Schema)
  {
    ObjectNode(map["type" := ConstantNode("tool"),
                   "tool" := ConstantNode(tool.name),
                   "arguments" := Embedded(tool.arguments, tool),
                   "purpose" := TextNode([MinLength(1), MaxLength(300)])],
               {"type", "tool", "arguments", "purpose"})
  }

  function ToolBranches(tools: seq<ToolSpec>): (r: seq<Schema>)
    ensures |r| == |tools|
  {
    if tools == [] then []
    else ToolBranches(tools[..|tools| - 1]) + [ToolBranch(tools[|tools| - 1])]
  }

  lemma {:induction false} ToolBranchAt(tools: seq<ToolSpec>, i: nat)
    requires i < |tools|
    ensures ToolBranches(tools)[i] == ToolBranch(tools[i])
  {
    if i < |tools| - 1 { ToolBranchAt(tools[..|tools| - 1], i); }
  }

  function BranchCount(tools: seq<ToolSpec>, answerOnly: bool): (r: nat)
  {
    (if answerOnly then 0 else |tools|) + 1
  }

  function ActionBranches(tools: seq<ToolSpec>, answerOnly: bool, observationId: string -> bool): (r: seq<Schema>)
    ensures |r| == BranchCount(tools, answerOnly)
  {
    (if answerOnly then [] else ToolBranches(tools)) + [AnswerBranch(observationId)]
  }

  function Declared(tools: seq<ToolSpec>): (r: set<string>)
  {
    set j | 0 <= j < |tools| :: tools[j].name
  }

  lemma BuildOneMore(tools: seq<ToolSpec>, i: nat)
    requires i < |tools|
    ensures Merge(tools[..i + 1]) == Merge(tools[..i]) + Contribution(tools[i])
    ensures ToolBranches(tools[..i + 1]) == ToolBranches(tools[..i]) + [ToolBranch(tools[i])]
  {
    var longer := tools[..i + 1];
    assert longer[..|longer| - 1] == tools[..i] && longer[|longer| - 1] == tools[i];
  }

  lemma DeclareOneMore(tools: seq<ToolSpec>, i: nat)
    requires i < |tools|
    ensures Declared(tools[..i + 1]) == Declared(tools[..i]) + {tools[i].name}
    ensures DistinctNames(tools[..i + 1]) <==> DistinctNames(tools[..i]) && tools[i].name !in Declared(tools[..i])
  {
    var shorter, longer := tools[..i], tools[..i + 1];
    assert longer == shorter + [tools[i]];
  }

  lemma DistinctStart(tools: seq<ToolSpec>, i: nat)
    requires i <= |tools| && DistinctNames(tools)
    ensures DistinctNames(tools[..i])
  {}

  // The tool loop, which fills both accumulators in step; not ok when a tool is declared
  // twice.
  method CollectTools(tools: seq<ToolSpec>)
    returns (ok: bool, branches: seq<Schema>, definitions: Definitions)
    ensures ok <==> DistinctNames(tools)
    ensures ok ==> branches == ToolBranches(tools) && definitions == Merge(tools)
  {
    branches, definitions := [], map[];
    var names: set<string> := {};
    for i := 0 to |tools|
      invariant names == Declared(tools[..i]) && DistinctNames(tools[..i])
      invariant branches == ToolBranches(tools[..i]) && definitions == Merge(tools[..i])
    {
      DeclareOneMore(tools, i);
      BuildOneMore(tools, i);
      if tools[i].name in names {
        if DistinctNames(tools) { DistinctStart(tools, i + 1); }
        return false, branches, definitions;
      }
      names := names + {tools[i].name};
      branches, definitions := branches + [ToolBranch(tools[i])], definitions + Contribution(tools[i]);
    }
    assert tools[..|tools|] == tools;
    ok := true;
  }

  // The branches and definitions of the whole action schema.
  method BuildActionSchema(tools: seq<ToolSpec>, answerOnly: bool, observationId: string -> bool)
    returns (ok: bool, branches: seq<Schema>, definitions: Definitions)
    ensures ok <==> answerOnly || DistinctNames(tools)
    ensures ok ==> branches == ActionBranches(tools, answerOnly, observationId)
    ensures ok ==> definitions == if answerOnly then map[] else Merge(tools)
  {
    ok, branches, definitions := true, [], map[];
    if !answerOnly {
      ok, branches, definitions := CollectTools(tools);
    }
    branches := branches + [AnswerBranch(observationId)];
  }

  /******* The generated union is decidable for the compiler and for pruning *******/

  ghost predicate DifferAt(a: Schema, b: Schema, k: string)
  {
    k in Consts(a) && k in Consts(b) && !PyEq(Consts(a)[k], Consts(b)[k])
  }

  ghost predicate Differ(a: Schema, b: Schema)
  {
    exists k :: DifferAt(a, b, k)
  }

  ghost predicate Tagged(branches: seq<Schema>)
  {
    && (forall i :: 0 <= i < |branches| ==> branches[i].IsObject() && branches[i].typ == OneType(TObject))
    && (forall i :: 0 <= i < |branches| ==> Consts(branches[i]) != map[])
    && (forall i, j :: 0 <= i < |branches| && 0 <= j < |branches| && i != j ==>
          Differ(branches[i], branches[j]))
  }

  lemma TaggedIsExclusive(branches: seq<Schema>, t: Target)
    requires Tagged(branches)
    ensures MutuallyExclusive(LowerSeq(branches, t))
  {
    var l := LowerSeq(branches, t);
    forall i | 0 <= i < |l|
      ensures Consts(l[i]) == Consts(branches[i])
    {
      LowerKeepsConsts(branches[i], t);
    }
    forall i, j | 0 <= i < j < |l|
      ensures Exclusive(l[i], l[j]) && Consts(l[i]) != Consts(l[j])
    {
      var k :| DifferAt(branches[j], branches[i], k);
      assert k in Consts(l[i]) && k in Consts(l[j]) && !PyEq(Consts(l[j])[k], Consts(l[i])[k]);
      PyEqReflexive(Consts(l[i])[k]);
    }
  }

  lemma TaggedIsDecidable(branches: seq<Schema>)
    requires Tagged(branches)
    ensures forall i :: 0 <= i < |branches| ==> ContainerNode(branches[i])
    ensures forall i, j :: 0 <= i < |branches| && 0 <= j < |branches| && i != j ==> Misses(branches[i], branches[j])
  {
    forall i, j | 0 <= i < |branches| && 0 <= j < |branches| && i != j
      ensures Misses(branches[i], branches[j])
    {
      var k :| DifferAt(branches[i], branches[j], k);
      assert k in BranchProperties(branches[i]);
      assert LacksAConst(branches[i], branches[j]);
    }
  }

  lemma ConstMember(properties: map<string, Schema>, required: set<string>, k: string, text: string)
    requires k in properties && k in required && properties[k] == ConstantNode(text)
    ensures k in Consts(ObjectNode(properties, required))
    ensures Consts(ObjectNode(properties, required))[k] == JStr(text)
  {
    assert ObjectNode(properties, required).Props() == properties;
  }

  lemma ToolTags(tool: ToolSpec)
    ensures "type" in Consts(ToolBranch(tool)) && Consts(ToolBranch(tool))["type"] == JStr("tool")
    ensures "tool" in Consts(ToolBranch(tool)) && Consts(ToolBranch(tool))["tool"] == JStr(tool.name)
  {
    var b := ToolBranch(tool);
    ConstMember(b.properties.of, b.required.value, "type", "tool");
    ConstMember(b.properties.of, b.required.value, "tool", tool.name);
  }

  lemma AnswerTag(p: string -> bool)
    ensures "type" in Consts(AnswerBranch(p)) && Consts(AnswerBranch(p))["type"] == JStr("answer")
  {
    var b := AnswerBranch(p);
    ConstMember(b.properties.of, b.required.value, "type", "answer");
  }

  lemma ToolsDiffer(a: ToolSpec, b: ToolSpec)
    requires a.name != b.name
    ensures DifferAt(ToolBranch(a), ToolBranch(b), "tool")
  {
    ToolTags(a);
    ToolTags(b);
  }

  lemma ToolAndAnswerDiffer(a: ToolSpec, p: string -> bool)
    ensures DifferAt(ToolBranch(a), AnswerBranch(p), "type") && DifferAt(AnswerBranch(p), ToolBranch(a), "type")
  {
    ToolTags(a);
    AnswerTag(p);
    assert "tool" != "answer";
  }

  lemma SomeConst(s: Schema, k: string)
    requires k in Consts(s)
    ensures Consts(s) != map[]
  {}

  lemma BranchAt(tools: seq<ToolSpec>, answerOnly: bool, p: string -> bool, i: nat)
    requires i < BranchCount(tools, answerOnly)
    ensures ActionBranches(tools, answerOnly, p)[i]
         == if !answerOnly && i < |tools| then ToolBranch(tools[i]) else AnswerBranch(p)
  {
    if !answerOnly && i < |tools| { ToolBranchAt(tools, i); }
  }

  lemma EachBranchIsTagged(tools: seq<ToolSpec>, answerOnly: bool, p: string -> bool, i: nat)
    requires i < BranchCount(tools, answerOnly)
    ensures var b := ActionBranches(tools, answerOnly, p)[i];
      b.IsObject() && b.typ == OneType(TObject) && Consts(b) != map[]
  {
    BranchAt(tools, answerOnly, p, i);
    AnswerTag(p);
    if !answerOnly && i < |tools| { ToolTags(tools[i]); }
    SomeConst(ActionBranches(tools, answerOnly, p)[i], "type");
  }

  lemma EachPairDiffers(tools: seq<ToolSpec>, answerOnly: bool, p: string -> bool, i: nat, j: nat)
    requires DistinctNames(tools) && i != j
    requires i < BranchCount(tools, answerOnly) && j < BranchCount(tools, answerOnly)
    ensures Differ(ActionBranches(tools, answerOnly, p)[i], ActionBranches(tools, answerOnly, p)[j])
  {
    BranchAt(tools, answerOnly, p, i);
    BranchAt(tools, answerOnly, p, j);
    if i < |tools| && j < |tools| {
      assert tools[i].name != tools[j].name;
      ToolsDiffer(tools[i], tools[j]);
    } else {
      ToolAndAnswerDiffer(tools[if i < j then i else j], p);
    }
  }

  // Tools declared once each give a union whose branches a shared constant tells apart.
  lemma GeneratedBranchesAreTagged(tools: seq<ToolSpec>, answerOnly: bool, p: string -> bool)
    requires DistinctNames(tools)
    ensures Tagged(ActionBranches(tools, answerOnly, p))
  {
    var branches := ActionBranches(tools, answerOnly, p);
    forall i | 0 <= i < |branches|
      ensures branches[i].IsObject() && branches[i].typ == OneType(TObject) && Consts(branches[i]) != map[]
    {
      EachBranchIsTagged(tools, answerOnly, p, i);
    }
    forall i, j | 0 <= i < |branches| && 0 <= j < |branches| && i != j
      ensures Differ(branches[i], branches[j])
    {
      EachPairDiffers(tools, answerOnly, p, i, j);
    }
  }

  // So the compiler admits it, and pruning decides it at the root.
  lemma GeneratedSchemaIsAdmitted(tools: seq<ToolSpec>, answerOnly: bool, p: string -> bool, t: Target)
    requires DistinctNames(tools)
    ensures var branches := ActionBranches(tools, answerOnly, p);
      && MutuallyExclusive(LowerSeq(branches, t))
      && (forall i :: 0 <= i < |branches| ==> ContainerNode(branches[i]))
      && (forall i, j :: 0 <= i < |branches| && 0 <= j < |branches| && i != j ==> Misses(branches[i], branches[j]))
  {
    GeneratedBranchesAreTagged(tools, answerOnly, p);
    TaggedIsExclusive(ActionBranches(tools, answerOnly, p), t);
    TaggedIsDecidable(ActionBranches(tools, answerOnly, p));
  }
}
