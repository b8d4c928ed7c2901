// What the generated branches accept, said of the JSON values alone: the one form of an
// answer, and the one form of a tool call.
module ActionForms {
  import opened JsonValues
  import opened ActionSchemas
  import opened SchemaCompiler
  import opened SchemaConservation
  import opened SchemaLinking
  import opened ActionSchemaBuilder

  // A schema as it is written, or as it is restored for a target, which drops text lengths
  // and, unless it is OpenAI's, patterns.
  datatype Reading = Written | Restored(t: Target)
  {
    predicate HasLengths() {
      Written?
    }

    predicate HasPatterns() {
      Written? || t.OpenAI?
    }
  }

  function Read(s: Schema, r: Reading): (w: Schema)
  {
    match r
    case Written => s
    case Restored(t) => Restore(s, t)
  }

  function ReadFacets(facets: seq<Facet>, r: Reading): (w: seq<Facet>)
  {
    match r
    case Written => facets
    case Restored(t) => Kept(facets, t)
  }

  /******* The forms *******/

  predicate IsText(v: Json, r: Reading)
  {
    v.JStr? && (r.HasLengths() ==> v.s != "")
  }

  predicate IsTextUpTo(v: Json, most: nat, r: Reading)
  {
    IsText(v, r) && (r.HasLengths() ==> |v.s| <= most)
  }

  predicate IsEvidence(v: Json, observationId: string -> bool, r: Reading)
  {
    && v.JObj? && v.members.Keys == {"observation_id", "supports"}
    && v.members["observation_id"].JStr?
    && (r.HasPatterns() ==> observationId(v.members["observation_id"].s))
    && IsTextUpTo(v.members["supports"], 300, r)
  }

  predicate IsAnswer(v: Json, observationId: string -> bool, r: Reading)
  {
    && v.JObj?
    && {"type", "status", "answer"} <= v.members.Keys
    && v.members.Keys <= {"type", "status", "answer", "evidence", "uncertainties"}
    && v.members["type"] == JStr("answer")
    && v.members["status"] in {JStr("answered"), JStr("insufficient_evidence")}
    && IsTextUpTo(v.members["answer"], 8000, r)
    && ("evidence" in v.members ==>
          && v.members["evidence"].JArr?
          && forall i :: 0 <= i < |v.members["evidence"].items| ==>
               IsEvidence(v.members["evidence"].items[i], observationId, r))
    && ("uncertainties" in v.members ==>
          && v.members["uncertainties"].JArr?
          && forall i :: 0 <= i < |v.members["uncertainties"].items| ==> IsText(v.members["uncertainties"].items[i], r))
  }

  // `arguments` are judged elsewhere.
  predicate IsCall(v: Json, tool: string, r: Reading)
  {
    && v.JObj? && v.members.Keys == {"type", "tool", "arguments", "purpose"}
    && v.members["type"] == JStr("tool") && v.members["tool"] == JStr(tool)
    && IsTextUpTo(v.members["purpose"], 300, r)
  }

  // An answer holds no null member, so nothing in it can be pruned.
  lemma AnswerIsNullFree(v: Json, observationId: string -> bool, r: Reading)
    requires IsAnswer(v, observationId, r)
    ensures NullFree(v)
  {
    forall k | k in v.members
      ensures !v.members[k].JNull? && NullFree(v.members[k])
    {
      assert k in {"type", "status", "answer", "evidence", "uncertainties"};
    }
  }

  /******* Leaves *******/

  lemma TextFacets(v: Json, most: nat, r: Reading)
    requires v.JStr?
    ensures (forall f :: f in ReadFacets([MinLength(1), MaxLength(most)], r) ==> FacetHolds(v, f))
       <==> IsTextUpTo(v, most, r)
    ensures (forall f :: f in ReadFacets([MinLength(1)], r) ==> FacetHolds(v, f)) <==> IsText(v, r)
  {
    var both, one := ReadFacets([MinLength(1), MaxLength(most)], r), ReadFacets([MinLength(1)], r);
    assert MinLength(1) in [MinLength(1), MaxLength(most)] && MaxLength(most) in [MinLength(1), MaxLength(most)];
    assert forall f :: f in both <==> r.HasLengths() && (f == MinLength(1) || f == MaxLength(most));
    assert forall f :: f in one <==> r.HasLengths() && f == MinLength(1);
    assert r.HasLengths() ==> MinLength(1) in both && MaxLength(most) in both && MinLength(1) in one;
  }

  lemma PatternFacet(v: Json, found: string -> bool, r: Reading)
    requires v.JStr?
    ensures (forall f :: f in ReadFacets([Pattern(found)], r) ==> FacetHolds(v, f))
       <==> (r.HasPatterns() ==> found(v.s))
  {
    var kept := ReadFacets([Pattern(found)], r);
    assert forall f :: f in kept <==> r.HasPatterns() && f == Pattern(found);
    assert r.HasPatterns() ==> Pattern(found) in kept;
  }

  lemma ReadTextExact(v: Json, facets: seq<Facet>, r: Reading, defs: Definitions)
    ensures Accepts(v, Read(TextNode(facets), r), defs, {})
       <==> v.JStr? && forall f :: f in ReadFacets(facets, r) ==> FacetHolds(v, f)
  {
    var s := Read(TextNode(facets), r);
    assert s.facets == ReadFacets(facets, r);
    assert (forall i :: 0 <= i < |s.facets| ==> FacetHolds(v, s.facets[i]))
      <==> forall f :: f in s.facets ==> FacetHolds(v, f);
  }

  lemma ReadConstantExact(v: Json, text: string, r: Reading, defs: Definitions)
    ensures Accepts(v, Read(ConstantNode(text), r), defs, {}) <==> v == JStr(text)
  {}

  lemma ReadArrayExact(v: Json, each: Schema, r: Reading, defs: Definitions)
    ensures Accepts(v, Read(ArrayNode(each), r), defs, {})
       <==> v.JArr? && forall i :: 0 <= i < |v.items| ==> Accepts(v.items[i], Read(each, r), defs, {})
  {
    var s := Read(ArrayNode(each), r);
    assert s.items == Items(Read(each, r)) && s.typ == OneType(TArray);
    assert forall f :: f in s.facets ==> f == Default(JArr([]));
    assert forall i :: 0 <= i < |s.facets| ==> s.facets[i] in s.facets;
  }

  lemma ReadObjectExact(v: Json, properties: map<string, Schema>, required: set<string>, r: Reading, defs: Definitions)
    requires required <= properties.Keys
    ensures Accepts(v, Read(ObjectNode(properties, required), r), defs, {})
       <==> (&& v.JObj? && required <= v.members.Keys <= properties.Keys
             && forall k :: k in v.members ==> Accepts(v.members[k], Read(properties[k], r), defs, {}))
  {
    var s := Read(ObjectNode(properties, required), r);
    assert ObjectNode(properties, required).Props() == properties;
    assert s.Props().Keys == properties.Keys && s.Required() == required;
    assert forall k :: k in properties ==> s.Props()[k] == Read(properties[k], r);
  }

  /******* The answer *******/

  lemma EvidenceExact(v: Json, p: string -> bool, r: Reading, defs: Definitions)
    ensures Accepts(v, Read(EvidenceNode(p), r), defs, {}) <==> IsEvidence(v, p, r)
  {
    var properties := map["observation_id" := TextNode([Pattern(p)]),
                          "supports" := TextNode([MinLength(1), MaxLength(300)])];
    ReadObjectExact(v, properties, {"observation_id", "supports"}, r, defs);
    if v.JObj? && v.members.Keys == {"observation_id", "supports"} {
      var id, supports := v.members["observation_id"], v.members["supports"];
      ReadTextExact(id, [Pattern(p)], r, defs);
      ReadTextExact(supports, [MinLength(1), MaxLength(300)], r, defs);
      if id.JStr? { PatternFacet(id, p, r); }
      if supports.JStr? { TextFacets(supports, 300, r); }
      assert properties["observation_id"] == TextNode([Pattern(p)]);
      assert properties["supports"] == TextNode([MinLength(1), MaxLength(300)]);
    }
  }

  const STATUS_NODE: Schema :=
    Node(OneType(TString), None, Some(STATUSES), [], NoItems, NoProperties, None, Unstated)

  lemma StatusExact(v: Json, r: Reading, defs: Definitions)
    ensures Accepts(v, Read(STATUS_NODE, r), defs, {}) <==> v in {JStr("answered"), JStr("insufficient_evidence")}
  {
    var s := Read(STATUS_NODE, r);
    assert s.choices == Some(STATUSES) && s.typ == OneType(TString) && s.facets == [] && s.constant.None?;
    assert STATUSES[0] == JStr("answered") && STATUSES[1] == JStr("insufficient_evidence");
    assert v == STATUSES[0] || v == STATUSES[1] ==>
        PyEq(v, STATUSES[0]) || PyEq(v, STATUSES[1]);
  }

  // What the member `k` of an answer has to be.
  predicate AnswerMember(k: string, v: Json, p: string -> bool, r: Reading)
  {
    && (k == "type" ==> v == JStr("answer"))
    && (k == "status" ==> v in {JStr("answered"), JStr("insufficient_evidence")})
    && (k == "answer" ==> IsTextUpTo(v, 8000, r))
    && (k == "evidence" ==> v.JArr? && forall i :: 0 <= i < |v.items| ==> IsEvidence(v.items[i], p, r))
    && (k == "uncertainties" ==> v.JArr? && forall i :: 0 <= i < |v.items| ==> IsText(v.items[i], r))
  }

  lemma AnswerMemberExact(k: string, v: Json, p: string -> bool, r: Reading, defs: Definitions)
    requires k in AnswerBranch(p).properties.of
    ensures Accepts(v, Read(AnswerBranch(p).properties.of[k], r), defs, {}) <==> AnswerMember(k, v, p, r)
  {
    var node := AnswerBranch(p).properties.of[k];
    if k == "type" {
      assert node == ConstantNode("answer");
      ReadConstantExact(v, "answer", r, defs);
    } else if k == "status" {
      assert node == STATUS_NODE;
      StatusExact(v, r, defs);
    } else if k == "answer" {
      assert node == TextNode([MinLength(1), MaxLength(8000)]);
      ReadTextExact(v, [MinLength(1), MaxLength(8000)], r, defs);
      if v.JStr? { TextFacets(v, 8000, r); }
    } else if k == "evidence" {
      assert node == ArrayNode(EvidenceNode(p));
      ReadArrayExact(v, EvidenceNode(p), r, defs);
      if v.JArr? {
        forall i | 0 <= i < |v.items| { EvidenceExact(v.items[i], p, r, defs); }
      }
    } else {
      assert k == "uncertainties" && node == ArrayNode(TextNode([MinLength(1)]));
      UncertaintiesExact(v, r, defs);
    }
  }

  lemma UncertaintiesExact(v: Json, r: Reading, defs: Definitions)
    ensures Accepts(v, Read(ArrayNode(TextNode([MinLength(1)])), r), defs, {})
       <==> v.JArr? && forall i :: 0 <= i < |v.items| ==> IsText(v.items[i], r)
  {
    ReadArrayExact(v, TextNode([MinLength(1)]), r, defs);
    if v.JArr? {
      forall i | 0 <= i < |v.items|
        ensures Accepts(v.items[i], Read(TextNode([MinLength(1)]), r), defs, {}) <==> IsText(v.items[i], r)
      {
        ReadTextExact(v.items[i], [MinLength(1)], r, defs);
        if v.items[i].JStr? { TextFacets(v.items[i], 1, r); }
      }
    }
  }

  lemma AnswerKeys(p: string -> bool)
    ensures AnswerBranch(p).properties.of.Keys == {"type", "status", "answer", "evidence", "uncertainties"}
    ensures AnswerBranch(p).required.value == {"type", "status", "answer"}
  {}

  // The answer branch accepts the answers and nothing else, as it is written and as it is
  // restored.
  lemma AnswerExact(v: Json, p: string -> bool, r: Reading, defs: Definitions)
    ensures Accepts(v, Read(AnswerBranch(p), r), defs, {}) <==> IsAnswer(v, p, r)
  {
    var properties, required := AnswerBranch(p).properties.of, AnswerBranch(p).required.value;
    AnswerKeys(p);
    ReadObjectExact(v, properties, required, r, defs);
    if v.JObj? && required <= v.members.Keys <= properties.Keys {
      forall k | k in v.members
        ensures Accepts(v.members[k], Read(properties[k], r), defs, {}) <==> AnswerMember(k, v.members[k], p, r)
      {
        AnswerMemberExact(k, v.members[k], p, r, defs);
      }
      AnswerMembers(v, p, r);
    }
  }

  lemma AnswerMembers(v: Json, p: string -> bool, r: Reading)
    requires v.JObj? && {"type", "status", "answer"} <= v.members.Keys
    requires v.members.Keys <= {"type", "status", "answer", "evidence", "uncertainties"}
    ensures IsAnswer(v, p, r) <==> forall k :: k in v.members ==> AnswerMember(k, v.members[k], p, r)
  {
    var m := v.members;
    assert "type" in m && "status" in m && "answer" in m;
    if forall k :: k in m ==> AnswerMember(k, m[k], p, r) {
      assert AnswerMember("type", m["type"], p, r) && AnswerMember("status", m["status"], p, r);
      assert AnswerMember("answer", m["answer"], p, r);
      assert "evidence" in m ==> AnswerMember("evidence", m["evidence"], p, r);
      assert "uncertainties" in m ==> AnswerMember("uncertainties", m["uncertainties"], p, r);
    }
  }

  /******* The tool call *******/

  lemma CallKeysExact(tool: ToolSpec)
    ensures ToolBranch(tool).properties.of.Keys == {"type", "tool", "arguments", "purpose"}
         == ToolBranch(tool).required.value
  {}

  lemma PurposeExact(v: Json, r: Reading, defs: Definitions)
    ensures Accepts(v, Read(TextNode([MinLength(1), MaxLength(300)]), r), defs, {}) <==> IsTextUpTo(v, 300, r)
  {
    ReadTextExact(v, [MinLength(1), MaxLength(300)], r, defs);
    if v.JStr? { TextFacets(v, 300, r); }
  }

  lemma CallNodes(tool: ToolSpec)
    ensures var of := ToolBranch(tool).properties.of;
      && "type" in of && of["type"] == ConstantNode("tool")
      && "tool" in of && of["tool"] == ConstantNode(tool.name)
      && "arguments" in of && of["arguments"] == Embedded(tool.arguments, tool)
      && "purpose" in of && of["purpose"] == TextNode([MinLength(1), MaxLength(300)])
  {}

  // What the member `k` of a call has to be.
  ghost predicate CallMember(k: string, v: Json, tool: ToolSpec, r: Reading, defs: Definitions)
  {
    && (k == "type" ==> v == JStr("tool"))
    && (k == "tool" ==> v == JStr(tool.name))
    && (k == "arguments" ==> Accepts(v, Read(Embedded(tool.arguments, tool), r), defs, {}))
    && (k == "purpose" ==> IsTextUpTo(v, 300, r))
  }

  lemma CallNodeExact(k: string, node: Schema, v: Json, tool: ToolSpec, r: Reading, defs: Definitions)
    requires k == "type" ==> node == ConstantNode("tool")
    requires k == "tool" ==> node == ConstantNode(tool.name)
    requires k == "arguments" ==> node == Embedded(tool.arguments, tool)
    requires k == "purpose" ==> node == TextNode([MinLength(1), MaxLength(300)])
    requires k in {"type", "tool", "arguments", "purpose"}
    ensures Accepts(v, Read(node, r), defs, {}) <==> CallMember(k, v, tool, r, defs)
  {
    if k == "type" {
      ReadConstantExact(v, "tool", r, defs);
    } else if k == "tool" {
      ReadConstantExact(v, tool.name, r, defs);
    } else if k == "purpose" {
      PurposeExact(v, r, defs);
    }
  }

  lemma CallMemberExact(k: string, v: Json, tool: ToolSpec, r: Reading, defs: Definitions)
    requires k in ToolBranch(tool).properties.of
    ensures Accepts(v, Read(ToolBranch(tool).properties.of[k], r), defs, {}) <==> CallMember(k, v, tool, r, defs)
  {
    CallNodes(tool);
    CallKeysExact(tool);
    CallNodeExact(k, ToolBranch(tool).properties.of[k], v, tool, r, defs);
  }

  lemma CallMembers(v: Json, tool: ToolSpec, r: Reading, defs: Definitions)
    requires v.JObj? && v.members.Keys == {"type", "tool", "arguments", "purpose"}
    ensures (forall k :: k in v.members ==> CallMember(k, v.members[k], tool, r, defs))
       <==> (&& IsCall(v, tool.name, r)
             && Accepts(v.members["arguments"], Read(Embedded(tool.arguments, tool), r), defs, {}))
  {
    var m := v.members;
    assert "type" in m && "tool" in m && "arguments" in m && "purpose" in m;
    if forall k :: k in m ==> CallMember(k, m[k], tool, r, defs) {
      assert CallMember("type", m["type"], tool, r, defs) && CallMember("tool", m["tool"], tool, r, defs);
      assert CallMember("purpose", m["purpose"], tool, r, defs);
      assert CallMember("arguments", m["arguments"], tool, r, defs);
    }
  }

  // A tool's branch accepts the calls of that tool with arguments its linked schema accepts.
  lemma CallExact(v: Json, tool: ToolSpec, r: Reading, defs: Definitions)
    ensures Accepts(v, Read(ToolBranch(tool), r), defs, {})
       <==> (&& IsCall(v, tool.name, r)
             && Accepts(v.members["arguments"], Read(Embedded(tool.arguments, tool), r), defs, {}))
  {
    var properties, required := ToolBranch(tool).properties.of, ToolBranch(tool).required.value;
    CallKeysExact(tool);
    ReadObjectExact(v, properties, required, r, defs);
    if v.JObj? && v.members.Keys == properties.Keys {
      forall k | k in v.members
        ensures Accepts(v.members[k], Read(properties[k], r), defs, {}) <==> CallMember(k, v.members[k], tool, r, defs)
      {
        CallMemberExact(k, v.members[k], tool, r, defs);
      }
      CallMembers(v, tool, r, defs);
    }
  }
}
