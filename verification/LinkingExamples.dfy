// Constants that hold a link: the linker renames it, and the linked schema asks for another
// value. Exactly when that happens to a constant, and two families of schemas it spoils.
module LinkingExamples {
  import opened JsonValues
  import opened ActionSchemas
  import opened SchemaCompiler
  import opened SchemaExclusion
  import opened SchemaRoundTrip
  import opened LinkedValues
  import opened SchemaLinking
  import opened ActionSchemaBuilder

  lemma ConstantMeans(v: Json, c: Json, defs: Definitions, seen: set<string>)
    ensures Accepts(v, ConstantSchema(c), defs, seen) <==> PyEq(v, c)
  {}

  lemma ConstantIsLinked(c: Json, tool: ToolSpec)
    ensures Embedded(ConstantSchema(c), tool) == ConstantSchema(RewriteValue(c, References(tool)))
  {
    assert RewriteFacets([], References(tool)) == [];
  }

  // The linked schema accepts what the tool's own does.
  ghost predicate KeepsMeaning(s: Schema, tool: ToolSpec, merged: Definitions)
  {
    forall v :: Accepts(v, s, tool.definitions, {}) <==> Accepts(v, Embedded(s, tool), merged, {})
  }

  // Linking keeps the meaning of a constant exactly when the constant holds no link.
  lemma ConstantLinkingExact(c: Json, tool: ToolSpec, merged: Definitions)
    ensures KeepsMeaning(ConstantSchema(c), tool, merged) <==> Unlinked(c, References(tool))
  {
    var r := RewriteValue(c, References(tool));
    ReferencesRename(tool);
    RewritingExact(c, References(tool));
    ConstantIsLinked(c, tool);
    forall v
      ensures Accepts(v, ConstantSchema(c), tool.definitions, {}) <==> PyEq(v, c)
      ensures Accepts(v, ConstantSchema(r), merged, {}) <==> PyEq(v, r)
    {
      ConstantMeans(v, c, tool.definitions, {});
      ConstantMeans(v, r, merged, {});
    }
    PyEqReflexive(c);
    if KeepsMeaning(ConstantSchema(c), tool, merged) {
      assert Accepts(c, ConstantSchema(c), tool.definitions, {});
      assert Accepts(c, ConstantSchema(r), merged, {});
    }
  }

  // A link to the definition of this name.
  function LinkTo(name: string): (v: Json)
  {
    JObj(map[REF_KEY := JStr(REF_PREFIX + PointerToken(name))])
  }

  lemma LocalLinkIsNamed(tool: ToolSpec, name: string)
    ensures NamesLocal(REF_PREFIX + PointerToken(name), References(tool)) <==> name in tool.definitions
  {
    var link := REF_PREFIX + PointerToken(name);
    assert link[|REF_PREFIX|..] == PointerToken(name);
    TokensDistinct(tool.definitions.Keys);
    if PointerToken(name) in References(tool) {
      var n :| n in tool.definitions && PointerToken(n) == PointerToken(name);
      PointerTokensInjective(n, name);
    }
  }

  lemma LinkIsRewritten(tool: ToolSpec, name: string)
    ensures RewriteValue(LinkTo(name), References(tool))
      == LinkTo(if name in tool.definitions then LinkedName(tool.name, name) else name)
  {
    var link := REF_PREFIX + PointerToken(name);
    LocalLinkIsNamed(tool, name);
    assert link[|REF_PREFIX|..] == PointerToken(name);
    TokensDistinct(tool.definitions.Keys);
    var r := RewriteValue(LinkTo(name), References(tool));
    if name in tool.definitions {
      assert References(tool)[PointerToken(name)] == PointerToken(LinkedName(tool.name, name));
      assert r.members == LinkTo(LinkedName(tool.name, name)).members;
    } else {
      assert r.members == LinkTo(name).members;
    }
  }

  lemma LinksDiffer(a: string, b: string)
    requires a != b
    ensures !PyEq(LinkTo(a), LinkTo(b))
  {
    if PyEq(LinkTo(a), LinkTo(b)) {
      assert PyEq(LinkTo(a).members[REF_KEY], LinkTo(b).members[REF_KEY]);
      SameLink(a, b);
    }
  }

  lemma SameLink(a: string, b: string)
    requires REF_PREFIX + PointerToken(a) == REF_PREFIX + PointerToken(b)
    ensures a == b
  {
    assert (REF_PREFIX + PointerToken(a))[|REF_PREFIX|..] == PointerToken(a);
    assert (REF_PREFIX + PointerToken(b))[|REF_PREFIX|..] == PointerToken(b);
    PointerTokensInjective(a, b);
  }

  // A constant that is a link to a local definition: the tool's own schema accepts it and
  // its linked schema refuses it, for every tool, definition and merged table.
  lemma LinkedConstantIsRefused(tool: ToolSpec, name: string, merged: Definitions)
    requires name in tool.definitions
    ensures var s := ConstantSchema(LinkTo(name));
      Accepts(LinkTo(name), s, tool.definitions, {}) && !Accepts(LinkTo(name), Embedded(s, tool), merged, {})
  {
    var linked := LinkTo(LinkedName(tool.name, name));
    PyEqReflexive(LinkTo(name));
    ConstantMeans(LinkTo(name), LinkTo(name), tool.definitions, {});
    ConstantIsLinked(LinkTo(name), tool);
    LinkIsRewritten(tool, name);
    LinksDiffer(name, LinkedName(tool.name, name));
    ConstantMeans(LinkTo(name), linked, merged, {});
  }

  /******* Discriminators that linking makes equal *******/

  function Branch(property: string, c: Json): (s: Schema)
  {
    ObjectNode(map[property := ConstantSchema(c)], {property})
  }

  // One branch is known by a link to a local definition, the other by the link that this one
  // becomes.
  function Coinciding(tool: string, name: string, property: string): (s: Schema)
  {
    Union(true, [Branch(property, LinkTo(name)), Branch(property, LinkTo(LinkedName(tool, name)))])
  }

  lemma BranchConsts(property: string, c: Json, t: Target)
    ensures Branch(property, c).IsObject() && Consts(Branch(property, c)) == map[property := c]
    ensures Consts(Lower(Branch(property, c), t)) == map[property := c]
  {
    var b := Branch(property, c);
    assert b.Props() == map[property := ConstantSchema(c)] && b.Required() == {property};
    assert ConstMap(b) == map[property := c];
    LowerKeepsConsts(b, t);
  }

  lemma BranchIsLinked(property: string, c: Json, tool: ToolSpec)
    ensures Embedded(Branch(property, c), tool) == Branch(property, RewriteValue(c, References(tool)))
  {
    var b := Branch(property, c);
    ConstantIsLinked(c, tool);
    assert RewriteFacets([], References(tool)) == [];
    assert Embedded(b, tool).properties.of == map[property := ConstantSchema(RewriteValue(c, References(tool)))];
  }

  lemma BranchCompiles(property: string, c: Json, names: set<string>, t: Target)
    ensures Compiles(Branch(property, c), names, t)
  {
    var b := Branch(property, c);
    assert b.Props() == map[property := ConstantSchema(c)] && b.Required() == {property};
  }

  lemma PairLowers(property: string, c: Json, d: Json, t: Target)
    ensures var l := LowerSeq([Branch(property, c), Branch(property, d)], t);
      |l| == 2 && Consts(l[0]) == map[property := c] && Consts(l[1]) == map[property := d]
  {
    BranchConsts(property, c, t);
    BranchConsts(property, d, t);
  }

  lemma DifferentAreExclusive(l: seq<Schema>, property: string, c: Json, d: Json)
    requires |l| == 2 && Consts(l[0]) == map[property := c] && Consts(l[1]) == map[property := d]
    requires !PyEq(d, c)
    ensures MutuallyExclusive(l)
  {
    assert property in Consts(l[0]) && property in Consts(l[1]);
    assert Consts(l[0])[property] == c && Consts(l[1])[property] == d;
    PyEqReflexive(c);
    assert SharedConstDiffers(l[0], l[1]);
  }

  lemma EqualAreNotExclusive(l: seq<Schema>)
    requires |l| == 2 && Consts(l[0]) == Consts(l[1])
    ensures !MutuallyExclusive(l)
  {}

  lemma DifferentCompile(property: string, c: Json, d: Json, names: set<string>, t: Target)
    requires !PyEq(d, c)
    ensures Compiles(Union(true, [Branch(property, c), Branch(property, d)]), names, t)
  {
    var p := [Branch(property, c), Branch(property, d)];
    PairLowers(property, c, d, t);
    DifferentAreExclusive(LowerSeq(p, t), property, c, d);
    forall i | 0 <= i < |p|
      ensures Compiles(p[i], names, t)
    {
      BranchCompiles(property, if i == 0 then c else d, names, t);
    }
  }

  lemma EqualDoNotCompile(property: string, c: Json, names: set<string>, t: Target)
    ensures !Compiles(Union(true, [Branch(property, c), Branch(property, c)]), names, t)
  {
    PairLowers(property, c, c, t);
    EqualAreNotExclusive(LowerSeq([Branch(property, c), Branch(property, c)], t));
  }

  // The tool's own schema compiles and the linked one is refused, whatever else the tool
  // declares, for both targets.
  lemma LinkedBranchesCoincide(tool: ToolSpec, name: string, property: string, names: set<string>, t: Target)
    requires name in tool.definitions && LinkedName(tool.name, name) !in tool.definitions
    ensures Compiles(Coinciding(tool.name, name, property), tool.definitions.Keys, t)
    ensures !Compiles(Embedded(Coinciding(tool.name, name, property), tool), names, t)
  {
    var linked := LinkedName(tool.name, name);
    LinksDiffer(linked, name);
    DifferentCompile(property, LinkTo(name), LinkTo(linked), tool.definitions.Keys, t);
    CoincidingIsLinked(tool, name, property);
    EqualDoNotCompile(property, LinkTo(linked), names, t);
  }

  lemma CoincidingIsLinked(tool: ToolSpec, name: string, property: string)
    requires name in tool.definitions && LinkedName(tool.name, name) !in tool.definitions
    ensures var b := Branch(property, LinkTo(LinkedName(tool.name, name)));
      Embedded(Coinciding(tool.name, name, property), tool) == Union(true, [b, b])
  {
    LinkIsRewritten(tool, name);
    LinkIsRewritten(tool, LinkedName(tool.name, name));
    BranchIsLinked(property, LinkTo(name), tool);
    BranchIsLinked(property, LinkTo(LinkedName(tool.name, name)), tool);
    var b := Branch(property, LinkTo(LinkedName(tool.name, name)));
    assert Embedded(Coinciding(tool.name, name, property), tool).branches == [b, b];
  }
}
