// Compilation only widens: every value the source accepts has a completed form, with
// explicit nulls for absent optional fields, that the compiled schema accepts and that
// prunes to the same value.
module SchemaCompletion {
  import opened JsonValues
  import opened ActionSchemas
  import opened SchemaCompiler
  import opened SchemaExclusion
  import opened SchemaPruning
  import opened SchemaGuidance
  import opened SchemaMeaning

  ghost function AcceptingBranch(v: Json, branches: seq<Schema>, defs: Definitions, seen: set<string>): (r: Option<nat>)
    ensures r.Some? ==> r.value < |branches| && Accepts(v, branches[r.value], defs, seen)
    ensures r.None? ==> forall i :: 0 <= i < |branches| ==> !Accepts(v, branches[i], defs, seen)
  {
    if i: nat :| i < |branches| && Accepts(v, branches[i], defs, seen) then Some(i) else None
  }

  // The members a strict target expects beyond those the value has.
  function Missing(v: Json, s: Schema, t: Target): (r: set<string>)
    requires v.JObj? && s.Node?
  {
    if s.IsObject() && t.OpenAI? then s.Props().Keys - v.members.Keys else {}
  }

  // What a provider bound to the compiled schema sends for `v`.
  ghost function Complete(v: Json, s: Schema, defs: Definitions, t: Target, seen: set<string>): (r: Json)
    decreases defs.Keys - seen, s
  {
    match s
    case Ref(name) =>
      if name in defs && name !in seen then Complete(v, defs[name], defs, t, seen + {name}) else v
    case Union(_, branches) =>
      var i := AcceptingBranch(v, branches, defs, seen);
      if i.Some? then Complete(v, branches[i.value], defs, t, seen) else v
    case Node(_, _, _, _, items, properties, _, _) =>
      if v.JObj? then
        JObj(map k | k in v.members.Keys + Missing(v, s, t) ::
               if k !in v.members then JNull
               else if properties.Properties? && k in properties.of
               then Complete(v.members[k], properties.of[k], defs, t, seen)
               else v.members[k])
      else if v.JArr? && items.Items? then
        JArr(seq(|v.items|, i requires 0 <= i < |v.items| => Complete(v.items[i], items.each, defs, t, seen)))
      else v
  }

  lemma {:induction false} CompleteKeepsShape(v: Json, s: Schema, defs: Definitions, t: Target, seen: set<string>)
    ensures SameShape(v, Complete(v, s, defs, t, seen))
    decreases defs.Keys - seen, s
  {
    match s
    case Ref(name) =>
      if name in defs && name !in seen { CompleteKeepsShape(v, defs[name], defs, t, seen + {name}); }
    case Union(_, branches) =>
      var i := AcceptingBranch(v, branches, defs, seen);
      if i.Some? { CompleteKeepsShape(v, branches[i.value], defs, t, seen); }
    case Node(_, _, _, _, _, _, _, _) =>
  }

  lemma NullableAcceptsMore(v: Json, s: Schema, defs: Definitions, seen: set<string>)
    requires Accepts(v, s, defs, seen) && (s.Union? ==> !s.exclusive)
    ensures Accepts(v, Nullable(s), defs, seen)
  {
    var n := Nullable(s);
    if n != s {
      if s.Union? {
        var i :| 0 <= i < |s.branches| && Accepts(v, s.branches[i], defs, seen);
        assert n.branches[i] == s.branches[i];
      } else {
        assert n.branches[0] == s;
      }
    }
  }

  lemma NullableAcceptsNull(s: Schema, t: Target, defs: Definitions, seen: set<string>)
    requires Plain(s)
    ensures Accepts(JNull, Nullable(Lower(s, t)), defs, seen)
  {
    var l := Lower(s, t);
    var n := Nullable(l);
    assert Accepts(JNull, NULL_NODE, defs, seen);
    if n == l {
      var i :| 0 <= i < |l.branches| && SaysNull(l.branches[i]);
      assert l.branches[i] == Lower(s.branches[i], t) && SaysNull(s.branches[i]);
      assert Accepts(JNull, l.branches[i], defs, seen);
    } else {
      assert n.branches[|n.branches| - 1] == NULL_NODE;
    }
  }

  lemma KeptFacetsHold(v: Json, w: Json, facets: seq<Facet>, t: Target)
    requires SameShape(v, w) && forall i :: 0 <= i < |facets| ==> FacetHolds(v, facets[i])
    ensures forall i :: 0 <= i < |Kept(facets, t)| ==> FacetHolds(w, Kept(facets, t)[i])
  {
    forall i | 0 <= i < |Kept(facets, t)|
      ensures FacetHolds(w, Kept(facets, t)[i])
    {
      assert Kept(facets, t)[i] in facets;
    }
  }

  // Widening: the compiled schema accepts the completed value.
  lemma {:induction false} CompletedIsAccepted(v: Json, s: Schema, defs: Definitions, t: Target, seen: set<string>)
    requires GoodDefinitions(defs, t) && GoodSchema(s, defs, t)
    requires Accepts(v, s, defs, seen)
    ensures Accepts(Complete(v, s, defs, t, seen), Lower(s, t), LowerAll(defs, t), seen)
    decreases defs.Keys - seen, s
  {
    match s
    case Ref(name) =>
      CompletedIsAccepted(v, defs[name], defs, t, seen + {name});
    case Union(_, branches) =>
      var i := AcceptingBranch(v, branches, defs, seen).value;
      CompletedIsAccepted(v, branches[i], defs, t, seen);
      assert Lower(s, t).branches[i] == Lower(branches[i], t);
    case Node(_, _, _, _, items, properties, _, _) =>
      CompletedHoldsLocally(v, s, defs, t, seen);
      if v.JObj? && s.IsObject() {
        CompletedMembersAreAccepted(v, s, defs, t, seen);
      } else if v.JArr? && items.Items? {
        CompletedItemsAreAccepted(v, s, defs, t, seen);
      }
  }

  lemma CompletedHoldsLocally(v: Json, s: Schema, defs: Definitions, t: Target, seen: set<string>)
    requires s.Node? && Plain(s) && LocalHolds(v, s)
    ensures LocalHolds(Complete(v, s, defs, t, seen), Lower(s, t))
  {
    CompleteKeepsShape(v, s, defs, t, seen);
    KeptFacetsHold(v, Complete(v, s, defs, t, seen), s.facets, t);
    if s.IsObject() { LowerKeepsProperties(s, t); }
  }

  lemma {:induction false} CompletedItemsAreAccepted(v: Json, s: Schema, defs: Definitions, t: Target,
                                                     seen: set<string>)
    requires s.Node? && s.items.Items? && v.JArr?
    requires GoodDefinitions(defs, t) && GoodSchema(s, defs, t) && Accepts(v, s, defs, seen)
    ensures Complete(v, s, defs, t, seen).JArr?
    ensures forall i :: 0 <= i < |Complete(v, s, defs, t, seen).items| ==>
      Accepts(Complete(v, s, defs, t, seen).items[i], Lower(s, t).items.each, LowerAll(defs, t), seen)
    decreases defs.Keys - seen, s, 0
  {
    forall i | 0 <= i < |v.items|
      ensures Accepts(Complete(v.items[i], s.items.each, defs, t, seen),
                      Lower(s, t).items.each, LowerAll(defs, t), seen)
    {
      CompletedIsAccepted(v.items[i], s.items.each, defs, t, seen);
    }
  }

  lemma {:induction false} CompletedMembersAreAccepted(v: Json, s: Schema, defs: Definitions, t: Target,
                                                       seen: set<string>)
    requires s.IsObject() && v.JObj? && GoodDefinitions(defs, t) && Accepts(v, s, defs, seen)
    requires forall k :: k in s.Props() ==> GoodSchema(s.Props()[k], defs, t)
    ensures var c, l := Complete(v, s, defs, t, seen), Lower(s, t);
      c.JObj? && forall k :: k in c.members && k in l.Props() ==>
        Accepts(c.members[k], l.Props()[k], LowerAll(defs, t), seen)
    decreases defs.Keys - seen, s, 1
  {
    LowerKeepsProperties(s, t);
    var c, l := Complete(v, s, defs, t, seen), Lower(s, t);
    forall k | k in c.members && k in l.Props()
      ensures Accepts(c.members[k], l.Props()[k], LowerAll(defs, t), seen)
    {
      CompletedMemberIsAccepted(v, s, defs, t, seen, k);
    }
  }

  lemma {:induction false} CompletedMemberIsAccepted(v: Json, s: Schema, defs: Definitions, t: Target,
                                                     seen: set<string>, k: string)
    requires s.Node? && s.IsObject() && v.JObj? && k in s.Props()
    requires GoodDefinitions(defs, t) && GoodSchema(s.Props()[k], defs, t)
    requires Accepts(v, s, defs, seen)
    requires k in Complete(v, s, defs, t, seen).members && k in Lower(s, t).Props()
    ensures Accepts(Complete(v, s, defs, t, seen).members[k], Lower(s, t).Props()[k], LowerAll(defs, t), seen)
    decreases defs.Keys - seen, s, 0
  {
    LowerKeepsProperties(s, t);
    var child := s.Props()[k];
    LowerIsInclusive(child, t);
    if k in v.members {
      CompletedIsAccepted(v.members[k], child, defs, t, seen);
      if k !in s.Required() && t.OpenAI? {
        NullableAcceptsMore(Complete(v.members[k], child, defs, t, seen), Lower(child, t), LowerAll(defs, t), seen);
      }
    } else {
      NullableAcceptsNull(child, t, LowerAll(defs, t), seen);
    }
  }

  // Round trip: pruning undoes completion.
  lemma {:induction false} PruneUndoesCompletion(v: Json, s: Schema, defs: Definitions, t: Target, seen: set<string>)
    requires GoodDefinitions(defs, t) && GoodSchema(s, defs, t)
    requires SentGuided(s, defs, t, seen) && SourceGuided(s, defs, seen)
    requires Accepts(v, s, defs, seen)
    ensures Prune(Complete(v, s, defs, t, seen), s, defs, seen) == Prune(v, s, defs, seen)
    decreases defs.Keys - seen, s
  {
    match s
    case Ref(name) =>
      PruneUndoesCompletion(v, defs[name], defs, t, seen + {name});
    case Union(_, branches) =>
      var i := AcceptingBranch(v, branches, defs, seen).value;
      var sent := Complete(v, branches[i], defs, t, seen);
      CompletedIsAccepted(v, branches[i], defs, t, seen);
      assert PrunesAlike(sent, branches, i, defs, seen) && PrunesAlike(v, branches, i, defs, seen);
      PruneIgnoresExclusivity(sent, s.exclusive, branches, defs, seen);
      PruneIgnoresExclusivity(v, s.exclusive, branches, defs, seen);
      PruneUndoesCompletion(v, branches[i], defs, t, seen);
    case Node(_, _, _, _, items, properties, _, _) =>
      if v.JObj? {
        PruneUndoesMemberCompletion(v, s, defs, t, seen);
      } else if v.JArr? && items.Items? {
        forall i | 0 <= i < |v.items|
          ensures Prune(Complete(v.items[i], items.each, defs, t, seen), items.each, defs, seen)
               == Prune(v.items[i], items.each, defs, seen)
        {
          PruneUndoesCompletion(v.items[i], items.each, defs, t, seen);
        }
      }
  }

  lemma {:induction false} PruneUndoesMemberCompletion(v: Json, s: Schema, defs: Definitions, t: Target,
                                                       seen: set<string>)
    requires s.Node? && v.JObj?
    requires GoodDefinitions(defs, t) && GoodSchema(s, defs, t)
    requires SentGuided(s, defs, t, seen) && SourceGuided(s, defs, seen)
    requires Accepts(v, s, defs, seen)
    ensures Prune(Complete(v, s, defs, t, seen), s, defs, seen) == Prune(v, s, defs, seen)
    decreases defs.Keys - seen, s, 0
  {
    var c := Complete(v, s, defs, t, seen);
    var p, q := Prune(c, s, defs, seen).members, Prune(v, s, defs, seen).members;
    forall k | k in c.members
      ensures k in p <==> k in q
      ensures k in p ==> p[k] == q[k]
    {
      if k in v.members && k in s.Props() {
        CompleteKeepsShape(v.members[k], s.Props()[k], defs, t, seen);
        PruneUndoesCompletion(v.members[k], s.Props()[k], defs, t, seen);
      }
    }
    assert p == q;
  }

  // A target that keeps optional fields optional needs no completion at all.
  lemma {:induction false} AnthropicNeedsNoCompletion(v: Json, s: Schema, defs: Definitions, seen: set<string>)
    ensures Complete(v, s, defs, Anthropic, seen) == v
    decreases defs.Keys - seen, s
  {
    match s
    case Ref(name) =>
      if name in defs && name !in seen { AnthropicNeedsNoCompletion(v, defs[name], defs, seen + {name}); }
    case Union(_, branches) =>
      var i := AcceptingBranch(v, branches, defs, seen);
      if i.Some? { AnthropicNeedsNoCompletion(v, branches[i.value], defs, seen); }
    case Node(_, _, _, _, items, properties, _, _) =>
      if v.JObj? {
        forall k | k in v.members && k in s.Props()
          ensures Complete(v.members[k], s.Props()[k], defs, Anthropic, seen) == v.members[k]
        {
          AnthropicNeedsNoCompletion(v.members[k], s.Props()[k], defs, seen);
        }
        assert Complete(v, s, defs, Anthropic, seen).members == v.members;
      } else if v.JArr? && items.Items? {
        forall i | 0 <= i < |v.items|
          ensures Complete(v.items[i], items.each, defs, Anthropic, seen) == v.items[i]
        {
          AnthropicNeedsNoCompletion(v.items[i], items.each, defs, seen);
        }
        assert Complete(v, s, defs, Anthropic, seen).items == v.items;
      }
  }
}
