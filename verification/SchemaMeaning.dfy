// Meaning across compilation: what the compiled schema accepts, once pruned, is what the
// source accepts without its dropped keywords.
module SchemaMeaning {
  import opened JsonValues
  import opened ActionSchemas
  import opened SchemaCompiler
  import opened SchemaExclusion
  import opened SchemaPruning
  import opened SchemaGuidance

  // A whole set of definitions is compiled and is meant for pruning.
  ghost predicate GoodDefinitions(defs: Definitions, t: Target)
  {
    forall k :: k in defs ==> Plain(defs[k]) && Compiles(defs[k], defs.Keys, t)
  }

  // So is a schema.
  ghost predicate GoodSchema(s: Schema, defs: Definitions, t: Target)
  {
    Plain(s) && Compiles(s, defs.Keys, t)
  }

  /******* Pruning is sound *******/

  lemma NullableRejectsOnlyNull(v: Json, s: Schema, defs: Definitions, seen: set<string>)
    requires Accepts(v, Nullable(s), defs, seen) && !v.JNull?
    requires s.Union? ==> !s.exclusive
    ensures Accepts(v, s, defs, seen)
  {
    var n := Nullable(s);
    if n != s {
      var i :| 0 <= i < |n.branches| && Accepts(v, n.branches[i], defs, seen);
      assert n.branches[i] != NULL_NODE;
    }
  }

  lemma LowerIsInclusive(s: Schema, t: Target)
    ensures Lower(s, t).Union? ==> !Lower(s, t).exclusive
  {}

  // A member that pruning keeps was accepted by the compiled property itself.
  lemma KeptMember(v: Json, sub: Schema, lowered: Schema, defs: Definitions, t: Target, seen: set<string>)
    requires Accepts(v, lowered, LowerAll(defs, t), seen)
    requires lowered == Lower(sub, t) || (lowered == Nullable(Lower(sub, t)) && !v.JNull?)
    ensures Accepts(v, Lower(sub, t), LowerAll(defs, t), seen)
  {
    LowerIsInclusive(sub, t);
    if lowered != Lower(sub, t) {
      NullableRejectsOnlyNull(v, Lower(sub, t), LowerAll(defs, t), seen);
    }
  }

  lemma ShapeKeepsChoice(v: Json, w: Json, e: Json)
    requires SameShape(v, w) && e.Scalar() && PyEq(v, e)
    ensures PyEq(w, e)
  {}

  // What a node says apart from its children survives a change of members that drops no
  // required one and adds none.
  lemma PrunedHoldsLocally(v: Json, w: Json, s: Schema, t: Target)
    requires s.Node? && Plain(s) && SameShape(v, w) && LocalHolds(v, Lower(s, t))
    requires v.JObj? ==> w.members.Keys <= v.members.Keys && s.Required() * v.members.Keys <= w.members.Keys
    requires s.IsObject() ==> s.Required() <= s.Props().Keys
    ensures LocalHolds(w, Restore(s, t))
  {
    var l := Lower(s, t);
    if s.constant.Some? { ShapeKeepsChoice(v, w, s.constant.value); }
    if s.choices.Some? {
      var i :| 0 <= i < |s.choices.value| && PyEq(v, s.choices.value[i]);
      ShapeKeepsChoice(v, w, s.choices.value[i]);
    }
    assert forall i :: 0 <= i < |l.facets| ==> FacetHolds(w, l.facets[i]);
  }

  // Whatever the compiled schema accepts is, once pruned, accepted by the source without
  // its dropped keywords.
  lemma {:induction false} PrunedIsAccepted(v: Json, s: Schema, defs: Definitions, t: Target, seen: set<string>)
    requires GoodDefinitions(defs, t) && GoodSchema(s, defs, t) && SentGuided(s, defs, t, seen)
    requires Accepts(v, Lower(s, t), LowerAll(defs, t), seen)
    ensures Accepts(Prune(v, s, defs, seen), Restore(s, t), RestoreAll(defs, t), seen)
    decreases defs.Keys - seen, s
  {
    match s
    case Ref(name) =>
      PrunedIsAccepted(v, defs[name], defs, t, seen + {name});
    case Union(exclusive, branches) =>
      PrunedUnionIsAccepted(v, s, defs, t, seen);
    case Node(_, _, _, _, items, _, _, _) =>
      PruneKeepsShape(v, s, defs, seen);
      if s.IsObject() { LowerKeepsProperties(s, t); }
      PrunedHoldsLocally(v, Prune(v, s, defs, seen), s, t);
      if v.JObj? && s.IsObject() {
        LowerKeepsProperties(s, t);
        PrunedMembersAreAccepted(v, s, defs, t, seen);
      } else if v.JArr? && items.Items? {
        PrunedItemsAreAccepted(v, s, defs, t, seen);
      }
  }

  lemma {:induction false} PrunedMembersAreAccepted(v: Json, s: Schema, defs: Definitions, t: Target, seen: set<string>)
    requires s.IsObject() && v.JObj? && GoodDefinitions(defs, t) && GoodSchema(s, defs, t)
      && SentGuided(s, defs, t, seen)
    requires Accepts(v, Lower(s, t), LowerAll(defs, t), seen)
    ensures Prune(v, s, defs, seen).JObj?
    ensures forall k :: k in Prune(v, s, defs, seen).members && k in Restore(s, t).Props() ==>
      Accepts(Prune(v, s, defs, seen).members[k], Restore(s, t).Props()[k], RestoreAll(defs, t), seen)
    decreases defs.Keys - seen, s, 0
  {
    LowerKeepsProperties(s, t);
    forall k | k in Prune(v, s, defs, seen).members && k in Restore(s, t).Props()
      ensures Accepts(Prune(v, s, defs, seen).members[k], Restore(s, t).Props()[k], RestoreAll(defs, t), seen)
    {
      assert Accepts(v.members[k], Lower(s, t).Props()[k], LowerAll(defs, t), seen);
      KeptMember(v.members[k], s.properties.of[k], Lower(s, t).Props()[k], defs, t, seen);
      PrunedIsAccepted(v.members[k], s.properties.of[k], defs, t, seen);
    }
  }

  lemma {:induction false} PrunedItemsAreAccepted(v: Json, s: Schema, defs: Definitions, t: Target, seen: set<string>)
    requires s.Node? && s.items.Items? && v.JArr? && GoodDefinitions(defs, t) && GoodSchema(s, defs, t)
      && SentGuided(s, defs, t, seen)
    requires Accepts(v, Lower(s, t), LowerAll(defs, t), seen)
    ensures Prune(v, s, defs, seen).JArr?
    ensures forall i :: 0 <= i < |Prune(v, s, defs, seen).items| ==>
      Accepts(Prune(v, s, defs, seen).items[i], Restore(s, t).items.each, RestoreAll(defs, t), seen)
    decreases defs.Keys - seen, s, 0
  {
    forall i | 0 <= i < |v.items|
      ensures Accepts(Prune(v.items[i], s.items.each, defs, seen), Restore(s, t).items.each, RestoreAll(defs, t), seen)
    {
      PrunedIsAccepted(v.items[i], s.items.each, defs, t, seen);
    }
  }

  lemma {:induction false} PrunedUnionIsAccepted(v: Json, s: Schema, defs: Definitions, t: Target, seen: set<string>)
    requires s.Union? && GoodDefinitions(defs, t) && GoodSchema(s, defs, t) && SentGuided(s, defs, t, seen)
    requires Accepts(v, Lower(s, t), LowerAll(defs, t), seen)
    ensures Accepts(Prune(v, s, defs, seen), Restore(s, t), RestoreAll(defs, t), seen)
    decreases defs.Keys - seen, s, 0
  {
    var i := LoweredUnionBranch(v, s, defs, t, seen);
    assert PrunesAlike(v, s.branches, i, defs, seen);
    PruneIgnoresExclusivity(v, s.exclusive, s.branches, defs, seen);
    PrunedIsAccepted(v, s.branches[i], defs, t, seen);
    RestoredUnionAccepts(Prune(v, s, defs, seen), s, defs, t, seen, i);
  }

  lemma LoweredUnionBranch(v: Json, s: Schema, defs: Definitions, t: Target, seen: set<string>) returns (i: nat)
    requires s.Union? && Accepts(v, Lower(s, t), LowerAll(defs, t), seen)
    ensures i < |s.branches| && Accepts(v, Lower(s.branches[i], t), LowerAll(defs, t), seen)
  {
    var l := Lower(s, t);
    i :| 0 <= i < |l.branches| && Accepts(v, l.branches[i], LowerAll(defs, t), seen);
  }

  lemma RestoredUnionAccepts(w: Json, s: Schema, defs: Definitions, t: Target, seen: set<string>, i: nat)
    requires s.Union? && i < |s.branches|
    requires s.exclusive ==> MutuallyExclusive(LowerSeq(s.branches, t))
    requires Accepts(w, Restore(s.branches[i], t), RestoreAll(defs, t), seen)
    ensures Accepts(w, Restore(s, t), RestoreAll(defs, t), seen)
  {
    var r := Restore(s, t);
    assert r.branches[i] == Restore(s.branches[i], t);
    if s.exclusive {
      forall x, y | 0 <= x < |r.branches| && 0 <= y < |r.branches|
          && Accepts(w, r.branches[x], RestoreAll(defs, t), seen)
          && Accepts(w, r.branches[y], RestoreAll(defs, t), seen)
        ensures x == y
      {
        assert r.branches[x] == Restore(s.branches[x], t) && r.branches[y] == Restore(s.branches[y], t);
        if x != y { AdmittedBranchesAreDisjoint(w, s.branches, t, x, y, RestoreAll(defs, t), seen); }
      }
    }
  }
}
