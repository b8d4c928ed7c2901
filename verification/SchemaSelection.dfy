// When pruning can tell the branches of a union apart. The compiler's exclusivity test is
// weaker than what pruning needs: it also admits branches that differ only in a property
// one of them forbids, and pruning compares constants alone.
module SchemaSelection {
  import opened JsonValues
  import opened ActionSchemas
  import opened SchemaCompiler
  import opened SchemaExclusion
  import opened SchemaPruning
  import opened SchemaGuidance
  import opened SchemaMeaning
  import opened SchemaCompletion

  // The compiled property `k` of `a` accepts some value equal to `c`.
  ghost predicate Admits(a: Schema, k: string, c: Json, defs: Definitions, t: Target, seen: set<string>)
    requires a.IsObject() && k in Lower(a, t).Props()
  {
    exists w :: PyEq(w, c) && Accepts(w, Lower(a, t).Props()[k], LowerAll(defs, t), seen)
  }

  // Every constant of `b` can be carried by an object that `a` accepts; a null constant
  // also by leaving the property out.
  ghost predicate Confusable(a: Schema, b: Schema, defs: Definitions, t: Target, seen: set<string>)
    requires a.IsObject()
  {
    forall k :: k in Consts(b) ==>
      || (k in Lower(a, t).Props() && Admits(a, k, Consts(b)[k], defs, t, seen))
      || (k !in Lower(a, t).Required() && PyEq(JNull, Consts(b)[k]))
  }

  lemma AcceptedCandidateIsConfusable(v: Json, a: Schema, b: Schema, defs: Definitions, t: Target, seen: set<string>)
    requires a.IsObject() && b.Node? && Consts(b) != map[]
    requires Accepts(v, Lower(a, t), LowerAll(defs, t), seen) && Candidate(v, b, defs, seen)
    ensures Confusable(a, b, defs, t, seen)
  {
    LowerKeepsProperties(a, t);
    var l := Lower(a, t);
    forall k | k in Consts(b)
      ensures || (k in l.Props() && Admits(a, k, Consts(b)[k], defs, t, seen))
              || (k !in l.Required() && PyEq(JNull, Consts(b)[k]))
    {
      assert PyEq(Get(v, k), Consts(b)[k]);
      if k in v.members {
        assert Accepts(v.members[k], l.Props()[k], LowerAll(defs, t), seen);
      }
    }
  }

  ghost function Carrying(a: Schema, k: string, c: Json, defs: Definitions, t: Target, seen: set<string>): (w: Json)
    requires a.IsObject() && k in Lower(a, t).Props() && Admits(a, k, c, defs, t, seen)
    ensures PyEq(w, c) && Accepts(w, Lower(a, t).Props()[k], LowerAll(defs, t), seen)
  {
    var w :| PyEq(w, c) && Accepts(w, Lower(a, t).Props()[k], LowerAll(defs, t), seen);
    w
  }

  // The object `v0` with the constants of `b` written over it.
  ghost function Disguise(v0: Json, a: Schema, b: Schema, defs: Definitions, t: Target, seen: set<string>): (v: Json)
    requires a.IsObject() && v0.JObj?
  {
    var l := Lower(a, t);
    JObj(map k | k in v0.members.Keys + Consts(b).Keys
                 && (k in Consts(b) ==> k in l.Props() && Admits(a, k, Consts(b)[k], defs, t, seen)) ::
           if k in Consts(b) then Carrying(a, k, Consts(b)[k], defs, t, seen) else v0.members[k])
  }

  lemma ObjectsHoldAlike(v: Json, w: Json, s: Schema)
    requires s.Node? && ScalarMembers(s) && s.additional.Closed?
    requires v.JObj? && w.JObj? && LocalHolds(v, s)
    requires s.Required() <= w.members.Keys <= s.Props().Keys
    ensures LocalHolds(w, s)
  {
    assert s.constant.None? && s.choices.None?;
  }

  lemma DisguiseMembers(v0: Json, a: Schema, b: Schema, defs: Definitions, t: Target, seen: set<string>)
    requires a.IsObject() && v0.JObj? && Confusable(a, b, defs, t, seen)
    requires Lower(a, t).Required() <= v0.members.Keys <= Lower(a, t).Props().Keys
    ensures Lower(a, t).Required() <= Disguise(v0, a, b, defs, t, seen).members.Keys <= Lower(a, t).Props().Keys
    ensures forall k :: k in Consts(b) ==> PyEq(Get(Disguise(v0, a, b, defs, t, seen), k), Consts(b)[k])
  {}

  lemma ConfusableHasAWitness(v0: Json, a: Schema, b: Schema, defs: Definitions, t: Target, seen: set<string>)
    requires a.IsObject() && Plain(a) && b.Node? && Consts(b) != map[]
    requires Accepts(v0, Lower(a, t), LowerAll(defs, t), seen) && Confusable(a, b, defs, t, seen)
    ensures v0.JObj?
    ensures Accepts(Disguise(v0, a, b, defs, t, seen), Lower(a, t), LowerAll(defs, t), seen)
    ensures Candidate(Disguise(v0, a, b, defs, t, seen), b, defs, seen)
  {
    var l, v := Lower(a, t), Disguise(v0, a, b, defs, t, seen);
    DisguiseMembers(v0, a, b, defs, t, seen);
    ObjectsHoldAlike(v0, v, l);
    forall k | k in v.members && k in l.properties.of
      ensures Accepts(v.members[k], l.properties.of[k], LowerAll(defs, t), seen)
    {
      if k !in Consts(b) {
        assert Accepts(v0.members[k], l.properties.of[k], LowerAll(defs, t), seen);
      }
    }
    assert Resolved(b, defs, seen) == b;
  }

  // An object accepted by `a` can make `b` a candidate exactly when `a` tolerates all of
  // `b`'s constants. (`a` is taken to accept something.)
  lemma ConfusionExact(v0: Json, a: Schema, b: Schema, defs: Definitions, t: Target, seen: set<string>)
    requires a.IsObject() && Plain(a) && b.Node? && Consts(b) != map[]
    requires Accepts(v0, Lower(a, t), LowerAll(defs, t), seen)
    ensures Confusable(a, b, defs, t, seen) <==>
            exists v :: Accepts(v, Lower(a, t), LowerAll(defs, t), seen) && Candidate(v, b, defs, seen)
  {
    if Confusable(a, b, defs, t, seen) { ConfusableHasAWitness(v0, a, b, defs, t, seen); }
    if v :| Accepts(v, Lower(a, t), LowerAll(defs, t), seen) && Candidate(v, b, defs, seen) {
      AcceptedCandidateIsConfusable(v, a, b, defs, t, seen);
    }
  }

  ghost predicate SelectsAccepted(branches: seq<Schema>, defs: Definitions, t: Target, seen: set<string>)
  {
    forall v, i :: 0 <= i < |branches| && Accepts(v, Lower(branches[i], t), LowerAll(defs, t), seen)
      ==> Selected(v, branches, defs, seen) == Some(i)
  }

  ghost predicate Discriminated(branches: seq<Schema>)
  {
    forall i :: 0 <= i < |branches| ==>
      branches[i].IsObject() && Plain(branches[i]) && Consts(branches[i]) != map[]
  }

  ghost predicate Inhabited(branches: seq<Schema>, defs: Definitions, t: Target, seen: set<string>)
  {
    forall i :: 0 <= i < |branches| ==>
      exists v :: Accepts(v, Lower(branches[i], t), LowerAll(defs, t), seen)
  }

  ghost predicate Unconfused(branches: seq<Schema>, defs: Definitions, t: Target, seen: set<string>, i: int)
    requires Discriminated(branches) && 0 <= i < |branches|
  {
    forall j :: 0 <= j < |branches| && j != i ==> !Confusable(branches[i], branches[j], defs, t, seen)
  }

  ghost predicate AllUnconfused(branches: seq<Schema>, defs: Definitions, t: Target, seen: set<string>)
    requires Discriminated(branches)
  {
    forall i :: 0 <= i < |branches| ==> Unconfused(branches, defs, t, seen, i)
  }

  // For a discriminated union, pruning follows the branch the provider used, on every
  // value, exactly when no branch tolerates another's constants.
  lemma SelectionExact(branches: seq<Schema>, defs: Definitions, t: Target, seen: set<string>)
    requires Discriminated(branches) && Inhabited(branches, defs, t, seen)
    ensures SelectsAccepted(branches, defs, t, seen) <==> AllUnconfused(branches, defs, t, seen)
  {
    if SelectsAccepted(branches, defs, t, seen) {
      forall i | 0 <= i < |branches|
        ensures Unconfused(branches, defs, t, seen, i)
      {
        SelectedIsUnconfused(branches, defs, t, seen, i);
      }
    }
    if AllUnconfused(branches, defs, t, seen) {
      forall v, i | 0 <= i < |branches| && Accepts(v, Lower(branches[i], t), LowerAll(defs, t), seen)
        ensures Selected(v, branches, defs, seen) == Some(i)
      {
        assert Unconfused(branches, defs, t, seen, i);
        UnconfusedIsSelected(v, branches, defs, t, seen, i);
      }
    }
  }

  lemma SelectedHasNoRival(v: Json, branches: seq<Schema>, defs: Definitions, seen: set<string>, i: int, j: int)
    requires 0 <= j < |branches| && Selected(v, branches, defs, seen) == Some(i)
    requires Candidate(v, branches[j], defs, seen)
    ensures i == j
  {}

  lemma SelectedIsUnconfused(branches: seq<Schema>, defs: Definitions, t: Target, seen: set<string>, i: int)
    requires Discriminated(branches) && Inhabited(branches, defs, t, seen) && 0 <= i < |branches|
    requires SelectsAccepted(branches, defs, t, seen)
    ensures Unconfused(branches, defs, t, seen, i)
  {
    forall j | 0 <= j < |branches| && j != i
      ensures !Confusable(branches[i], branches[j], defs, t, seen)
    {
      if Confusable(branches[i], branches[j], defs, t, seen) {
        var v0 :| Accepts(v0, Lower(branches[i], t), LowerAll(defs, t), seen);
        ConfusionExact(v0, branches[i], branches[j], defs, t, seen);
        var v :| Accepts(v, Lower(branches[i], t), LowerAll(defs, t), seen) && Candidate(v, branches[j], defs, seen);
        SelectedHasNoRival(v, branches, defs, seen, i, j);
      }
    }
  }

  lemma SentIsCandidate(v: Json, a: Schema, defs: Definitions, t: Target, seen: set<string>)
    requires a.IsObject()
    ensures Plain(a) && Consts(a) != map[] && Accepts(v, Lower(a, t), LowerAll(defs, t), seen) ==>
      Candidate(v, a, defs, seen)
  {
    LowerKeepsConsts(a, t);
    if Plain(a) && Consts(a) != map[] && Accepts(v, Lower(a, t), LowerAll(defs, t), seen) {
      AcceptedMatchesConsts(v, Lower(a, t), LowerAll(defs, t), seen);
      assert Resolved(a, defs, seen) == a;
    }
  }

  lemma UnconfusedIsSelected(v: Json, branches: seq<Schema>, defs: Definitions, t: Target, seen: set<string>, i: int)
    requires Discriminated(branches) && 0 <= i < |branches|
    requires Accepts(v, Lower(branches[i], t), LowerAll(defs, t), seen)
    requires Unconfused(branches, defs, t, seen, i)
    ensures Selected(v, branches, defs, seen) == Some(i)
  {
    var a := branches[i];
    SentIsCandidate(v, a, defs, t, seen);
    forall j | 0 <= j < |branches| && j != i
      ensures !Candidate(v, branches[j], defs, seen)
    {
      if Candidate(v, branches[j], defs, seen) {
        AcceptedCandidateIsConfusable(v, a, branches[j], defs, t, seen);
      }
    }
    assert OnlyCandidate(v, branches, defs, seen, i);
  }

  /******* Such a union is guided *******/

  // Completion neither adds nor removes a candidate: an absent member reads as null, and an
  // explicit null is what completion adds.
  lemma CompletionKeepsCandidates(v: Json, a: Schema, b: Schema, defs: Definitions, t: Target, seen: set<string>)
    requires v.JObj? && a.Node? && b.Node? && Plain(b) && Consts(b) != map[]
    ensures Candidate(v, b, defs, seen) <==> Candidate(Complete(v, a, defs, t, seen), b, defs, seen)
  {
    var c := Complete(v, a, defs, t, seen);
    assert Resolved(b, defs, seen) == b;
    forall k | k in Consts(b)
      ensures PyEq(Get(v, k), Consts(b)[k]) <==> PyEq(Get(c, k), Consts(b)[k])
    {
      assert Plain(b.Props()[k]);
      if k in v.members && k in a.Props() {
        CompleteKeepsShape(v.members[k], a.Props()[k], defs, t, seen);
      }
      ShapeKeepsEquality(Get(v, k), Get(c, k), Consts(b)[k]);
    }
  }

  lemma ShapeKeepsEquality(v: Json, w: Json, e: Json)
    requires SameShape(v, w) && e.Scalar()
    ensures PyEq(v, e) <==> PyEq(w, e)
  {}

  lemma SourceSelectionFollows(v: Json, branches: seq<Schema>, defs: Definitions, t: Target, seen: set<string>, i: nat)
    requires Discriminated(branches) && i < |branches| && GoodDefinitions(defs, t)
    requires GoodSchema(branches[i], defs, t) && AllUnconfused(branches, defs, t, seen)
    requires Accepts(v, branches[i], defs, seen)
    ensures Selected(v, branches, defs, seen) == Some(i)
  {
    var a := branches[i];
    var c := Complete(v, a, defs, t, seen);
    CompletedIsAccepted(v, a, defs, t, seen);
    CompleteKeepsShape(v, a, defs, t, seen);
    assert Unconfused(branches, defs, t, seen, i);
    UnconfusedIsSelected(c, branches, defs, t, seen, i);
    forall j | 0 <= j < |branches|
      ensures Candidate(v, branches[j], defs, seen) <==> Candidate(c, branches[j], defs, seen)
    {
      CompletionKeepsCandidates(v, a, branches[j], defs, t, seen);
    }
    assert OnlyCandidate(c, branches, defs, seen, i);
    assert OnlyCandidate(v, branches, defs, seen, i);
  }

  // No branch tolerates another's constants: then pruning follows what a provider sends
  // and what the source accepts.
  lemma UnconfusedIsFollowed(branches: seq<Schema>, defs: Definitions, t: Target, seen: set<string>)
    requires Discriminated(branches) && AllUnconfused(branches, defs, t, seen)
    ensures FollowsSent(branches, defs, t, seen)
    ensures GoodDefinitions(defs, t) && (forall i :: 0 <= i < |branches| ==> GoodSchema(branches[i], defs, t))
      ==> FollowsSource(branches, defs, seen)
  {
    forall v, i | 0 <= i < |branches| && Accepts(v, Lower(branches[i], t), LowerAll(defs, t), seen)
      ensures PrunesAlike(v, branches, i, defs, seen)
    {
      assert Unconfused(branches, defs, t, seen, i);
      UnconfusedIsSelected(v, branches, defs, t, seen, i);
      SelectedPrunesAlike(v, branches, i, defs, seen);
    }
    if GoodDefinitions(defs, t) && forall i :: 0 <= i < |branches| ==> GoodSchema(branches[i], defs, t) {
      forall v, i | 0 <= i < |branches| && Accepts(v, branches[i], defs, seen)
        ensures PrunesAlike(v, branches, i, defs, seen)
      {
        SourceSelectionFollows(v, branches, defs, t, seen, i);
        SelectedPrunesAlike(v, branches, i, defs, seen);
      }
    }
  }

  lemma UnconfusedIsGuided(exclusive: bool, branches: seq<Schema>, defs: Definitions, t: Target, seen: set<string>)
    requires GoodDefinitions(defs, t) && forall i :: 0 <= i < |branches| ==> GoodSchema(branches[i], defs, t)
    requires Discriminated(branches) && AllUnconfused(branches, defs, t, seen)
    requires forall i :: 0 <= i < |branches| ==>
      SentGuided(branches[i], defs, t, seen) && SourceGuided(branches[i], defs, seen)
    ensures SentGuided(Union(exclusive, branches), defs, t, seen)
    ensures SourceGuided(Union(exclusive, branches), defs, seen)
  {
    UnconfusedIsFollowed(branches, defs, t, seen);
  }

  // So a discriminated union none of whose branches tolerates another's constants is sound
  // for pruning as soon as its branches are.
  lemma UnconfusedUnionIsSound(v: Json, s: Schema, defs: Definitions, t: Target, seen: set<string>)
    requires s.Union? && GoodDefinitions(defs, t) && GoodSchema(s, defs, t)
    requires Discriminated(s.branches) && AllUnconfused(s.branches, defs, t, seen)
    requires forall i :: 0 <= i < |s.branches| ==> SentGuided(s.branches[i], defs, t, seen)
    requires Accepts(v, Lower(s, t), LowerAll(defs, t), seen)
    ensures Accepts(Prune(v, s, defs, seen), Restore(s, t), RestoreAll(defs, t), seen)
  {
    UnconfusedIsFollowed(s.branches, defs, t, seen);
    PrunedIsAccepted(v, s, defs, t, seen);
  }

  /******* A union inside a union *******/

  // A branch that is itself a union states neither a constant nor a type, so it is never
  // selected.
  lemma NestedUnionIsNeverSelected(v: Json, branches: seq<Schema>, defs: Definitions, seen: set<string>, i: nat)
    requires i < |branches| && Resolved(branches[i], defs, seen).Union?
    ensures Selected(v, branches, defs, seen) != Some(i)
  {}
}
