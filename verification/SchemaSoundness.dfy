// When pruning is sound on a discriminated union: wherever selection can be confused, what
// the branch sends unpruned must already be in order.
module SchemaSoundness {
  import opened JsonValues
  import opened ActionSchemas
  import opened SchemaCompiler
  import opened SchemaExclusion
  import opened SchemaPruning
  import opened SchemaGuidance
  import opened SchemaMeaning
  import opened SchemaSelection

  // A compiled value of the property `k`, as far as it can stand beside the constants of
  // `b`, is one that the restored property accepts.
  ghost predicate MemberInOrder(w: Json, k: string, a: Schema, b: Schema, defs: Definitions, t: Target,
                                seen: set<string>)
    requires k in Props(Lower(a, t)) && k in Props(Restore(a, t))
  {
    (k in Consts(b) ==> PyEq(w, Consts(b)[k])) && Accepts(w, Props(Lower(a, t))[k], LowerAll(defs, t), seen)
    ==> Accepts(w, Props(Restore(a, t))[k], RestoreAll(defs, t), seen)
  }

  function Props(s: Schema): (r: map<string, Schema>)
  {
    if s.Node? then s.Props() else map[]
  }

  // So is every property: nothing is left to prune from what `a` sends in the guise of `b`.
  ghost predicate NothingToPrune(a: Schema, b: Schema, defs: Definitions, t: Target, seen: set<string>)
  {
    forall w, k :: k in Props(Lower(a, t)) && k in Props(Restore(a, t)) ==> MemberInOrder(w, k, a, b, defs, t, seen)
  }

  ghost predicate AcceptsSomething(a: Schema, defs: Definitions, t: Target, seen: set<string>)
  {
    exists v :: Accepts(v, Lower(a, t), LowerAll(defs, t), seen)
  }

  // A branch that accepts something and tolerates another's constants has nothing to prune.
  ghost predicate HarmlessPair(a: Schema, b: Schema, defs: Definitions, t: Target, seen: set<string>)
    requires a.IsObject()
  {
    AcceptsSomething(a, defs, t, seen) && Confusable(a, b, defs, t, seen) ==> NothingToPrune(a, b, defs, t, seen)
  }

  ghost predicate Harmless(branches: seq<Schema>, defs: Definitions, t: Target, seen: set<string>)
    requires Discriminated(branches)
  {
    forall i, j :: 0 <= i < |branches| && 0 <= j < |branches| && i != j ==>
      HarmlessPair(branches[i], branches[j], defs, t, seen)
  }

  ghost predicate SoundAt(v: Json, s: Schema, defs: Definitions, t: Target, seen: set<string>)
  {
    Accepts(v, Lower(s, t), LowerAll(defs, t), seen)
    ==> Accepts(Prune(v, s, defs, seen), Restore(s, t), RestoreAll(defs, t), seen)
  }

  // Every branch is in order for soundness by itself.
  ghost predicate GoodBranches(branches: seq<Schema>, defs: Definitions, t: Target, seen: set<string>)
  {
    && GoodDefinitions(defs, t) && Discriminated(branches)
    && (forall i :: 0 <= i < |branches| ==> GoodSchema(branches[i], defs, t) && SentGuided(branches[i], defs, t, seen))
    && MutuallyExclusive(LowerSeq(branches, t))
  }

  /******* Harmless confusion *******/

  lemma UnprunedIsAccepted(v: Json, a: Schema, b: Schema, defs: Definitions, t: Target, seen: set<string>)
    requires a.IsObject() && GoodSchema(a, defs, t) && b.Node? && Consts(b) != map[]
    requires Accepts(v, Lower(a, t), LowerAll(defs, t), seen) && Candidate(v, b, defs, seen)
    requires NothingToPrune(a, b, defs, t, seen)
    ensures Accepts(v, Restore(a, t), RestoreAll(defs, t), seen)
  {
    LowerKeepsProperties(a, t);
    PrunedHoldsLocally(v, v, a, t);
    forall k | k in v.members && k in Restore(a, t).properties.of
      ensures Accepts(v.members[k], Restore(a, t).properties.of[k], RestoreAll(defs, t), seen)
    {
      assert Resolved(b, defs, seen) == b;
      assert Accepts(v.members[k], Props(Lower(a, t))[k], LowerAll(defs, t), seen);
      assert MemberInOrder(v.members[k], k, a, b, defs, t, seen);
    }
  }

  lemma RivalMeansUnpruned(v: Json, exclusive: bool, branches: seq<Schema>, defs: Definitions, t: Target,
                           seen: set<string>, i: nat, j: nat)
    requires Discriminated(branches) && i < |branches| && j < |branches| && i != j
    requires Accepts(v, Lower(branches[i], t), LowerAll(defs, t), seen) && Candidate(v, branches[j], defs, seen)
    ensures Prune(v, Union(exclusive, branches), defs, seen) == v
  {
    SentIsCandidate(v, branches[i], defs, t, seen);
    assert forall k :: !OnlyCandidate(v, branches, defs, seen, k);
  }

  lemma ConfusedIsSound(v: Json, exclusive: bool, branches: seq<Schema>, defs: Definitions, t: Target,
                        seen: set<string>, i: nat, j: nat)
    requires GoodBranches(branches, defs, t, seen) && i < |branches| && j < |branches| && i != j
    requires HarmlessPair(branches[i], branches[j], defs, t, seen)
    requires Accepts(v, Lower(branches[i], t), LowerAll(defs, t), seen) && Candidate(v, branches[j], defs, seen)
    ensures SoundAt(v, Union(exclusive, branches), defs, t, seen)
  {
    RivalMeansUnpruned(v, exclusive, branches, defs, t, seen, i, j);
    AcceptedCandidateIsConfusable(v, branches[i], branches[j], defs, t, seen);
    UnprunedIsAccepted(v, branches[i], branches[j], defs, t, seen);
    RestoredUnionAccepts(v, Union(exclusive, branches), defs, t, seen, i);
  }

  lemma UnrivalledIsSound(v: Json, exclusive: bool, branches: seq<Schema>, defs: Definitions, t: Target,
                          seen: set<string>, i: nat)
    requires GoodBranches(branches, defs, t, seen) && i < |branches|
    requires Accepts(v, Lower(branches[i], t), LowerAll(defs, t), seen)
    requires forall j :: 0 <= j < |branches| && j != i ==> !Candidate(v, branches[j], defs, seen)
    ensures SoundAt(v, Union(exclusive, branches), defs, t, seen)
  {
    SentIsCandidate(v, branches[i], defs, t, seen);
    assert OnlyCandidate(v, branches, defs, seen, i);
    PrunedIsAccepted(v, branches[i], defs, t, seen);
    RestoredUnionAccepts(Prune(v, branches[i], defs, seen), Union(exclusive, branches), defs, t, seen, i);
  }

  lemma HarmlessIsSoundAt(v: Json, exclusive: bool, branches: seq<Schema>, defs: Definitions, t: Target,
                          seen: set<string>)
    requires GoodBranches(branches, defs, t, seen) && Harmless(branches, defs, t, seen)
    ensures SoundAt(v, Union(exclusive, branches), defs, t, seen)
  {
    if Accepts(v, Lower(Union(exclusive, branches), t), LowerAll(defs, t), seen) {
      var i := LoweredUnionBranch(v, Union(exclusive, branches), defs, t, seen);
      if j: nat :| j < |branches| && j != i && Candidate(v, branches[j], defs, seen) {
        ConfusedIsSound(v, exclusive, branches, defs, t, seen, i, j);
      } else {
        UnrivalledIsSound(v, exclusive, branches, defs, t, seen, i);
      }
    }
  }

  /******* Harmful confusion *******/

  // The disguised object with the offending member.
  ghost function Offending(v0: Json, a: Schema, b: Schema, k: string, w: Json, defs: Definitions, t: Target,
                           seen: set<string>): (v: Json)
    requires a.IsObject() && v0.JObj?
  {
    JObj(Disguise(v0, a, b, defs, t, seen).members[k := w])
  }

  lemma ReplacedMember(d: Json, s: Schema, k: string, w: Json, defs: Definitions, seen: set<string>)
    requires s.Node? && ScalarMembers(s) && s.additional.Closed? && s.properties.Properties? && k in s.properties.of
    requires d.JObj? && Accepts(d, s, defs, seen) && Accepts(w, s.properties.of[k], defs, seen)
    ensures Accepts(JObj(d.members[k := w]), s, defs, seen)
  {
    var v := JObj(d.members[k := w]);
    ObjectsHoldAlike(d, v, s);
    forall j | j in v.members && j in s.properties.of
      ensures Accepts(v.members[j], s.properties.of[j], defs, seen)
    {
      if j != k { assert Accepts(d.members[j], s.properties.of[j], defs, seen); }
    }
  }

  lemma OffendingIsSent(v0: Json, a: Schema, b: Schema, k: string, w: Json, defs: Definitions, t: Target,
                        seen: set<string>)
    requires a.IsObject() && Plain(a) && b.Node? && Consts(b) != map[]
    requires Accepts(v0, Lower(a, t), LowerAll(defs, t), seen) && Confusable(a, b, defs, t, seen)
    requires k in Props(Lower(a, t)) && Accepts(w, Props(Lower(a, t))[k], LowerAll(defs, t), seen)
    ensures v0.JObj? && Accepts(Offending(v0, a, b, k, w, defs, t, seen), Lower(a, t), LowerAll(defs, t), seen)
  {
    ConfusableHasAWitness(v0, a, b, defs, t, seen);
    ReplacedMember(Disguise(v0, a, b, defs, t, seen), Lower(a, t), k, w, LowerAll(defs, t), seen);
  }

  lemma OffendingIsCandidate(v0: Json, a: Schema, b: Schema, k: string, w: Json, defs: Definitions, t: Target,
                             seen: set<string>)
    requires a.IsObject() && Plain(a) && b.Node? && Consts(b) != map[] && v0.JObj?
    requires Candidate(Disguise(v0, a, b, defs, t, seen), b, defs, seen)
    requires k in Consts(b) ==> PyEq(w, Consts(b)[k])
    ensures Candidate(Offending(v0, a, b, k, w, defs, t, seen), b, defs, seen)
  {
    assert Resolved(b, defs, seen) == b;
    var d, v := Disguise(v0, a, b, defs, t, seen), Offending(v0, a, b, k, w, defs, t, seen);
    forall j | j in Consts(b)
      ensures PyEq(Get(v, j), Consts(b)[j])
    {
      assert PyEq(Get(d, j), Consts(b)[j]);
    }
  }

  lemma OffenderIsRefused(v: Json, a: Schema, k: string, defs: Definitions, t: Target, seen: set<string>)
    requires a.IsObject() && v.JObj? && k in v.members && k in Props(Restore(a, t))
    requires !Accepts(v.members[k], Props(Restore(a, t))[k], RestoreAll(defs, t), seen)
    ensures !Accepts(v, Restore(a, t), RestoreAll(defs, t), seen)
  {
    LowerKeepsProperties(a, t);
  }

  lemma SentCarriesConsts(v: Json, a: Schema, defs: Definitions, t: Target, seen: set<string>)
    requires a.IsObject() && Accepts(v, Lower(a, t), LowerAll(defs, t), seen)
    ensures MatchesConsts(v, Consts(a)) && v.members.Keys <= BranchProperties(a)
  {
    LowerKeepsConsts(a, t);
    AcceptedMatchesConsts(v, Lower(a, t), LowerAll(defs, t), seen);
  }

  lemma RestoredCarriesConsts(v: Json, a: Schema, defs: Definitions, t: Target, seen: set<string>)
    requires a.IsObject() && Accepts(v, Restore(a, t), RestoreAll(defs, t), seen)
    ensures MatchesConsts(v, Consts(a)) && v.members.Keys <= BranchProperties(a)
  {
    LowerKeepsConsts(a, t);
    AcceptedMatchesConsts(v, Restore(a, t), RestoreAll(defs, t), seen);
  }

  lemma AdmittedAreExclusive(branches: seq<Schema>, t: Target, i: nat, m: nat)
    requires MutuallyExclusive(LowerSeq(branches, t)) && i < |branches| && m < |branches| && i != m
    ensures branches[i].IsObject() && branches[m].IsObject()
    ensures Exclusive(branches[i], branches[m]) || Exclusive(branches[m], branches[i])
  {
    var l := LowerSeq(branches, t);
    assert l[i] == Lower(branches[i], t) && l[m] == Lower(branches[m], t);
    DiscriminatedIsObject(branches[i], t);
    DiscriminatedIsObject(branches[m], t);
    if i < m {
      SourcesAreExclusive(branches[i], branches[m], t);
    } else {
      SourcesAreExclusive(branches[m], branches[i], t);
    }
  }

  // What one compiled branch accepts no other restored branch does.
  lemma OtherBranchRefuses(v: Json, branches: seq<Schema>, defs: Definitions, t: Target, seen: set<string>,
                           i: nat, m: nat)
    requires MutuallyExclusive(LowerSeq(branches, t)) && i < |branches| && m < |branches| && i != m
    requires Accepts(v, Lower(branches[i], t), LowerAll(defs, t), seen)
    ensures !Accepts(v, Restore(branches[m], t), RestoreAll(defs, t), seen)
  {
    AdmittedAreExclusive(branches, t, i, m);
    if Accepts(v, Restore(branches[m], t), RestoreAll(defs, t), seen) {
      SentCarriesConsts(v, branches[i], defs, t, seen);
      RestoredCarriesConsts(v, branches[m], defs, t, seen);
      CarryingBothIsNotExclusive(v, branches[i], branches[m]);
      CarryingBothIsNotExclusive(v, branches[m], branches[i]);
    }
  }

  lemma RefusedByAll(v: Json, exclusive: bool, branches: seq<Schema>, defs: Definitions, t: Target, seen: set<string>,
                     i: nat)
    requires MutuallyExclusive(LowerSeq(branches, t)) && i < |branches|
    requires Accepts(v, Lower(branches[i], t), LowerAll(defs, t), seen)
    requires !Accepts(v, Restore(branches[i], t), RestoreAll(defs, t), seen)
    ensures Accepts(v, Lower(Union(exclusive, branches), t), LowerAll(defs, t), seen)
    ensures !Accepts(v, Restore(Union(exclusive, branches), t), RestoreAll(defs, t), seen)
  {
    var s := Union(exclusive, branches);
    assert Lower(s, t).branches[i] == Lower(branches[i], t);
    forall m | 0 <= m < |branches|
      ensures !Accepts(v, Restore(s, t).branches[m], RestoreAll(defs, t), seen)
    {
      assert Restore(s, t).branches[m] == Restore(branches[m], t);
      if m != i { OtherBranchRefuses(v, branches, defs, t, seen, i, m); }
    }
  }

  lemma OffenderIsUnsound(exclusive: bool, branches: seq<Schema>, defs: Definitions, t: Target, seen: set<string>,
                          i: nat, j: nat, k: string, w: Json) returns (v: Json)
    requires GoodBranches(branches, defs, t, seen) && i < |branches| && j < |branches| && i != j
    requires AcceptsSomething(branches[i], defs, t, seen)
    requires Confusable(branches[i], branches[j], defs, t, seen)
    requires k in Props(Lower(branches[i], t)) && k in Props(Restore(branches[i], t))
    requires !MemberInOrder(w, k, branches[i], branches[j], defs, t, seen)
    ensures !SoundAt(v, Union(exclusive, branches), defs, t, seen)
  {
    var a, b := branches[i], branches[j];
    var v0 :| Accepts(v0, Lower(a, t), LowerAll(defs, t), seen);
    OffendingIsSent(v0, a, b, k, w, defs, t, seen);
    ConfusableHasAWitness(v0, a, b, defs, t, seen);
    OffendingIsCandidate(v0, a, b, k, w, defs, t, seen);
    v := Offending(v0, a, b, k, w, defs, t, seen);
    OffenderIsRefused(v, a, k, defs, t, seen);
    RefusedByAll(v, exclusive, branches, defs, t, seen, i);
    RivalMeansUnpruned(v, exclusive, branches, defs, t, seen, i, j);
  }

  // Soundness of pruning on a discriminated union whose branches are sound: exactly when
  // every branch that tolerates another's constants has nothing to prune beside them.
  lemma SoundnessExact(exclusive: bool, branches: seq<Schema>, defs: Definitions, t: Target, seen: set<string>)
    requires GoodBranches(branches, defs, t, seen)
    ensures (forall v :: SoundAt(v, Union(exclusive, branches), defs, t, seen))
       <==> Harmless(branches, defs, t, seen)
  {
    if Harmless(branches, defs, t, seen) {
      forall v { HarmlessIsSoundAt(v, exclusive, branches, defs, t, seen); }
    } else {
      var i, j :| 0 <= i < |branches| && 0 <= j < |branches| && i != j
        && !HarmlessPair(branches[i], branches[j], defs, t, seen);
      var w, k :| k in Props(Lower(branches[i], t)) && k in Props(Restore(branches[i], t))
        && !MemberInOrder(w, k, branches[i], branches[j], defs, t, seen);
      var v := OffenderIsUnsound(exclusive, branches, defs, t, seen, i, j, k, w);
    }
  }
}
