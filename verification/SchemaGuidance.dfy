// What pruning needs of a union: that it follows the branch that accepts. The condition is
// about values; constants and declared types that tell the branches apart are enough for it.
module SchemaGuidance {
  import opened JsonValues
  import opened ActionSchemas
  import opened SchemaCompiler
  import opened SchemaExclusion
  import opened SchemaPruning

  ghost predicate PlainDefinitions(defs: Definitions)
  {
    forall k :: k in defs ==> Plain(defs[k])
  }

  ghost predicate PrunesAlike(v: Json, branches: seq<Schema>, i: nat, defs: Definitions, seen: set<string>)
    requires i < |branches|
  {
    Prune(v, Union(false, branches), defs, seen) == Prune(v, branches[i], defs, seen)
  }

  // Whatever a compiled branch accepts is pruned against the union as against that branch.
  ghost predicate FollowsSent(branches: seq<Schema>, defs: Definitions, t: Target, seen: set<string>)
  {
    forall v, i :: 0 <= i < |branches| && Accepts(v, Lower(branches[i], t), LowerAll(defs, t), seen)
      ==> PrunesAlike(v, branches, i, defs, seen)
  }

  // The same for what a source branch accepts.
  ghost predicate FollowsSource(branches: seq<Schema>, defs: Definitions, seen: set<string>)
  {
    forall v, i :: 0 <= i < |branches| && Accepts(v, branches[i], defs, seen)
      ==> PrunesAlike(v, branches, i, defs, seen)
  }

  // At every union, pruning follows what a provider sends.
  ghost predicate SentGuided(s: Schema, defs: Definitions, t: Target, seen: set<string>)
    decreases defs.Keys - seen, s
  {
    match s
    case Ref(name) => name in defs && name !in seen ==> SentGuided(defs[name], defs, t, seen + {name})
    case Union(_, branches) =>
      && FollowsSent(branches, defs, t, seen)
      && forall i :: 0 <= i < |branches| ==> SentGuided(branches[i], defs, t, seen)
    case Node(_, _, _, _, items, properties, _, _) =>
      && (items.Items? ==> SentGuided(items.each, defs, t, seen))
      && (properties.Properties? ==> forall k :: k in properties.of ==> SentGuided(properties.of[k], defs, t, seen))
  }

  // At every union, pruning follows what the source accepts.
  ghost predicate SourceGuided(s: Schema, defs: Definitions, seen: set<string>)
    decreases defs.Keys - seen, s
  {
    match s
    case Ref(name) => name in defs && name !in seen ==> SourceGuided(defs[name], defs, seen + {name})
    case Union(_, branches) =>
      && FollowsSource(branches, defs, seen)
      && forall i :: 0 <= i < |branches| ==> SourceGuided(branches[i], defs, seen)
    case Node(_, _, _, _, items, properties, _, _) =>
      && (items.Items? ==> SourceGuided(items.each, defs, seen))
      && (properties.Properties? ==> forall k :: k in properties.of ==> SourceGuided(properties.of[k], defs, seen))
  }

  lemma PruneIgnoresExclusivity(v: Json, exclusive: bool, branches: seq<Schema>, defs: Definitions, seen: set<string>)
    ensures Prune(v, Union(exclusive, branches), defs, seen) == Prune(v, Union(false, branches), defs, seen)
  {}

  /******* Unions see containers the way selection does *******/

  // Only the node's own keywords matter to its rejection of containers.
  ghost predicate ScalarMembers(s: Schema)
    requires s.Node?
  {
    && (s.constant.Some? ==> s.constant.value.Scalar())
    && (s.choices.Some? ==> forall i :: 0 <= i < |s.choices.value| ==> s.choices.value[i].Scalar())
  }

  lemma ContainerFreeRejects(v: Json, s: Schema)
    requires v.Container() && ContainerFree(s) && ScalarMembers(s)
    ensures !LocalHolds(v, s)
  {}

  lemma LoweredAcceptsFits(v: Json, a: Schema, t: Target, defs: Definitions, seen: set<string>)
    requires v.Container() && Plain(a) && (ContainerFree(a) || ContainerNode(a))
    requires Accepts(v, Lower(a, t), LowerAll(defs, t), seen)
    ensures Fits(v, a) && !ContainerFree(a)
  {
    var l := Lower(a, t);
    if ContainerFree(a) {
      ContainerFreeRejects(v, l);
    } else if a.IsObject() {
      LowerKeepsConsts(a, t);
      AcceptedMatchesConsts(v, l, LowerAll(defs, t), seen);
    }
  }

  lemma SourceAcceptsFits(v: Json, a: Schema, defs: Definitions, seen: set<string>)
    requires v.Container() && Plain(a) && (ContainerFree(a) || ContainerNode(a))
    requires Accepts(v, a, defs, seen)
    ensures Fits(v, a) && !ContainerFree(a)
  {
    if ContainerFree(a) {
      ContainerFreeRejects(v, a);
    } else if a.IsObject() {
      AcceptedMatchesConsts(v, a, defs, seen);
    }
  }

  // The branch whose compiled form accepts a container is the branch pruning selects.
  lemma LoweredBranchIsSelected(v: Json, branches: seq<Schema>, defs: Definitions, t: Target, seen: set<string>, i: nat)
    requires PlainDefinitions(defs) && i < |branches|
    requires Plain(Union(false, branches)) && TellsApart(branches, defs, seen)
    requires v.Container() && Accepts(v, Lower(branches[i], t), LowerAll(defs, t), seen)
    ensures Selected(v, branches, defs, seen) == Some(i)
  {
    ResolveCommutes(branches[i], defs, t, seen);
    AcceptsResolved(v, Lower(branches[i], t), LowerAll(defs, t), seen);
    PlainResolved(branches[i], defs, seen);
    LoweredAcceptsFits(v, Resolved(branches[i], defs, seen), t, defs, Resolve(branches[i], defs, seen).1);
    FittingBranchIsSelected(v, branches, defs, seen, i);
  }

  lemma SourceBranchIsSelected(v: Json, branches: seq<Schema>, defs: Definitions, seen: set<string>, i: nat)
    requires PlainDefinitions(defs) && i < |branches|
    requires Plain(Union(false, branches)) && TellsApart(branches, defs, seen)
    requires v.Container() && Accepts(v, branches[i], defs, seen)
    ensures Selected(v, branches, defs, seen) == Some(i)
  {
    AcceptsResolved(v, branches[i], defs, seen);
    PlainResolved(branches[i], defs, seen);
    SourceAcceptsFits(v, Resolved(branches[i], defs, seen), defs, Resolve(branches[i], defs, seen).1);
    FittingBranchIsSelected(v, branches, defs, seen, i);
  }

  /******* Branches that look different are enough *******/

  lemma ScalarsPruneAlike(v: Json, branches: seq<Schema>, i: nat, defs: Definitions, seen: set<string>)
    requires i < |branches| && v.Scalar()
    ensures PrunesAlike(v, branches, i, defs, seen)
  {
    PruneKeepsShape(v, Union(false, branches), defs, seen);
    PruneKeepsShape(v, branches[i], defs, seen);
  }

  lemma SelectedPrunesAlike(v: Json, branches: seq<Schema>, i: nat, defs: Definitions, seen: set<string>)
    requires i < |branches| && Selected(v, branches, defs, seen) == Some(i)
    ensures PrunesAlike(v, branches, i, defs, seen)
  {}

  lemma ApartIsFollowed(branches: seq<Schema>, defs: Definitions, t: Target, seen: set<string>)
    requires PlainDefinitions(defs) && Plain(Union(false, branches)) && TellsApart(branches, defs, seen)
    ensures FollowsSent(branches, defs, t, seen) && FollowsSource(branches, defs, seen)
  {
    forall v, i | 0 <= i < |branches| && Accepts(v, Lower(branches[i], t), LowerAll(defs, t), seen)
      ensures PrunesAlike(v, branches, i, defs, seen)
    {
      if v.Container() {
        LoweredBranchIsSelected(v, branches, defs, t, seen, i);
        SelectedPrunesAlike(v, branches, i, defs, seen);
      } else {
        ScalarsPruneAlike(v, branches, i, defs, seen);
      }
    }
    forall v, i | 0 <= i < |branches| && Accepts(v, branches[i], defs, seen)
      ensures PrunesAlike(v, branches, i, defs, seen)
    {
      if v.Container() {
        SourceBranchIsSelected(v, branches, defs, seen, i);
        SelectedPrunesAlike(v, branches, i, defs, seen);
      } else {
        ScalarsPruneAlike(v, branches, i, defs, seen);
      }
    }
  }

  lemma {:induction false} DecidedIsGuided(s: Schema, defs: Definitions, t: Target, seen: set<string>)
    requires PlainDefinitions(defs) && Plain(s) && Decided(s, defs, seen)
    ensures SentGuided(s, defs, t, seen) && SourceGuided(s, defs, seen)
    decreases defs.Keys - seen, s
  {
    match s
    case Ref(name) =>
      if name in defs && name !in seen { DecidedIsGuided(defs[name], defs, t, seen + {name}); }
    case Union(_, branches) =>
      ApartIsFollowed(branches, defs, t, seen);
      forall i | 0 <= i < |branches|
        ensures SentGuided(branches[i], defs, t, seen) && SourceGuided(branches[i], defs, seen)
      {
        DecidedIsGuided(branches[i], defs, t, seen);
      }
    case Node(_, _, _, _, items, properties, _, _) =>
      if items.Items? { DecidedIsGuided(items.each, defs, t, seen); }
      if properties.Properties? {
        forall k | k in properties.of
          ensures SentGuided(properties.of[k], defs, t, seen) && SourceGuided(properties.of[k], defs, seen)
        {
          DecidedIsGuided(properties.of[k], defs, t, seen);
        }
      }
  }
}
