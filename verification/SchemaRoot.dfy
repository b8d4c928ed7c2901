// The whole compilation: a root union of action branches with its definitions, wrapped in
// the one-property envelope a provider answers in.
module SchemaRoot {
  import opened JsonValues
  import opened ActionSchemas
  import opened SchemaCompiler
  import opened SchemaExclusion
  import opened SchemaPruning
  import opened SchemaGuidance
  import opened SchemaMeaning
  import opened SchemaCompletion
  import opened SchemaConservation
  import opened SchemaTermination
  import opened SchemaRoundTrip

  const ENVELOPE_PROPERTY := "action"
  const MAX_NESTING_DEPTH := 10

  datatype Action = Action(exclusive: bool, branches: seq<Schema>, defs: Definitions)
  {
    function Root(): (r: Schema) {
      Union(exclusive, branches)
    }
  }

  function Envelope(a: Action, t: Target): (r: Schema)
  {
    Node(OneType(TObject), None, None, [], NoItems,
         Properties(map[ENVELOPE_PROPERTY := Lower(a.Root(), t)]), Some({ENVELOPE_PROPERTY}), Closed)
  }

  // A provider may send this action under the strict envelope.
  ghost predicate MaySend(v: Json, a: Action, t: Target)
  {
    Accepts(JObj(map[ENVELOPE_PROPERTY := v]), Envelope(a, t), LowerAll(a.defs, t), {})
  }

  // The names a definition may have: letters, digits and underscores, no digit first.
  predicate NameStart(c: char)
  {
    'a' <= c <= 'z' || 'A' <= c <= 'Z' || c == '_'
  }

  predicate NameChar(c: char)
  {
    NameStart(c) || '0' <= c <= '9'
  }

  predicate DefinitionName(name: string)
  {
    name != "" && NameStart(name[0]) && forall i :: 0 <= i < |name| ==> NameChar(name[i])
  }

  // `_compile_strict` returns instead of raising, its size counters apart. A root may have
  // a single branch, and its branches are told apart whichever keyword it uses.
  ghost predicate CompilesStrictly(a: Action, t: Target)
  {
    && a.branches != []
    && (forall k :: k in a.defs ==> DefinitionName(k) && Compiles(a.defs[k], a.defs.Keys, t))
    && (forall i :: 0 <= i < |a.branches| ==> Compiles(a.branches[i], a.defs.Keys, t))
    && MutuallyExclusive(LowerSeq(a.branches, t))
    && DepthWithin(Envelope(a, t), LowerAll(a.defs, t), {}, MAX_NESTING_DEPTH)
    && RoundTrips(a.Root(), t)
    && StaysAMapping(a.defs.Keys) && a.defs.Keys !! DroppedNames(t)
    && (forall k :: k in a.defs && k != "title" ==> RoundTrips(a.defs[k], t))
  }

  ghost predicate PlainAction(a: Action)
  {
    Plain(a.Root()) && PlainDefinitions(a.defs)
  }

  // Pruning follows what a provider sends, and what the source accepts.
  ghost predicate GuidedForSending(a: Action, t: Target)
  {
    PlainAction(a) && SentGuided(a.Root(), a.defs, t, {})
  }

  ghost predicate GuidedBothWays(a: Action, t: Target)
  {
    GuidedForSending(a, t) && SourceGuided(a.Root(), a.defs, {})
  }

  // Constants and declared types that tell the branches of every union apart are enough.
  lemma DecidedActionIsGuided(a: Action, t: Target)
    requires PlainAction(a) && Decided(a.Root(), a.defs, {})
    ensures GuidedBothWays(a, t)
  {
    DecidedIsGuided(a.Root(), a.defs, t, {});
  }

  // Compiling is itself the proof that the validator and the pruner return.
  lemma CompiledIsAcyclic(a: Action, t: Target)
    requires CompilesStrictly(a, t)
    ensures Acyclic(a.Root(), a.defs, {})
  {
    var e := Envelope(a, t);
    assert ENVELOPE_PROPERTY in e.properties.of;
    assert DepthWithin(e.properties.of[ENVELOPE_PROPERTY], LowerAll(a.defs, t), {}, MAX_NESTING_DEPTH - 1);
    MeasuredIsAcyclic(a.Root(), a.defs, t, {}, MAX_NESTING_DEPTH - 1);
  }

  lemma EnvelopeCarries(v: Json, a: Action, t: Target)
    ensures MaySend(v, a, t) <==> Accepts(v, Lower(a.Root(), t), LowerAll(a.defs, t), {})
  {
    var e, m := Envelope(a, t), map[ENVELOPE_PROPERTY := v];
    assert e.Props().Keys == {ENVELOPE_PROPERTY} == m.Keys;
    assert LocalHolds(JObj(m), e);
  }

  // Soundness for a provider: an action it may send under the compiled envelope, pruned
  // against the source schema, satisfies the source without its dropped keywords.
  lemma ProviderActionIsAccepted(v: Json, a: Action, t: Target)
    requires CompilesStrictly(a, t) && GuidedForSending(a, t)
    requires MaySend(v, a, t)
    ensures Accepts(Prune(v, a.Root(), a.defs, {}), Restore(a.Root(), t), RestoreAll(a.defs, t), {})
  {
    EnvelopeCarries(v, a, t);
    var s := a.Root();
    var i := LoweredUnionBranch(v, s, a.defs, t, {});
    assert PrunesAlike(v, a.branches, i, a.defs, {});
    PruneIgnoresExclusivity(v, a.exclusive, a.branches, a.defs, {});
    PrunedIsAccepted(v, a.branches[i], a.defs, t, {});
    RestoredUnionAccepts(Prune(v, s, a.defs, {}), s, a.defs, t, {}, i);
  }

  // Pruning selects the branch it should at the root, and follows branch `i` below it.
  ghost predicate ArrivesBy(a: Action, t: Target, i: nat)
    requires i < |a.branches|
  {
    && FollowsSent(a.branches, a.defs, t, {}) && FollowsSource(a.branches, a.defs, {})
    && SentGuided(a.branches[i], a.defs, t, {}) && SourceGuided(a.branches[i], a.defs, {})
  }

  lemma BranchCompletionPrunesBack(v: Json, a: Action, t: Target, i: nat)
    requires i < |a.branches| && GoodDefinitions(a.defs, t) && PlainAction(a) && ArrivesBy(a, t, i)
    requires Compiles(a.branches[i], a.defs.Keys, t) && Accepts(v, a.branches[i], a.defs, {})
    ensures Prune(Complete(v, a.branches[i], a.defs, t, {}), a.Root(), a.defs, {}) == Prune(v, a.Root(), a.defs, {})
  {
    var s, sent := a.branches[i], Complete(v, a.branches[i], a.defs, t, {});
    CompletedIsAccepted(v, s, a.defs, t, {});
    assert PrunesAlike(sent, a.branches, i, a.defs, {}) && PrunesAlike(v, a.branches, i, a.defs, {});
    PruneIgnoresExclusivity(sent, a.exclusive, a.branches, a.defs, {});
    PruneIgnoresExclusivity(v, a.exclusive, a.branches, a.defs, {});
    PruneUndoesCompletion(v, s, a.defs, t, {});
  }

  lemma BranchCompletionIsLowered(v: Json, s: Schema, defs: Definitions, t: Target, i: nat)
    requires s.Union? && i < |s.branches| && GoodDefinitions(defs, t)
    requires GoodSchema(s.branches[i], defs, t) && Accepts(v, s.branches[i], defs, {})
    ensures Accepts(Complete(v, s.branches[i], defs, t, {}), Lower(s, t), LowerAll(defs, t), {})
  {
    CompletedIsAccepted(v, s.branches[i], defs, t, {});
    assert Lower(s, t).branches[i] == Lower(s.branches[i], t);
  }

  // Completeness: every action the source accepts can be sent.
  lemma EveryActionCanBeSent(v: Json, a: Action, t: Target)
    requires CompilesStrictly(a, t) && PlainAction(a)
    requires Accepts(v, a.Root(), a.defs, {})
    ensures MaySend(Complete(v, a.Root(), a.defs, t, {}), a, t)
  {
    var i := AcceptingBranch(v, a.branches, a.defs, {}).value;
    var sent := Complete(v, a.branches[i], a.defs, t, {});
    assert sent == Complete(v, a.Root(), a.defs, t, {});
    BranchCompletionIsLowered(v, a.Root(), a.defs, t, i);
    EnvelopeCarries(sent, a, t);
  }

  // What the provider's form of an action arrives as.
  ghost function Arrived(v: Json, a: Action, t: Target): (w: Json)
  {
    Prune(Complete(v, a.Root(), a.defs, t, {}), a.Root(), a.defs, {})
  }

  lemma BranchArrives(v: Json, a: Action, t: Target, i: nat)
    requires CompilesStrictly(a, t) && PlainAction(a) && i < |a.branches| && ArrivesBy(a, t, i)
    requires AcceptingBranch(v, a.branches, a.defs, {}) == Some(i)
    ensures Arrived(v, a, t) == Prune(v, a.Root(), a.defs, {})
    ensures OnlyNullsRemoved(v, Arrived(v, a, t)) && (NullFree(v) ==> Arrived(v, a, t) == v)
  {
    PruneRemovesOnlyNulls(v, a.Root(), a.defs, {});
    if NullFree(v) { NullFreeIsNotPruned(v, a.Root(), a.defs, {}); }
    assert Complete(v, a.branches[i], a.defs, t, {}) == Complete(v, a.Root(), a.defs, t, {});
    BranchCompletionPrunesBack(v, a, t, i);
  }

  // And it arrives as the source would have it: as itself when it holds no null member, and
  // otherwise without some of these.
  lemma EveryActionArrives(v: Json, a: Action, t: Target)
    requires CompilesStrictly(a, t) && GuidedBothWays(a, t)
    requires Accepts(v, a.Root(), a.defs, {})
    ensures Arrived(v, a, t) == Prune(v, a.Root(), a.defs, {})
    ensures OnlyNullsRemoved(v, Arrived(v, a, t)) && (NullFree(v) ==> Arrived(v, a, t) == v)
  {
    BranchArrives(v, a, t, AcceptingBranch(v, a.branches, a.defs, {}).value);
  }

  // Dropping keywords only widens, even under `oneOf`.
  lemma {:induction false} DroppingWidens(v: Json, s: Schema, defs: Definitions, t: Target, seen: set<string>)
    requires GoodDefinitions(defs, t) && Plain(s) && Compiles(s, defs.Keys, t)
    requires Accepts(v, s, defs, seen)
    ensures Accepts(v, Restore(s, t), RestoreAll(defs, t), seen)
    decreases defs.Keys - seen, s
  {
    match s
    case Ref(name) => DroppingWidens(v, defs[name], defs, t, seen + {name});
    case Union(_, branches) =>
      var i :| 0 <= i < |branches| && Accepts(v, branches[i], defs, seen);
      DroppingWidens(v, branches[i], defs, t, seen);
      RestoredUnionAccepts(v, s, defs, t, seen, i);
    case Node(_, _, _, facets, items, properties, _, _) =>
      DroppingHoldsLocally(v, s, t);
      if v.JObj? && s.IsObject() {
        DroppingWidensMembers(v, s, defs, t, seen);
      } else if v.JArr? && items.Items? {
        forall i | 0 <= i < |v.items|
          ensures Accepts(v.items[i], Restore(s, t).items.each, RestoreAll(defs, t), seen)
        {
          DroppingWidens(v.items[i], items.each, defs, t, seen);
        }
      }
  }

  lemma DroppingHoldsLocally(v: Json, s: Schema, t: Target)
    requires s.Node? && Plain(s) && LocalHolds(v, s)
    ensures LocalHolds(v, Restore(s, t))
  {
    KeptFacetsHold(v, v, s.facets, t);
    if s.IsObject() { LowerKeepsProperties(s, t); }
  }

  lemma {:induction false} DroppingWidensMembers(v: Json, s: Schema, defs: Definitions, t: Target, seen: set<string>)
    requires s.IsObject() && v.JObj? && GoodDefinitions(defs, t) && Plain(s) && Compiles(s, defs.Keys, t)
    requires Accepts(v, s, defs, seen)
    ensures var p := Restore(s, t).Props();
      forall k :: k in v.members && k in p ==> Accepts(v.members[k], p[k], RestoreAll(defs, t), seen)
    decreases defs.Keys - seen, s, 0
  {
    LowerKeepsProperties(s, t);
    forall k | k in v.members && k in s.Props()
      ensures Accepts(v.members[k], Restore(s, t).Props()[k], RestoreAll(defs, t), seen)
    {
      DroppingWidens(v.members[k], s.Props()[k], defs, t, seen);
    }
  }
}
