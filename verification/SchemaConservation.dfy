// What pruning and completion leave alone, said of the values only: pruning takes nothing but
// null members away, completion adds nothing else, and together they return every value
// without nulls as it was.
module SchemaConservation {
  import opened JsonValues
  import opened ActionSchemas
  import opened SchemaCompiler
  import opened SchemaPruning
  import opened SchemaGuidance
  import opened SchemaMeaning
  import opened SchemaCompletion

  // No object in the value has a null member.
  predicate NullFree(v: Json)
  {
    match v
    case JArr(items) => forall i :: 0 <= i < |items| ==> NullFree(items[i])
    case JObj(members) => forall k :: k in members ==> !members[k].JNull? && NullFree(members[k])
    case _ => true
  }

  // `w` is `v` without some of the null members of its objects, at any depth.
  predicate OnlyNullsRemoved(v: Json, w: Json)
  {
    match v
    case JArr(items) =>
      w.JArr? && |w.items| == |items| && forall i :: 0 <= i < |items| ==> OnlyNullsRemoved(items[i], w.items[i])
    case JObj(members) =>
      && w.JObj? && w.members.Keys <= members.Keys
      && forall k :: k in members ==>
           if k in w.members then OnlyNullsRemoved(members[k], w.members[k]) else members[k].JNull?
    case _ => w == v
  }

  lemma {:induction false} NothingRemoved(v: Json)
    ensures OnlyNullsRemoved(v, v)
  {
    if v.JArr? {
      forall i | 0 <= i < |v.items| { NothingRemoved(v.items[i]); }
    } else if v.JObj? {
      forall k | k in v.members { NothingRemoved(v.members[k]); }
    }
  }

  // Where there is no null member nothing can have been removed.
  lemma {:induction false} NullFreeKeepsAll(v: Json, w: Json)
    requires NullFree(v) && OnlyNullsRemoved(v, w)
    ensures w == v
  {
    if v.JArr? {
      forall i | 0 <= i < |v.items| { NullFreeKeepsAll(v.items[i], w.items[i]); }
      assert w.items == v.items;
    } else if v.JObj? {
      forall k | k in v.members
        ensures k in w.members && w.members[k] == v.members[k]
      {
        NullFreeKeepsAll(v.members[k], w.members[k]);
      }
      assert w.members == v.members;
    }
  }

  /******* Pruning *******/

  // Whatever pruning takes away, at any depth, is a null member; it adds and changes none.
  lemma {:induction false} PruneRemovesOnlyNulls(v: Json, s: Schema, defs: Definitions, seen: set<string>)
    ensures OnlyNullsRemoved(v, Prune(v, s, defs, seen))
    decreases defs.Keys - seen, s
  {
    NothingRemoved(v);
    match s
    case Ref(name) =>
      if name in defs && name !in seen { PruneRemovesOnlyNulls(v, defs[name], defs, seen + {name}); }
    case Union(_, branches) =>
      var i := Selected(v, branches, defs, seen);
      if i.Some? { PruneRemovesOnlyNulls(v, branches[i.value], defs, seen); }
    case Node(_, _, _, _, items, _, _, _) =>
      if v.JObj? {
        forall k | k in v.members && k in s.Props() { PruneRemovesOnlyNulls(v.members[k], s.Props()[k], defs, seen); }
      } else if v.JArr? && items.Items? {
        forall i | 0 <= i < |v.items| { PruneRemovesOnlyNulls(v.items[i], items.each, defs, seen); }
      }
  }

  // So a value without null members is returned unchanged, by every schema.
  lemma NullFreeIsNotPruned(v: Json, s: Schema, defs: Definitions, seen: set<string>)
    requires NullFree(v)
    ensures Prune(v, s, defs, seen) == v
  {
    PruneRemovesOnlyNulls(v, s, defs, seen);
    NullFreeKeepsAll(v, Prune(v, s, defs, seen));
  }

  // An object node loses exactly its null members that are not required.
  lemma NodeLosesOptionalNulls(v: Json, s: Schema, defs: Definitions, seen: set<string>, k: string)
    requires s.Node? && v.JObj? && k in v.members
    ensures var w := Prune(v, s, defs, seen);
      w.JObj? && (k !in w.members <==> v.members[k] == JNull && !(s.required.Some? && k in s.required.value))
  {}

  /******* Completion *******/

  // What completion adds is null members only: removing them gives the value back.
  lemma {:induction false} CompletionAddsOnlyNulls(v: Json, s: Schema, defs: Definitions, t: Target, seen: set<string>)
    ensures OnlyNullsRemoved(Complete(v, s, defs, t, seen), v)
    decreases defs.Keys - seen, s
  {
    NothingRemoved(v);
    match s
    case Ref(name) =>
      if name in defs && name !in seen { CompletionAddsOnlyNulls(v, defs[name], defs, t, seen + {name}); }
    case Union(_, branches) =>
      var i := AcceptingBranch(v, branches, defs, seen);
      if i.Some? { CompletionAddsOnlyNulls(v, branches[i.value], defs, t, seen); }
    case Node(_, _, _, _, items, _, _, _) =>
      if v.JObj? {
        forall k | k in v.members && k in s.Props() {
          CompletionAddsOnlyNulls(v.members[k], s.Props()[k], defs, t, seen);
        }
      } else if v.JArr? && items.Items? {
        forall i | 0 <= i < |v.items| { CompletionAddsOnlyNulls(v.items[i], items.each, defs, t, seen); }
      }
  }

  // Round trip: a value without null members that the source accepts comes back as itself.
  lemma NullFreeRoundTrips(v: Json, s: Schema, defs: Definitions, t: Target, seen: set<string>)
    requires GoodDefinitions(defs, t) && GoodSchema(s, defs, t)
    requires SentGuided(s, defs, t, seen) && SourceGuided(s, defs, seen)
    requires Accepts(v, s, defs, seen) && NullFree(v)
    ensures Prune(Complete(v, s, defs, t, seen), s, defs, seen) == v
  {
    PruneUndoesCompletion(v, s, defs, t, seen);
    NullFreeIsNotPruned(v, s, defs, seen);
  }
}
