// Pruning of the explicit nulls a strict target forces on optional fields, and the branch
// selection it relies on.
module SchemaPruning {
  import opened JsonValues
  import opened ActionSchemas
  import opened SchemaCompiler
  import opened SchemaExclusion

  // Follows references until something else; the second part is what was followed.
  function Resolve(s: Schema, defs: Definitions, seen: set<string>): (r: (Schema, set<string>))
    decreases defs.Keys - seen
  {
    if s.Ref? && s.name in defs && s.name !in seen
    then Resolve(defs[s.name], defs, seen + {s.name})
    else (s, seen)
  }

  function Resolved(s: Schema, defs: Definitions, seen: set<string>): (r: Schema)
  {
    Resolve(s, defs, seen).0
  }

  // `value.get(name)`: a missing member reads as None.
  function Get(v: Json, name: string): (r: Json)
    requires v.JObj?
  {
    if name in v.members then v.members[name] else JNull
  }

  // A branch is a candidate by its constants when it has any and the value is an object,
  // and by its single declared type when it has none.
  predicate Candidate(v: Json, branch: Schema, defs: Definitions, seen: set<string>)
  {
    var r := Resolved(branch, defs, seen);
    if Consts(r) != map[] then
      v.JObj? && forall k :: k in Consts(r) ==> PyEq(Get(v, k), Consts(r)[k])
    else
      r.Node? && r.typ.OneType? && TypeMatches(v, r.typ.t)
  }

  predicate OnlyCandidate(v: Json, branches: seq<Schema>, defs: Definitions, seen: set<string>, i: int)
  {
    && 0 <= i < |branches|
    && Candidate(v, branches[i], defs, seen)
    && forall j :: 0 <= j < |branches| && Candidate(v, branches[j], defs, seen) ==> j == i
  }

  // The one candidate, or none when there are several or no candidates.
  ghost function Selected(v: Json, branches: seq<Schema>, defs: Definitions, seen: set<string>): (r: Option<int>)
    ensures r.Some? ==> OnlyCandidate(v, branches, defs, seen, r.value)
    ensures r.None? ==> forall i :: !OnlyCandidate(v, branches, defs, seen, i)
  {
    if i :| OnlyCandidate(v, branches, defs, seen, i) then Some(i) else None
  }

  ghost function Prune(v: Json, s: Schema, defs: Definitions, seen: set<string>): (r: Json)
    decreases defs.Keys - seen, s
  {
    match s
    case Ref(name) =>
      if name in defs && name !in seen then Prune(v, defs[name], defs, seen + {name}) else v
    case Union(_, branches) =>
      var i := Selected(v, branches, defs, seen);
      if i.Some? then Prune(v, branches[i.value], defs, seen) else v
    case Node(_, _, _, _, items, properties, _, _) =>
      if v.JObj? then
        JObj(map k | k in v.members && !(v.members[k].JNull? && k !in s.Required()) ::
               if properties.Properties? && k in properties.of
               then Prune(v.members[k], properties.of[k], defs, seen)
               else v.members[k])
      else if v.JArr? && items.Items? then
        JArr(seq(|v.items|, i requires 0 <= i < |v.items| => Prune(v.items[i], items.each, defs, seen)))
      else v
  }

  /******* The schemas pruning is meant for *******/

  // Constants and choices are scalars, an object says that it is one and that it is closed,
  // and a null branch is nothing but a null branch.
  ghost predicate Plain(s: Schema)
  {
    match s
    case Ref(_) => true
    case Union(_, branches) => forall i :: 0 <= i < |branches| ==> Plain(branches[i])
    case Node(typ, constant, choices, _, items, properties, _, additional) =>
      && (constant.Some? ==> constant.value.Scalar())
      && (choices.Some? ==> forall i :: 0 <= i < |choices.value| ==> choices.value[i].Scalar())
      && (s.IsObject() ==> ClosedObject(s))
      && (SaysNull(s) ==> constant.None? && choices.None?)
      && (items.Items? ==> Plain(items.each))
      && (properties.Properties? ==> forall k :: k in properties.of ==> Plain(properties.of[k]))
  }

  // A node that accepts neither objects nor arrays.
  predicate ContainerFree(s: Schema)
  {
    && s.Node? && !s.IsObject() && s.typ != OneType(TArray)
    && (s.typ.OneType? || s.constant.Some? || s.choices.Some?)
  }

  predicate ContainerNode(s: Schema)
  {
    s.Node? && (s.typ == OneType(TObject) || s.typ == OneType(TArray))
  }

  // A discriminator of `b` that an object accepted by `a` cannot carry.
  predicate LacksAConst(a: Schema, b: Schema)
  {
    exists k :: k in Consts(b) &&
      if k in BranchProperties(a) then k in Consts(a) && !PyEq(Consts(a)[k], Consts(b)[k])
      else !PyEq(JNull, Consts(b)[k])
  }

  // No object or array accepted by `a` makes `b` a candidate.
  predicate Misses(a: Schema, b: Schema)
  {
    || ContainerFree(a)
    || !b.Node?
    || (a.Node? && (if Consts(b) != map[] then a.typ == OneType(TArray) || LacksAConst(a, b) else a.typ != b.typ))
  }

  // Constants and declared types of the branches alone tell any two of them apart.
  ghost predicate TellsApart(branches: seq<Schema>, defs: Definitions, seen: set<string>)
  {
    && (forall i :: 0 <= i < |branches| ==>
          var a := Resolved(branches[i], defs, seen); ContainerFree(a) || ContainerNode(a))
    && (forall i, j :: 0 <= i < |branches| && 0 <= j < |branches| && i != j ==>
          Misses(Resolved(branches[i], defs, seen), Resolved(branches[j], defs, seen)))
  }

  // Every union below `s` can be decided by looking at constants and declared types.
  ghost predicate Decided(s: Schema, defs: Definitions, seen: set<string>)
    decreases defs.Keys - seen, s
  {
    match s
    case Ref(name) =>
      name in defs && name !in seen ==> Decided(defs[name], defs, seen + {name})
    case Union(_, branches) =>
      && (forall i :: 0 <= i < |branches| ==> Decided(branches[i], defs, seen))
      && TellsApart(branches, defs, seen)
    case Node(_, _, _, _, items, properties, _, _) =>
      && (items.Items? ==> Decided(items.each, defs, seen))
      && (properties.Properties? ==>
            forall k :: k in properties.of ==> Decided(properties.of[k], defs, seen))
  }

  /******* Shapes *******/

  ghost predicate SameShape(v: Json, w: Json)
  {
    && (v.Scalar() ==> w == v)
    && (v.JObj? ==> w.JObj?)
    && (v.JArr? ==> w.JArr? && |w.items| == |v.items|)
  }

  lemma {:induction false} PruneKeepsShape(v: Json, s: Schema, defs: Definitions, seen: set<string>)
    ensures SameShape(v, Prune(v, s, defs, seen))
    decreases defs.Keys - seen, s
  {
    match s
    case Ref(name) =>
      if name in defs && name !in seen { PruneKeepsShape(v, defs[name], defs, seen + {name}); }
    case Union(_, branches) =>
      var i := Selected(v, branches, defs, seen);
      if i.Some? { PruneKeepsShape(v, branches[i.value], defs, seen); }
    case Node(_, _, _, _, _, _, _, _) =>
  }

  /******* References and compilation *******/

  lemma {:induction false} ResolveCommutes(s: Schema, defs: Definitions, t: Target, seen: set<string>)
    ensures Resolve(Lower(s, t), LowerAll(defs, t), seen)
         == (Lower(Resolved(s, defs, seen), t), Resolve(s, defs, seen).1)
    decreases defs.Keys - seen
  {
    if s.Ref? && s.name in defs && s.name !in seen {
      ResolveCommutes(defs[s.name], defs, t, seen + {s.name});
    }
  }

  lemma {:induction false} AcceptsResolved(v: Json, s: Schema, defs: Definitions, seen: set<string>)
    requires Accepts(v, s, defs, seen)
    ensures !Resolved(s, defs, seen).Ref?
    ensures Accepts(v, Resolved(s, defs, seen), defs, Resolve(s, defs, seen).1)
    decreases defs.Keys - seen
  {
    if s.Ref? { AcceptsResolved(v, defs[s.name], defs, seen + {s.name}); }
  }

  lemma {:induction false} PlainResolved(s: Schema, defs: Definitions, seen: set<string>)
    requires Plain(s) && forall k :: k in defs ==> Plain(defs[k])
    ensures Plain(Resolved(s, defs, seen))
    decreases defs.Keys - seen
  {
    if s.Ref? && s.name in defs && s.name !in seen { PlainResolved(defs[s.name], defs, seen + {s.name}); }
  }

  /******* Selection *******/

  // What acceptance by a branch, compiled or not, tells selection about a container.
  predicate Fits(v: Json, a: Schema)
  {
    && a.Node?
    && if a.typ == OneType(TObject)
       then MatchesConsts(v, Consts(a)) && v.members.Keys <= BranchProperties(a)
       else a.typ == OneType(TArray) && Consts(a) == map[] && v.JArr?
  }

  lemma FittingBranchIsSelected(v: Json, branches: seq<Schema>, defs: Definitions, seen: set<string>, i: nat)
    requires TellsApart(branches, defs, seen) && i < |branches|
    requires v.Container() && Fits(v, Resolved(branches[i], defs, seen))
    requires !ContainerFree(Resolved(branches[i], defs, seen))
    ensures Selected(v, branches, defs, seen) == Some(i)
  {
    var a := Resolved(branches[i], defs, seen);
    assert Candidate(v, branches[i], defs, seen);
    forall j | 0 <= j < |branches| && j != i
      ensures !Candidate(v, branches[j], defs, seen)
    {
      var b := Resolved(branches[j], defs, seen);
      assert Misses(a, b);
      if Consts(b) != map[] && a.typ == OneType(TObject) {
        var k :| k in Consts(b) &&
          if k in BranchProperties(a) then k in Consts(a) && !PyEq(Consts(a)[k], Consts(b)[k])
          else !PyEq(JNull, Consts(b)[k]);
        if k in Consts(a) && PyEq(Get(v, k), Consts(b)[k]) {
          PyEqSeparates(v.members[k], Consts(a)[k], Consts(b)[k]);
        }
      }
    }
    assert OnlyCandidate(v, branches, defs, seen, i);
  }
}
