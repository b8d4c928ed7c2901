// A lowered `oneOf` loses nothing: no instance is accepted by two of its branches.
module SchemaExclusion {
  import opened JsonValues
  import opened ActionSchemas
  import opened SchemaCompiler

  // The form every compiled or restored object has, and that a source object states.
  predicate ClosedObject(s: Schema)
  {
    s.Node? && s.typ == OneType(TObject) && s.additional.Closed?
  }

  predicate MatchesConsts(v: Json, consts: map<string, Json>)
  {
    v.JObj? && forall k :: k in consts ==> k in v.members && PyEq(v.members[k], consts[k])
  }

  lemma AcceptedMatchesConsts(v: Json, s: Schema, defs: Definitions, seen: set<string>)
    requires s.Node? && s.typ == OneType(TObject)
    requires Accepts(v, s, defs, seen)
    ensures MatchesConsts(v, Consts(s))
  {
    forall k | k in Consts(s)
      ensures k in v.members && PyEq(v.members[k], Consts(s)[k])
    {
      assert k in s.Required() && k in v.members;
      assert Accepts(v.members[k], s.properties.of[k], defs, seen);
    }
  }

  // An object that carries the constants of both and no property that either forbids.
  lemma CarryingBothIsNotExclusive(v: Json, a: Schema, b: Schema)
    requires MatchesConsts(v, Consts(a)) && MatchesConsts(v, Consts(b))
    requires v.members.Keys <= BranchProperties(a) && v.members.Keys <= BranchProperties(b)
    ensures !Exclusive(a, b)
  {
    forall k | k in Consts(a) && k in Consts(b)
      ensures PyEq(Consts(b)[k], Consts(a)[k])
    {
      PyEqSeparates(v.members[k], Consts(a)[k], Consts(b)[k]);
    }
  }

  lemma ExclusiveRejectsBoth(v: Json, a: Schema, b: Schema, defs: Definitions, seen: set<string>)
    requires ClosedObject(a) && ClosedObject(b) && Exclusive(a, b)
    ensures !(Accepts(v, a, defs, seen) && Accepts(v, b, defs, seen))
  {
    if Accepts(v, a, defs, seen) && Accepts(v, b, defs, seen) {
      AcceptedMatchesConsts(v, a, defs, seen);
      AcceptedMatchesConsts(v, b, defs, seen);
      CarryingBothIsNotExclusive(v, a, b);
    }
  }

  lemma LowerKeepsConstant(s: Schema, t: Target)
    ensures Lower(s, t).Node? <==> s.Node?
    ensures Restore(s, t).Node? <==> s.Node?
    ensures s.Node? ==> Lower(s, t).constant == Restore(s, t).constant == s.constant
  {}

  lemma LowerKeepsProperties(s: Schema, t: Target)
    requires s.IsObject()
    ensures Lower(s, t).Node? && Restore(s, t).Node?
    ensures Lower(s, t).Props().Keys == Restore(s, t).Props().Keys == s.Props().Keys
    ensures forall k :: k in s.Props() ==>
      && Restore(s, t).Props()[k] == Restore(s.Props()[k], t)
      && Lower(s, t).Props()[k] ==
           if k !in s.Required() && t.OpenAI? then Nullable(Lower(s.Props()[k], t)) else Lower(s.Props()[k], t)
    ensures Restore(s, t).Required() == s.Required()
    ensures Lower(s, t).Required() == if t.OpenAI? then s.Props().Keys else s.Props().Keys * s.Required()
  {}

  lemma LoweredConsts(s: Schema, t: Target)
    requires s.IsObject()
    ensures Consts(Lower(s, t)) == Consts(s) && BranchProperties(Lower(s, t)) == BranchProperties(s)
  {
    LowerKeepsProperties(s, t);
    var l := Lower(s, t);
    forall k | k in s.Props()
      ensures k in ConstMap(l) <==> k in ConstMap(s)
      ensures k in ConstMap(s) ==> ConstMap(l)[k] == ConstMap(s)[k]
    {
      LowerKeepsConstant(s.Props()[k], t);
      assert Nullable(Lower(s.Props()[k], t)).Union?;
    }
    assert ConstMap(l) == ConstMap(s);
  }

  lemma RestoredConsts(s: Schema, t: Target)
    requires s.IsObject()
    ensures Consts(Restore(s, t)) == Consts(s) && BranchProperties(Restore(s, t)) == BranchProperties(s)
  {
    LowerKeepsProperties(s, t);
    var r := Restore(s, t);
    forall k | k in s.Props()
      ensures k in ConstMap(r) <==> k in ConstMap(s)
      ensures k in ConstMap(s) ==> ConstMap(r)[k] == ConstMap(s)[k]
    {
      LowerKeepsConstant(s.Props()[k], t);
    }
    assert ConstMap(r) == ConstMap(s);
  }

  // Discriminators survive compilation: an optional property becomes a union, which states
  // no constant, so making it required adds no discriminator.
  lemma LowerKeepsConsts(s: Schema, t: Target)
    requires s.IsObject()
    ensures Consts(Lower(s, t)) == Consts(s)
    ensures BranchProperties(Lower(s, t)) == BranchProperties(s)
    ensures Consts(Restore(s, t)) == Consts(s)
    ensures BranchProperties(Restore(s, t)) == BranchProperties(s)
  {
    LoweredConsts(s, t);
    RestoredConsts(s, t);
  }

  lemma PlainNodeHasNoConsts(s: Schema, t: Target)
    requires !s.IsObject()
    ensures Consts(Lower(s, t)) == map[]
  {}

  lemma DiscriminatedIsObject(s: Schema, t: Target)
    requires Consts(Lower(s, t)) != map[]
    ensures s.IsObject() && ClosedObject(Lower(s, t)) && ClosedObject(Restore(s, t))
  {
    if !s.IsObject() { PlainNodeHasNoConsts(s, t); }
  }

  lemma ExclusiveSymmetric(a: Schema, b: Schema)
    requires Exclusive(a, b)
    ensures Exclusive(b, a)
  {
    if SharedConstDiffers(a, b) {
      var k :| k in Consts(a) && k in Consts(b) && !PyEq(Consts(b)[k], Consts(a)[k]);
      if PyEq(Consts(a)[k], Consts(b)[k]) { PyEqSymmetric(Consts(a)[k], Consts(b)[k]); }
      assert SharedConstDiffers(b, a);
    }
  }

  // Branches exclude each other before and after compilation alike.
  lemma SourcesAreExclusive(a: Schema, b: Schema, t: Target)
    requires a.IsObject() && b.IsObject() && Exclusive(Lower(a, t), Lower(b, t))
    ensures Exclusive(a, b) && Exclusive(Restore(a, t), Restore(b, t))
  {
    LowerKeepsConsts(a, t);
    LowerKeepsConsts(b, t);
  }

  // When the compiler admits a `oneOf`, at most one branch accepts any instance: of the
  // compiled branches and of the restored ones, whatever keywords were dropped.
  lemma AdmittedBranchesAreDisjoint(v: Json, branches: seq<Schema>, t: Target, i: nat, j: nat,
                                    defs: Definitions, seen: set<string>)
    requires MutuallyExclusive(LowerSeq(branches, t))
    requires i < |branches| && j < |branches| && i != j
    ensures !(Accepts(v, Lower(branches[i], t), defs, seen) && Accepts(v, Lower(branches[j], t), defs, seen))
    ensures !(Accepts(v, Restore(branches[i], t), defs, seen) && Accepts(v, Restore(branches[j], t), defs, seen))
  {
    var a, b := branches[i], branches[j];
    var lowered := LowerSeq(branches, t);
    assert lowered[i] == Lower(a, t) && lowered[j] == Lower(b, t);
    DiscriminatedIsObject(a, t);
    DiscriminatedIsObject(b, t);
    if j < i { ExclusiveSymmetric(lowered[j], lowered[i]); }
    SourcesAreExclusive(a, b, t);
    ExclusiveRejectsBoth(v, lowered[i], lowered[j], defs, seen);
    ExclusiveRejectsBoth(v, Restore(a, t), Restore(b, t), defs, seen);
  }

  // The same for the source branches, once they state their own closure.
  lemma AdmittedSourceBranchesAreDisjoint(v: Json, branches: seq<Schema>, t: Target, i: nat, j: nat,
                                          defs: Definitions, seen: set<string>)
    requires MutuallyExclusive(LowerSeq(branches, t))
    requires forall k :: 0 <= k < |branches| && branches[k].IsObject() ==> ClosedObject(branches[k])
    requires i < |branches| && j < |branches| && i != j
    ensures !(Accepts(v, branches[i], defs, seen) && Accepts(v, branches[j], defs, seen))
  {
    var a, b := branches[i], branches[j];
    var lowered := LowerSeq(branches, t);
    assert lowered[i] == Lower(a, t) && lowered[j] == Lower(b, t);
    DiscriminatedIsObject(a, t);
    DiscriminatedIsObject(b, t);
    if j < i { ExclusiveSymmetric(lowered[j], lowered[i]); }
    SourcesAreExclusive(a, b, t);
    ExclusiveRejectsBoth(v, a, b, defs, seen);
  }

  // A lowered union means what the restored one does: `anyOf` and `oneOf` agree on it.
  lemma LoweredOneOfAgreesWithAnyOf(v: Json, branches: seq<Schema>, t: Target,
                                    defs: Definitions, seen: set<string>)
    requires MutuallyExclusive(LowerSeq(branches, t))
    ensures Accepts(v, Union(true, LowerSeq(branches, t)), defs, seen)
       <==> Accepts(v, Union(false, LowerSeq(branches, t)), defs, seen)
  {
    var lowered := LowerSeq(branches, t);
    forall i, j | 0 <= i < |lowered| && 0 <= j < |lowered|
        && Accepts(v, lowered[i], defs, seen) && Accepts(v, lowered[j], defs, seen)
      ensures i == j
    {
      if i != j { AdmittedBranchesAreDisjoint(v, branches, t, i, j, defs, seen); }
    }
  }
}
