// Three families of schemas that mark out what pruning can decide: one the compiler admits
// and pruning cannot tell apart, one that constants and types do not tell apart and pruning
// does, and one whose nested union is never selected.
module SelectionExamples {
  import opened JsonValues
  import opened ActionSchemas
  import opened SchemaCompiler
  import opened SchemaExclusion
  import opened SchemaPruning
  import opened SchemaGuidance
  import opened SchemaMeaning
  import opened SchemaRoundTrip
  import opened SchemaTermination
  import opened SchemaSelection
  import opened SchemaRoot

  const ONE := JNum(1.0, true)
  const TWO := JNum(2.0, true)

  function Leaf(typ: TypeSpec, constant: Option<Json>): (r: Schema)
  {
    Node(typ, constant, None, [], NoItems, NoProperties, None, Unstated)
  }

  function ClosedNode(properties: map<string, Schema>, required: set<string>): (r: Schema)
  {
    Node(OneType(TObject), None, None, [], NoItems, Properties(properties), Some(required), Closed)
  }

  const X_IS_ONE := Leaf(NoType, Some(ONE))
  const Y_IS_TWO := Leaf(NoType, Some(TWO))
  const AN_INTEGER := Leaf(OneType(TInteger), None)
  const A_STRING := Leaf(OneType(TString), None)

  ghost predicate IsLeaf(s: Schema)
  {
    && s.Node? && s == Leaf(s.typ, s.constant)
    && s.typ != OneType(TObject) && s.typ != OneType(TNull) && (s.constant.Some? ==> s.constant.value.Scalar())
  }

  lemma TheLeaves()
    ensures IsLeaf(X_IS_ONE) && IsLeaf(Y_IS_TWO) && IsLeaf(AN_INTEGER) && IsLeaf(A_STRING)
  {}

  lemma LeafMeans(v: Json, typ: TypeSpec, constant: Option<Json>, defs: Definitions, seen: set<string>)
    requires typ != OneType(TObject)
    ensures Accepts(v, Leaf(typ, constant), defs, seen) <==>
            TypeSpecAllows(v, typ) && (constant.Some? ==> PyEq(v, constant.value))
  {}

  lemma LeafLowers(s: Schema)
    requires IsLeaf(s)
    ensures Lower(s, OpenAI) == Restore(s, OpenAI) == s
  {
    assert Kept([], OpenAI) == [];
  }

  lemma LeafIsInOrder(s: Schema)
    requires IsLeaf(s)
    ensures Plain(s) && Compiles(s, {}, OpenAI) && Regular(s, OpenAI)
    ensures SentGuided(s, map[], OpenAI, {}) && SourceGuided(s, map[], {})
    ensures DepthWithin(s, map[], {}, 0) && DepthWithin(Nullable(s), map[], {}, 0)
  {
    assert DepthWithin(NULL_NODE, map[], {}, 0);
  }

  lemma ClosedNodeMeans(m: map<string, Json>, p: map<string, Schema>, r: set<string>, defs: Definitions,
                        seen: set<string>)
    ensures Accepts(JObj(m), ClosedNode(p, r), defs, seen) <==>
            r <= m.Keys <= p.Keys && forall k :: k in m && k in p ==> Accepts(m[k], p[k], defs, seen)
  {
    var s := ClosedNode(p, r);
    assert s.Props() == p && s.Required() == r;
  }

  // An object of leaves.
  ghost predicate LeafMembers(p: map<string, Schema>, r: set<string>)
  {
    r <= p.Keys && forall k :: k in p ==> IsLeaf(p[k]) && SafeName(k, OpenAI)
  }

  function LowerMembers(p: map<string, Schema>, r: set<string>): (q: map<string, Schema>)
  {
    map k | k in p :: if k in r then p[k] else Nullable(p[k])
  }

  lemma LeafObjectLowers(p: map<string, Schema>, r: set<string>)
    requires LeafMembers(p, r)
    ensures Lower(ClosedNode(p, r), OpenAI) == ClosedNode(LowerMembers(p, r), p.Keys)
    ensures Restore(ClosedNode(p, r), OpenAI) == ClosedNode(p, r)
  {
    var s := ClosedNode(p, r);
    assert s.Props() == p && s.Required() == r && Kept([], OpenAI) == [];
    forall k | k in p { LeafLowers(p[k]); }
    assert Lower(s, OpenAI).properties.of == LowerMembers(p, r);
    assert Restore(s, OpenAI).properties.of == p;
  }

  lemma LeafObjectIsInOrder(p: map<string, Schema>, r: set<string>)
    requires LeafMembers(p, r)
    ensures InOrder(ClosedNode(p, r))
  {
    var s := ClosedNode(p, r);
    assert s.Props() == p && s.Required() == r;
    forall k | k in p { LeafIsInOrder(p[k]); }
    LeafObjectLowers(p, r);
    assert ValuesUndisturbed(None, None, OpenAI);
  }

  lemma LeafObjectIsGuided(p: map<string, Schema>, r: set<string>)
    requires LeafMembers(p, r)
    ensures SentGuided(ClosedNode(p, r), map[], OpenAI, {}) && SourceGuided(ClosedNode(p, r), map[], {})
  {
    forall k | k in p { LeafIsInOrder(p[k]); }
  }

  lemma PairLowers(exclusive: bool, a: Schema, b: Schema)
    ensures LowerSeq([a, b], OpenAI) == [Lower(a, OpenAI), Lower(b, OpenAI)]
    ensures Lower(Union(exclusive, [a, b]), OpenAI) == Union(false, [Lower(a, OpenAI), Lower(b, OpenAI)])
    ensures Restore(Union(exclusive, [a, b]), OpenAI) == Union(exclusive, [Restore(a, OpenAI), Restore(b, OpenAI)])
  {
    var p := [a, b];
    assert p[0] == a && p[1] == b;
    assert LowerSeq(p, OpenAI) == [Lower(a, OpenAI), Lower(b, OpenAI)];
    assert Lower(Union(exclusive, p), OpenAI).branches == [Lower(a, OpenAI), Lower(b, OpenAI)];
    assert Restore(Union(exclusive, p), OpenAI).branches == [Restore(a, OpenAI), Restore(b, OpenAI)];
  }

  lemma PairAccepts(v: Json, a: Schema, b: Schema)
    requires Accepts(v, a, map[], {}) || Accepts(v, b, map[], {})
    ensures Accepts(v, Union(false, [a, b]), map[], {})
  {
    assert [a, b][0] == a && [a, b][1] == b;
  }

  lemma PairRejects(v: Json, exclusive: bool, a: Schema, b: Schema)
    requires !Accepts(v, a, map[], {}) && !Accepts(v, b, map[], {})
    ensures !Accepts(v, Union(exclusive, [a, b]), map[], {})
  {
    var p := [a, b];
    assert forall i :: 0 <= i < |p| ==> p[i] == a || p[i] == b;
  }

  lemma MemberRejects(m: map<string, Json>, p: map<string, Schema>, r: set<string>, k: string)
    requires k in m && (k !in p || !Accepts(m[k], p[k], map[], {}))
    ensures !Accepts(JObj(m), ClosedNode(p, r), map[], {})
  {
    ClosedNodeMeans(m, p, r, map[], {});
  }

  lemma NullableAdmitsNull(s: Schema)
    requires s.Node?
    ensures Accepts(JNull, Nullable(s), map[], {})
  {
    assert Nullable(s).branches[1] == NULL_NODE && Accepts(JNull, NULL_NODE, map[], {});
  }

  lemma TwoAreExclusive(l: Schema, r: Schema, k: string)
    requires Consts(l) != map[] && k in Consts(r) && k !in BranchProperties(l)
    ensures MutuallyExclusive([l, r])
  {
    assert ForbidsAConst(r, l) && k !in Consts(l);
  }

  lemma TheLeavesAccept()
    ensures Accepts(ONE, AN_INTEGER, map[], {}) && Accepts(TWO, Y_IS_TWO, map[], {})
    ensures Accepts(JNull, Nullable(A_STRING), map[], {})
  {
    LeafMeans(ONE, OneType(TInteger), None, map[], {});
    LeafMeans(TWO, NoType, Some(TWO), map[], {});
    NullableAdmitsNull(A_STRING);
  }

  lemma PairIsAdmitted(a: Schema, b: Schema, k: string)
    requires a.IsObject() && b.IsObject() && Consts(a) != map[]
    requires k in Consts(b) && k !in BranchProperties(a)
    ensures MutuallyExclusive(LowerSeq([a, b], OpenAI))
  {
    PairLowers(true, a, b);
    LowerKeepsConsts(a, OpenAI);
    LowerKeepsConsts(b, OpenAI);
    TwoAreExclusive(Lower(a, OpenAI), Lower(b, OpenAI), k);
  }

  ghost predicate InOrder(s: Schema)
  {
    Plain(s) && Compiles(s, {}, OpenAI) && Regular(s, OpenAI) && DepthWithin(Lower(s, OpenAI), map[], {}, 1)
  }

  lemma PairRoundTrips(a: Schema, b: Schema)
    requires Regular(a, OpenAI) && Regular(b, OpenAI)
    ensures RoundTrips(Union(true, [a, b]), OpenAI)
  {
    RoundTripExact(Union(true, [a, b]), OpenAI);
  }

  lemma PairDepth(a: Schema, b: Schema)
    requires DepthWithin(a, map[], {}, 1) && DepthWithin(b, map[], {}, 1)
    ensures DepthWithin(Union(false, [a, b]), map[], {}, 1)
  {}

  lemma EnvelopeDepth(a: Action, d: nat)
    requires a.defs == map[] && d < MAX_NESTING_DEPTH && DepthWithin(Lower(a.Root(), OpenAI), map[], {}, d)
    ensures DepthWithin(Envelope(a, OpenAI), LowerAll(a.defs, OpenAI), {}, MAX_NESTING_DEPTH)
  {
    assert LowerAll(a.defs, OpenAI) == map[];
    DepthGrows(Lower(a.Root(), OpenAI), map[], {}, d, MAX_NESTING_DEPTH - 1);
  }

  lemma BothCompile(a: Schema, b: Schema)
    requires InOrder(a) && InOrder(b)
    ensures var c := Action(true, [a, b], map[]);
      PlainAction(c) && forall i :: 0 <= i < |c.branches| ==> Compiles(c.branches[i], c.defs.Keys, OpenAI)
  {
    var c: Action := Action(true, [a, b], map[]);
    assert c.defs.Keys == {};
    assert forall i :: 0 <= i < |c.branches| ==> c.branches[i] == a || c.branches[i] == b;
  }

  // An action of two branches.
  lemma PairCompilesStrictly(a: Schema, b: Schema)
    requires InOrder(a) && InOrder(b) && MutuallyExclusive(LowerSeq([a, b], OpenAI))
    ensures CompilesStrictly(Action(true, [a, b], map[]), OpenAI) && PlainAction(Action(true, [a, b], map[]))
  {
    BothCompile(a, b);
    PairRoundTrips(a, b);
    PairLowers(true, a, b);
    PairDepth(Lower(a, OpenAI), Lower(b, OpenAI));
    EnvelopeDepth(Action(true, [a, b], map[]), 1);
  }

  /******* Exclusivity is not enough *******/

  // Two branches that share the property `x`; only the second has the constant `y`, which
  // the first forbids, and an optional `z`.
  function LeftMembers(x: string): (p: map<string, Schema>)
  {
    map[x := X_IS_ONE]
  }

  function RightMembers(x: string, y: string, z: string): (p: map<string, Schema>)
  {
    map[x := AN_INTEGER, y := Y_IS_TWO, z := A_STRING]
  }

  function Confused(x: string, y: string, z: string): (a: Action)
  {
    Action(true, [ClosedNode(LeftMembers(x), {x}), ClosedNode(RightMembers(x, y, z), {x, y})], map[])
  }

  // What a provider bound to the compiled schema may send: `z` is null because it is
  // required and nullable there.
  function Sent(x: string, y: string, z: string): (m: map<string, Json>)
  {
    map[x := ONE, y := TWO, z := JNull]
  }

  predicate FreeNames(x: string, y: string, z: string)
  {
    x != y && y != z && x != z && SafeName(x, OpenAI) && SafeName(y, OpenAI) && SafeName(z, OpenAI)
  }

  lemma ConfusedConsts(x: string, y: string, z: string)
    requires FreeNames(x, y, z)
    ensures Consts(ClosedNode(LeftMembers(x), {x})) == map[x := ONE]
    ensures Consts(ClosedNode(RightMembers(x, y, z), {x, y})) == map[y := TWO]
    ensures BranchProperties(ClosedNode(LeftMembers(x), {x})) == {x}
    ensures LeafMembers(LeftMembers(x), {x}) && LeafMembers(RightMembers(x, y, z), {x, y})
  {
    TheLeaves();
  }

  lemma ConfusedCompiles(x: string, y: string, z: string)
    requires FreeNames(x, y, z)
    ensures CompilesStrictly(Confused(x, y, z), OpenAI) && PlainAction(Confused(x, y, z))
  {
    var l, r := ClosedNode(LeftMembers(x), {x}), ClosedNode(RightMembers(x, y, z), {x, y});
    ConfusedConsts(x, y, z);
    PairIsAdmitted(l, r, y);
    LeafObjectIsInOrder(LeftMembers(x), {x});
    LeafObjectIsInOrder(RightMembers(x, y, z), {x, y});
    PairCompilesStrictly(l, r);
  }

  lemma SentFits(x: string, y: string, z: string, q: map<string, Schema>)
    requires x != y && y != z && x != z && q.Keys == {x, y, z}
    requires q[x] == AN_INTEGER && q[y] == Y_IS_TWO && q[z] == Nullable(A_STRING)
    ensures Accepts(JObj(Sent(x, y, z)), ClosedNode(q, q.Keys), map[], {})
  {
    TheLeavesAccept();
    ClosedNodeMeans(Sent(x, y, z), q, q.Keys, map[], {});
  }

  lemma SentMayBeSent(x: string, y: string, z: string)
    requires FreeNames(x, y, z)
    ensures Accepts(JObj(Sent(x, y, z)), Lower(Confused(x, y, z).Root(), OpenAI), map[], {})
  {
    var l, r := ClosedNode(LeftMembers(x), {x}), ClosedNode(RightMembers(x, y, z), {x, y});
    ConfusedConsts(x, y, z);
    LeafObjectLowers(RightMembers(x, y, z), {x, y});
    SentFits(x, y, z, LowerMembers(RightMembers(x, y, z), {x, y}));
    PairLowers(true, l, r);
    PairAccepts(JObj(Sent(x, y, z)), Lower(l, OpenAI), Lower(r, OpenAI));
  }

  lemma SentIsNotPruned(x: string, y: string, z: string)
    requires FreeNames(x, y, z)
    ensures Prune(JObj(Sent(x, y, z)), Confused(x, y, z).Root(), map[], {}) == JObj(Sent(x, y, z))
  {
    ConfusedConsts(x, y, z);
    var v, p := JObj(Sent(x, y, z)), Confused(x, y, z).branches;
    assert Candidate(v, p[0], map[], {}) && Candidate(v, p[1], map[], {});
    assert forall i :: !OnlyCandidate(v, p, map[], {}, i);
  }

  lemma SentIsRejected(x: string, y: string, z: string)
    requires FreeNames(x, y, z)
    ensures !Accepts(JObj(Sent(x, y, z)), Restore(Confused(x, y, z).Root(), OpenAI), map[], {})
  {
    var p, q := LeftMembers(x), RightMembers(x, y, z);
    ConfusedConsts(x, y, z);
    LeafObjectLowers(p, {x});
    LeafObjectLowers(q, {x, y});
    MemberRejects(Sent(x, y, z), p, {x}, y);
    LeafMeans(JNull, OneType(TString), None, map[], {});
    MemberRejects(Sent(x, y, z), q, {x, y}, z);
    PairLowers(true, ClosedNode(p, {x}), ClosedNode(q, {x, y}));
    PairRejects(JObj(Sent(x, y, z)), true, ClosedNode(p, {x}), ClosedNode(q, {x, y}));
  }

  // For any three property names that stripping does not take for keywords: the action
  // schema compiles, a provider may send the value under its envelope, and the pruned value
  // fails the restored schema.
  lemma ExclusivityIsNotEnough(x: string, y: string, z: string)
    requires FreeNames(x, y, z)
    ensures SpoilsAction(Confused(x, y, z), JObj(Sent(x, y, z)))
  {
    ConfusedCompiles(x, y, z);
    SentMayBeSent(x, y, z);
    EnvelopeCarries(JObj(Sent(x, y, z)), Confused(x, y, z), OpenAI);
    SentIsNotPruned(x, y, z);
    SentIsRejected(x, y, z);
    assert LowerAll(map[], OpenAI) == map[] && RestoreAll(map[], OpenAI) == map[];
  }

  /******* Constants and types are not needed *******/

  // The second branch is known by a constant that the first can never carry, because its
  // own property of that name is a string.
  function Guided(x: string, y: string): (a: Action)
  {
    Action(true, [ClosedNode(TypedMembers(x, y), {x, y}), ClosedNode(NumberedMembers(y), {y})], map[])
  }

  function TypedMembers(x: string, y: string): (p: map<string, Schema>)
  {
    map[x := X_IS_ONE, y := A_STRING]
  }

  function NumberedMembers(y: string): (p: map<string, Schema>)
  {
    map[y := Y_IS_TWO]
  }

  lemma GuidedConsts(x: string, y: string)
    requires x != y && SafeName(x, OpenAI) && SafeName(y, OpenAI)
    ensures Consts(ClosedNode(TypedMembers(x, y), {x, y})) == map[x := ONE]
    ensures Consts(ClosedNode(NumberedMembers(y), {y})) == map[y := TWO]
    ensures BranchProperties(ClosedNode(TypedMembers(x, y), {x, y})) == {x, y}
    ensures BranchProperties(ClosedNode(NumberedMembers(y), {y})) == {y}
    ensures LeafMembers(TypedMembers(x, y), {x, y}) && LeafMembers(NumberedMembers(y), {y})
  {
    TheLeaves();
  }

  lemma GuidedCompiles(x: string, y: string)
    requires x != y && SafeName(x, OpenAI) && SafeName(y, OpenAI)
    ensures CompilesStrictly(Guided(x, y), OpenAI) && PlainAction(Guided(x, y))
  {
    var l, r := ClosedNode(TypedMembers(x, y), {x, y}), ClosedNode(NumberedMembers(y), {y});
    GuidedConsts(x, y);
    assert y in Consts(r) && x in Consts(l);
    PairIsAdmitted(r, l, x);
    PairLowers(true, l, r);
    PairLowers(true, r, l);
    PairReverses(Lower(r, OpenAI), Lower(l, OpenAI));
    LeafObjectIsInOrder(TypedMembers(x, y), {x, y});
    LeafObjectIsInOrder(NumberedMembers(y), {y});
    PairCompilesStrictly(l, r);
  }

  lemma PairReverses(a: Schema, b: Schema)
    requires MutuallyExclusive([a, b])
    ensures MutuallyExclusive([b, a])
  {
    assert [a, b][0] == a && [a, b][1] == b && [b, a][0] == b && [b, a][1] == a;
    ExclusiveSymmetric(a, b);
  }

  lemma GuidedIsUnconfused(x: string, y: string)
    requires x != y && SafeName(x, OpenAI) && SafeName(y, OpenAI)
    ensures var l, r := ClosedNode(TypedMembers(x, y), {x, y}), ClosedNode(NumberedMembers(y), {y});
      !Confusable(l, r, map[], OpenAI, {}) && !Confusable(r, l, map[], OpenAI, {})
  {
    var l, r := ClosedNode(TypedMembers(x, y), {x, y}), ClosedNode(NumberedMembers(y), {y});
    GuidedConsts(x, y);
    LeafObjectLowers(TypedMembers(x, y), {x, y});
    LeafObjectLowers(NumberedMembers(y), {y});
    forall w | Accepts(w, A_STRING, map[], {})
      ensures !PyEq(w, TWO)
    {
      LeafMeans(w, OneType(TString), None, map[], {});
    }
    assert y in Consts(r) && x in Consts(l);
  }

  ghost predicate GuidedBranch(s: Schema)
  {
    && s.IsObject() && GoodSchema(s, map[], OpenAI) && Consts(s) != map[]
    && SentGuided(s, map[], OpenAI, {}) && SourceGuided(s, map[], {})
  }

  lemma LeafBranchIsGuided(p: map<string, Schema>, r: set<string>)
    requires LeafMembers(p, r) && Consts(ClosedNode(p, r)) != map[]
    ensures GuidedBranch(ClosedNode(p, r))
  {
    var none: Definitions := map[];
    assert none.Keys == {};
    LeafObjectIsInOrder(p, r);
    LeafObjectIsGuided(p, r);
  }

  lemma PairIsGuided(a: Schema, b: Schema)
    requires GuidedBranch(a) && GuidedBranch(b)
    requires !Confusable(a, b, map[], OpenAI, {}) && !Confusable(b, a, map[], OpenAI, {})
    ensures SentGuided(Union(true, [a, b]), map[], OpenAI, {}) && SourceGuided(Union(true, [a, b]), map[], {})
  {
    var p := [a, b];
    assert p[0] == a && p[1] == b;
    forall i | 0 <= i < |p|
      ensures GuidedBranch(p[i])
    {
      assert p[i] == a || p[i] == b;
    }
    PairIsUnconfused(p);
    UnconfusedIsGuided(true, p, map[], OpenAI, {});
  }

  lemma PairIsUnconfused(p: seq<Schema>)
    requires |p| == 2 && Discriminated(p)
    requires !Confusable(p[0], p[1], map[], OpenAI, {}) && !Confusable(p[1], p[0], map[], OpenAI, {})
    ensures AllUnconfused(p, map[], OpenAI, {})
  {
    assert Unconfused(p, map[], OpenAI, {}, 0) by { OnlyOther(p, 0); }
    assert Unconfused(p, map[], OpenAI, {}, 1) by { OnlyOther(p, 1); }
  }

  lemma OnlyOther(p: seq<Schema>, i: int)
    requires |p| == 2 && 0 <= i < 2
    ensures forall j :: 0 <= j < |p| && j != i ==> p[j] == p[1 - i]
  {}

  // The compiler admits it, constants and declared types alone do not tell its branches
  // apart, and pruning follows every branch all the same.
  lemma GuidedIsMoreThanDecided(x: string, y: string)
    requires x != y && SafeName(x, OpenAI) && SafeName(y, OpenAI)
    ensures CompilesStrictly(Guided(x, y), OpenAI) && GuidedBothWays(Guided(x, y), OpenAI)
    ensures !Decided(Guided(x, y).Root(), map[], {})
  {
    GuidedCompiles(x, y);
    GuidedIsGuided(x, y);
    GuidedIsNotDecided(x, y);
  }

  lemma GuidedIsGuided(x: string, y: string)
    requires x != y && SafeName(x, OpenAI) && SafeName(y, OpenAI)
    ensures SentGuided(Guided(x, y).Root(), map[], OpenAI, {}) && SourceGuided(Guided(x, y).Root(), map[], {})
  {
    var l, r := ClosedNode(TypedMembers(x, y), {x, y}), ClosedNode(NumberedMembers(y), {y});
    GuidedConsts(x, y);
    NonEmpty(x, ONE);
    NonEmpty(y, TWO);
    LeafBranchIsGuided(TypedMembers(x, y), {x, y});
    LeafBranchIsGuided(NumberedMembers(y), {y});
    GuidedIsUnconfused(x, y);
    PairIsGuided(l, r);
  }

  lemma NonEmpty(k: string, c: Json)
    ensures map[k := c] != map[]
  {
    assert k in map[k := c];
  }

  lemma GuidedIsNotDecided(x: string, y: string)
    requires x != y && SafeName(x, OpenAI) && SafeName(y, OpenAI)
    ensures !Decided(Guided(x, y).Root(), map[], {})
  {
    GuidedConsts(x, y);
    var p := Guided(x, y).branches;
    assert Resolved(p[0], map[], {}) == p[0] && Resolved(p[1], map[], {}) == p[1];
    assert !Misses(p[0], p[1]);
  }

  /******* A union inside a union *******/

  function NestedMembers(x: string, z: string): (p: map<string, Schema>)
  {
    map[x := AN_INTEGER, z := A_STRING]
  }

  // An object with an optional `z`, inside a union inside a union.
  function Nested(x: string, z: string): (s: Schema)
  {
    Union(false, [Union(false, [ClosedNode(NestedMembers(x, z), {x}), AN_INTEGER]), A_STRING])
  }

  function NestedSent(x: string, z: string): (v: map<string, Json>)
  {
    map[x := ONE, z := JNull]
  }

  lemma PairIsInOrder(a: Schema, b: Schema)
    requires InOrder(a) && Plain(b) && Compiles(b, {}, OpenAI) && Regular(b, OpenAI)
    requires DepthWithin(Lower(b, OpenAI), map[], {}, 0)
    ensures InOrder(Union(false, [a, b]))
  {
    var p := [a, b];
    assert forall i :: 0 <= i < |p| ==> p[i] == a || p[i] == b;
    PairLowers(false, a, b);
    DepthGrows(Lower(b, OpenAI), map[], {}, 0, 1);
    PairDepth(Lower(a, OpenAI), Lower(b, OpenAI));
  }

  lemma NestedIsInOrder(x: string, z: string)
    requires x != z && SafeName(x, OpenAI) && SafeName(z, OpenAI)
    ensures InOrder(Nested(x, z))
  {
    TheLeaves();
    LeafObjectIsInOrder(NestedMembers(x, z), {x});
    LeafIsInOrder(AN_INTEGER);
    LeafIsInOrder(A_STRING);
    LeafLowers(AN_INTEGER);
    LeafLowers(A_STRING);
    PairIsInOrder(ClosedNode(NestedMembers(x, z), {x}), AN_INTEGER);
    PairIsInOrder(Nested(x, z).branches[0], A_STRING);
  }

  lemma NestedSentFits(x: string, z: string, q: map<string, Schema>)
    requires x != z && q.Keys == {x, z} && q[x] == AN_INTEGER && q[z] == Nullable(A_STRING)
    ensures Accepts(JObj(NestedSent(x, z)), ClosedNode(q, q.Keys), map[], {})
  {
    TheLeavesAccept();
    ClosedNodeMeans(NestedSent(x, z), q, q.Keys, map[], {});
  }

  lemma NestedSentFails(x: string, z: string, p: map<string, Schema>, r: set<string>)
    requires x != z && z in p && p[z] == A_STRING
    ensures !Accepts(JObj(NestedSent(x, z)), ClosedNode(p, r), map[], {})
  {
    LeafMeans(JNull, OneType(TString), None, map[], {});
    MemberRejects(NestedSent(x, z), p, r, z);
  }

  lemma NestedObjectAccepts(x: string, z: string)
    requires x != z && SafeName(x, OpenAI) && SafeName(z, OpenAI)
    ensures Accepts(JObj(NestedSent(x, z)), Lower(ClosedNode(NestedMembers(x, z), {x}), OpenAI), map[], {})
    ensures !Accepts(JObj(NestedSent(x, z)), Restore(ClosedNode(NestedMembers(x, z), {x}), OpenAI), map[], {})
  {
    var p := NestedMembers(x, z);
    TheLeaves();
    LeafObjectLowers(p, {x});
    NestedSentFits(x, z, LowerMembers(p, {x}));
    NestedSentFails(x, z, p, {x});
  }

  lemma NestedIsNotPruned(x: string, z: string)
    ensures Prune(JObj(NestedSent(x, z)), Nested(x, z), map[], {}) == JObj(NestedSent(x, z))
  {
    var v, p := JObj(NestedSent(x, z)), Nested(x, z).branches;
    NestedUnionIsNeverSelected(v, p, map[], {}, 0);
    assert !Candidate(v, p[1], map[], {});
  }

  lemma NestedFails(x: string, z: string)
    requires x != z && SafeName(x, OpenAI) && SafeName(z, OpenAI)
    ensures Fails(Nested(x, z), JObj(NestedSent(x, z)))
  {
    var v, a := JObj(NestedSent(x, z)), ClosedNode(NestedMembers(x, z), {x});
    var inner := Nested(x, z).branches[0];
    NestedObjectAccepts(x, z);
    NestedIsNotPruned(x, z);
    ScalarsRejectObjects(v);
    PairLowers(false, a, AN_INTEGER);
    PairLowers(false, inner, A_STRING);
    PairAccepts(v, Lower(a, OpenAI), Lower(AN_INTEGER, OpenAI));
    PairAccepts(v, Lower(inner, OpenAI), Lower(A_STRING, OpenAI));
    PairRejects(v, false, Restore(a, OpenAI), Restore(AN_INTEGER, OpenAI));
    PairRejects(v, false, Restore(inner, OpenAI), Restore(A_STRING, OpenAI));
  }

  lemma ScalarsRejectObjects(v: Json)
    requires v.JObj?
    ensures !Accepts(v, Restore(AN_INTEGER, OpenAI), map[], {}) && !Accepts(v, Restore(A_STRING, OpenAI), map[], {})
  {
    TheLeaves();
    LeafLowers(AN_INTEGER);
    LeafLowers(A_STRING);
    LeafMeans(v, OneType(TInteger), None, map[], {});
    LeafMeans(v, OneType(TString), None, map[], {});
  }

  /******* A schema that fails spoils an action *******/

  // The compiled form accepts the value, and the pruned value fails the restored schema.
  ghost predicate Fails(s: Schema, v: Json)
  {
    Accepts(v, Lower(s, OpenAI), map[], {}) && !Accepts(Prune(v, s, map[], {}), Restore(s, OpenAI), map[], {})
  }

  // An action with a constant `k` and the schema under `n`.
  function Wrapped(k: string, n: string, s: Schema): (a: Action)
  {
    Action(true, [Wrapper(k, n, s)], map[])
  }

  function Wrapper(k: string, n: string, s: Schema): (r: Schema)
  {
    ClosedNode(map[k := X_IS_ONE, n := s], map[k := X_IS_ONE, n := s].Keys)
  }

  function WrappedSent(k: string, n: string, v: Json): (m: map<string, Json>)
  {
    map[k := ONE, n := v]
  }

  lemma WrapperLowers(k: string, n: string, s: Schema)
    requires k != n
    ensures Lower(Wrapper(k, n, s), OpenAI) == Wrapper(k, n, Lower(s, OpenAI))
    ensures Restore(Wrapper(k, n, s), OpenAI) == Wrapper(k, n, Restore(s, OpenAI))
  {
    var w := Wrapper(k, n, s);
    TheLeaves();
    LeafLowers(X_IS_ONE);
    assert w.Props() == map[k := X_IS_ONE, n := s] && w.Required() == {k, n} && Kept([], OpenAI) == [];
    assert w.Props().Keys == {k, n} == map[k := X_IS_ONE, n := Lower(s, OpenAI)].Keys;
    assert {k, n} == map[k := X_IS_ONE, n := Restore(s, OpenAI)].Keys;
    assert Lower(w, OpenAI).properties.of == map[k := X_IS_ONE, n := Lower(s, OpenAI)];
    assert Restore(w, OpenAI).properties.of == map[k := X_IS_ONE, n := Restore(s, OpenAI)];
  }

  lemma WrapperMeans(k: string, n: string, s: Schema, v: Json)
    requires k != n
    ensures Accepts(JObj(WrappedSent(k, n, v)), Wrapper(k, n, s), map[], {}) <==> Accepts(v, s, map[], {})
  {
    var m, p := WrappedSent(k, n, v), map[k := X_IS_ONE, n := s];
    LeafMeans(ONE, NoType, Some(ONE), map[], {});
    PyEqReflexive(ONE);
    ClosedNodeMeans(m, p, {k, n}, map[], {});
    assert m.Keys == {k, n} == p.Keys;
    assert m[k] == ONE && m[n] == v && p[k] == X_IS_ONE && p[n] == s;
  }

  lemma WrapperIsInOrder(k: string, n: string, s: Schema)
    requires k != n && SafeName(k, OpenAI) && SafeName(n, OpenAI) && InOrder(s)
    ensures var w := Wrapper(k, n, s);
      Plain(w) && Compiles(w, {}, OpenAI) && Regular(w, OpenAI) && DepthWithin(Lower(w, OpenAI), map[], {}, 2)
  {
    var w := Wrapper(k, n, s);
    TheLeaves();
    LeafIsInOrder(X_IS_ONE);
    DepthGrows(X_IS_ONE, map[], {}, 0, 1);
    assert w.Props() == map[k := X_IS_ONE, n := s] && w.Required() == {k, n};
    WrapperLowers(k, n, s);
    assert ValuesUndisturbed(None, None, OpenAI);
  }

  lemma WrapperConsts(k: string, n: string, s: Schema)
    requires k != n && s.Union?
    ensures Consts(Wrapper(k, n, s)) == map[k := ONE] && Consts(Lower(Wrapper(k, n, s), OpenAI)) != map[]
  {
    var w := Wrapper(k, n, s);
    assert w.Props() == map[k := X_IS_ONE, n := s] && w.Required() == {k, n};
    LowerKeepsConsts(w, OpenAI);
    NonEmpty(k, ONE);
  }

  lemma SingleLowers(exclusive: bool, a: Schema)
    ensures LowerSeq([a], OpenAI) == [Lower(a, OpenAI)]
    ensures Lower(Union(exclusive, [a]), OpenAI) == Union(false, [Lower(a, OpenAI)])
    ensures Restore(Union(exclusive, [a]), OpenAI) == Union(exclusive, [Restore(a, OpenAI)])
  {
    var p := [a];
    assert p[0] == a;
    assert LowerSeq(p, OpenAI) == [Lower(a, OpenAI)];
    assert Lower(Union(exclusive, p), OpenAI).branches == [Lower(a, OpenAI)];
    assert Restore(Union(exclusive, p), OpenAI).branches == [Restore(a, OpenAI)];
  }

  lemma SingleMeans(v: Json, exclusive: bool, a: Schema)
    ensures Accepts(v, Union(exclusive, [a]), map[], {}) <==> Accepts(v, a, map[], {})
  {
    assert [a][0] == a;
  }

  lemma SingleCompiles(b: Schema)
    requires Plain(b) && Compiles(b, {}, OpenAI)
    ensures var c := Action(true, [b], map[]);
      PlainAction(c) && forall i :: 0 <= i < |c.branches| ==> Compiles(c.branches[i], c.defs.Keys, OpenAI)
  {
    var c: Action := Action(true, [b], map[]);
    assert c.defs.Keys == {};
    assert forall i :: 0 <= i < |c.branches| ==> c.branches[i] == b;
  }

  lemma SingleDepth(b: Schema, d: nat)
    requires DepthWithin(b, map[], {}, d)
    ensures DepthWithin(Union(false, [b]), map[], {}, d)
  {}

  lemma SingleRoundTrips(b: Schema)
    requires Regular(b, OpenAI)
    ensures RoundTrips(Union(true, [b]), OpenAI)
  {
    RoundTripExact(Union(true, [b]), OpenAI);
  }

  lemma SingleIsExclusive(b: Schema)
    requires Consts(b) != map[]
    ensures MutuallyExclusive([b])
  {}

  // An action of one branch.
  lemma SingleCompilesStrictly(b: Schema)
    requires Plain(b) && Compiles(b, {}, OpenAI) && Regular(b, OpenAI) && DepthWithin(Lower(b, OpenAI), map[], {}, 2)
    requires Consts(Lower(b, OpenAI)) != map[]
    ensures CompilesStrictly(Action(true, [b], map[]), OpenAI) && PlainAction(Action(true, [b], map[]))
  {
    SingleCompiles(b);
    SingleRoundTrips(b);
    SingleLowers(true, b);
    SingleIsExclusive(Lower(b, OpenAI));
    SingleDepth(Lower(b, OpenAI), 2);
    EnvelopeDepth(Action(true, [b], map[]), 2);
  }

  lemma WrapperIsSelected(k: string, n: string, s: Schema, v: Json)
    requires k != n && s.Union?
    ensures Selected(JObj(WrappedSent(k, n, v)), Wrapped(k, n, s).branches, map[], {}) == Some(0)
  {
    var b := Wrapped(k, n, s).branches;
    WrapperConsts(k, n, s);
    PyEqReflexive(ONE);
    assert Resolved(b[0], map[], {}) == Wrapper(k, n, s);
    assert OnlyCandidate(JObj(WrappedSent(k, n, v)), b, map[], {}, 0);
  }

  lemma WrapperPrunes(k: string, n: string, s: Schema, v: Json)
    requires k != n
    ensures Prune(JObj(WrappedSent(k, n, v)), Wrapper(k, n, s), map[], {})
      == JObj(WrappedSent(k, n, Prune(v, s, map[], {})))
  {
    PruneKeepsShape(ONE, X_IS_ONE, map[], {});
    AllRequiredPrunes(WrappedSent(k, n, v), map[k := X_IS_ONE, n := s], WrappedSent(k, n, Prune(v, s, map[], {})));
  }

  lemma AllRequiredPrunes(m: map<string, Json>, p: map<string, Schema>, w: map<string, Json>)
    requires m.Keys == p.Keys == w.Keys && forall k :: k in m ==> Prune(m[k], p[k], map[], {}) == w[k]
    ensures Prune(JObj(m), ClosedNode(p, p.Keys), map[], {}) == JObj(w)
  {
    var s := ClosedNode(p, p.Keys);
    assert s.Required() == p.Keys && s.properties.of == p;
    assert Prune(JObj(m), s, map[], {}).members == w;
  }

  lemma WrappedIsPruned(k: string, n: string, s: Schema, v: Json)
    requires k != n && s.Union?
    ensures Prune(JObj(WrappedSent(k, n, v)), Wrapped(k, n, s).Root(), map[], {})
      == JObj(WrappedSent(k, n, Prune(v, s, map[], {})))
  {
    WrapperIsSelected(k, n, s, v);
    WrapperPrunes(k, n, s, v);
  }

  lemma WrapperCompilesStrictly(k: string, n: string, s: Schema)
    requires k != n && SafeName(k, OpenAI) && SafeName(n, OpenAI) && s.Union? && InOrder(s)
    ensures CompilesStrictly(Wrapped(k, n, s), OpenAI) && PlainAction(Wrapped(k, n, s))
  {
    WrapperIsInOrder(k, n, s);
    WrapperConsts(k, n, s);
    SingleCompilesStrictly(Wrapper(k, n, s));
  }

  // Whatever union fails on its own, at any value, fails inside an action that compiles
  // strictly, at a value a provider may send.
  lemma FailureSpoilsAction(k: string, n: string, s: Schema, v: Json)
    requires k != n && SafeName(k, OpenAI) && SafeName(n, OpenAI)
    requires s.Union? && InOrder(s) && Fails(s, v)
    ensures SpoilsAction(Wrapped(k, n, s), JObj(WrappedSent(k, n, v)))
  {
    WrapperCompilesStrictly(k, n, s);
    WrappedMayBeSent(k, n, s, v);
    WrappedIsPruned(k, n, s, v);
    WrappedIsRejected(k, n, s, Prune(v, s, map[], {}));
    assert RestoreAll(map[], OpenAI) == map[];
  }

  lemma WrappedMayBeSent(k: string, n: string, s: Schema, v: Json)
    requires k != n && Accepts(v, Lower(s, OpenAI), map[], {})
    ensures MaySend(JObj(WrappedSent(k, n, v)), Wrapped(k, n, s), OpenAI)
  {
    SingleLowers(true, Wrapper(k, n, s));
    WrapperLowers(k, n, s);
    WrapperMeans(k, n, Lower(s, OpenAI), v);
    SingleMeans(JObj(WrappedSent(k, n, v)), false, Lower(Wrapper(k, n, s), OpenAI));
    assert LowerAll(map[], OpenAI) == map[];
    EnvelopeCarries(JObj(WrappedSent(k, n, v)), Wrapped(k, n, s), OpenAI);
  }

  lemma WrappedIsRejected(k: string, n: string, s: Schema, w: Json)
    requires k != n && !Accepts(w, Restore(s, OpenAI), map[], {})
    ensures !Accepts(JObj(WrappedSent(k, n, w)), Restore(Wrapped(k, n, s).Root(), OpenAI), map[], {})
  {
    SingleLowers(true, Wrapper(k, n, s));
    WrapperLowers(k, n, s);
    WrapperMeans(k, n, Restore(s, OpenAI), w);
    SingleMeans(JObj(WrappedSent(k, n, w)), true, Restore(Wrapper(k, n, s), OpenAI));
  }

  // The action compiles strictly, a provider may send the value under its envelope, and the
  // pruned value fails the restored schema.
  ghost predicate SpoilsAction(a: Action, v: Json)
  {
    && CompilesStrictly(a, OpenAI) && PlainAction(a) && MaySend(v, a, OpenAI)
    && !Accepts(Prune(v, a.Root(), a.defs, {}), Restore(a.Root(), OpenAI), RestoreAll(a.defs, OpenAI), {})
  }

  // A union inside a union does so for any property names that stripping does not take for
  // keywords.
  lemma NestedUnionFails(k: string, n: string, x: string, z: string)
    requires k != n && SafeName(k, OpenAI) && SafeName(n, OpenAI)
    requires x != z && SafeName(x, OpenAI) && SafeName(z, OpenAI)
    ensures SpoilsAction(Wrapped(k, n, Nested(x, z)), JObj(WrappedSent(k, n, JObj(NestedSent(x, z)))))
  {
    NestedIsInOrder(x, z);
    NestedFails(x, z);
    FailureSpoilsAction(k, n, Nested(x, z), JObj(NestedSent(x, z)));
  }
}
