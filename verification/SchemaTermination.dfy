// The nesting limit is also the termination argument: a schema whose depth can be measured
// has no reference cycle, so the recursive validator and pruner return on every value.
module SchemaTermination {
  import opened JsonValues
  import opened ActionSchemas
  import opened SchemaCompiler
  import opened SchemaPruning

  // `_depth(s) <= d`, including its two failures: a definition met twice on one path, and
  // a reference to nothing. Only properties and items add a level.
  ghost predicate DepthWithin(s: Schema, defs: Definitions, seen: set<string>, d: int)
    decreases defs.Keys - seen, s
  {
    match s
    case Ref(name) => name in defs && name !in seen && DepthWithin(defs[name], defs, seen + {name}, d)
    case Union(_, branches) =>
      0 <= d && forall i :: 0 <= i < |branches| ==> DepthWithin(branches[i], defs, seen, d)
    case Node(_, _, _, _, items, properties, _, _) =>
      && 0 <= d
      && (properties.Properties? ==>
            forall k :: k in properties.of ==> DepthWithin(properties.of[k], defs, seen, d - 1))
      && (items.Items? ==> DepthWithin(items.each, defs, seen, d - 1))
  }

  lemma {:induction false} DepthGrows(s: Schema, defs: Definitions, seen: set<string>, d: int, e: int)
    requires DepthWithin(s, defs, seen, d) && d <= e
    ensures DepthWithin(s, defs, seen, e)
    decreases defs.Keys - seen, s
  {
    match s
    case Ref(name) => DepthGrows(defs[name], defs, seen + {name}, d, e);
    case Union(_, branches) =>
      forall i | 0 <= i < |branches|
        ensures DepthWithin(branches[i], defs, seen, e)
      {
        DepthGrows(branches[i], defs, seen, d, e);
      }
    case Node(_, _, _, _, items, properties, _, _) =>
      if items.Items? { DepthGrows(items.each, defs, seen, d - 1, e - 1); }
      if properties.Properties? {
        forall k | k in properties.of
          ensures DepthWithin(properties.of[k], defs, seen, e - 1)
        {
          DepthGrows(properties.of[k], defs, seen, d - 1, e - 1);
        }
      }
  }

  // Every reference path resolves and never meets a definition twice.
  ghost predicate Acyclic(s: Schema, defs: Definitions, seen: set<string>)
    decreases defs.Keys - seen, s
  {
    match s
    case Ref(name) => name in defs && name !in seen && Acyclic(defs[name], defs, seen + {name})
    case Union(_, branches) => forall i :: 0 <= i < |branches| ==> Acyclic(branches[i], defs, seen)
    case Node(_, _, _, _, items, properties, _, _) =>
      && (properties.Properties? ==>
            forall k :: k in properties.of ==> Acyclic(properties.of[k], defs, seen))
      && (items.Items? ==> Acyclic(items.each, defs, seen))
  }

  // The compiler measures the compiled tree; the source tree inherits the conclusion.
  lemma {:induction false} MeasuredIsAcyclic(s: Schema, defs: Definitions, t: Target, seen: set<string>, d: int)
    requires DepthWithin(Lower(s, t), LowerAll(defs, t), seen, d)
    ensures Acyclic(s, defs, seen)
    decreases defs.Keys - seen, s
  {
    match s
    case Ref(name) => MeasuredIsAcyclic(defs[name], defs, t, seen + {name}, d);
    case Union(_, branches) =>
      forall i | 0 <= i < |branches|
        ensures Acyclic(branches[i], defs, seen)
      {
        assert Lower(s, t).branches[i] == Lower(branches[i], t);
        MeasuredIsAcyclic(branches[i], defs, t, seen, d);
      }
    case Node(_, _, _, _, items, properties, _, _) =>
      if items.Items? { MeasuredIsAcyclic(items.each, defs, t, seen, d - 1); }
      if properties.Properties? { MeasuredPropertiesAreAcyclic(s, defs, t, seen, d); }
  }

  lemma {:induction false} MeasuredPropertiesAreAcyclic(s: Schema, defs: Definitions, t: Target, seen: set<string>,
                                                        d: int)
    requires s.Node? && s.properties.Properties? && DepthWithin(Lower(s, t), LowerAll(defs, t), seen, d)
    ensures forall k :: k in s.properties.of ==> Acyclic(s.properties.of[k], defs, seen)
    decreases defs.Keys - seen, s, 0
  {
    forall k | k in s.properties.of
      ensures Acyclic(s.properties.of[k], defs, seen)
    {
      var l := Lower(s.properties.of[k], t);
      var p := Lower(s, t).properties.of[k];
      assert DepthWithin(p, LowerAll(defs, t), seen, d - 1);
      if p != l { NullableHidesNoDepth(l, LowerAll(defs, t), seen, d - 1); }
      MeasuredIsAcyclic(s.properties.of[k], defs, t, seen, d - 1);
    }
  }

  lemma NullableHidesNoDepth(s: Schema, defs: Definitions, seen: set<string>, d: int)
    requires DepthWithin(Nullable(s), defs, seen, d)
    ensures DepthWithin(s, defs, seen, d)
  {
    var n := Nullable(s);
    if n != s {
      if s.Union? {
        assert forall i :: 0 <= i < |s.branches| ==> n.branches[i] == s.branches[i];
      } else {
        assert n.branches[0] == s;
      }
    }
  }

  /******* The validator as the program runs it *******/

  // What a union makes of its branches' results.
  ghost function UnionVerdict(exclusive: bool, results: seq<Option<bool>>): (r: Option<bool>)
  {
    if None in results then None
    else Some(
      && Some(true) in results
      && (exclusive ==> forall i, j ::
            0 <= i < |results| && 0 <= j < |results| && results[i] == results[j] == Some(true) ==> i == j))
  }

  // No definition is remembered; running out of fuel stands for unbounded recursion.
  ghost function RunValidate(v: Json, s: Schema, defs: Definitions, fuel: nat): (r: Option<bool>)
    decreases fuel
  {
    if fuel == 0 then None else
    match s
    case Ref(name) =>
      if name in defs then RunValidate(v, defs[name], defs, fuel - 1) else Some(false)
    case Union(exclusive, branches) =>
      UnionVerdict(exclusive, seq(|branches|, i requires 0 <= i < |branches| =>
                                    RunValidate(v, branches[i], defs, fuel - 1)))
    case Node(_, _, _, _, items, properties, _, _) =>
      if v.JObj? && properties.Properties? && exists k ::
           k in v.members && k in properties.of && RunValidate(v.members[k], properties.of[k], defs, fuel - 1).None?
      then None
      else if v.JArr? && items.Items? && exists i ::
           0 <= i < |v.items| && RunValidate(v.items[i], items.each, defs, fuel - 1).None?
      then None
      else Some(
        && LocalHolds(v, s)
        && (v.JObj? && properties.Properties? ==> forall k ::
              k in v.members && k in properties.of
              ==> RunValidate(v.members[k], properties.of[k], defs, fuel - 1) == Some(true))
        && (v.JArr? && items.Items? ==> forall i ::
              0 <= i < |v.items| ==> RunValidate(v.items[i], items.each, defs, fuel - 1) == Some(true)))
  }

  // The same for pruning.
  ghost function RunPrune(v: Json, s: Schema, defs: Definitions, fuel: nat): (r: Option<Json>)
    decreases fuel
  {
    if fuel == 0 then None else
    match s
    case Ref(name) => if name in defs then RunPrune(v, defs[name], defs, fuel - 1) else Some(v)
    case Union(_, branches) =>
      var i := Selected(v, branches, defs, {});
      if i.Some? then RunPrune(v, branches[i.value], defs, fuel - 1) else Some(v)
    case Node(_, _, _, _, items, properties, _, _) =>
      if v.JObj? then
        var kept := set k | k in v.members && !(v.members[k].JNull? && k !in s.Required());
        if exists k :: k in kept && k in s.Props() && RunPrune(v.members[k], s.Props()[k], defs, fuel - 1).None?
        then None
        else Some(JObj(map k | k in kept ::
                         if k in s.Props() then RunPrune(v.members[k], s.Props()[k], defs, fuel - 1).value
                         else v.members[k]))
      else if v.JArr? && items.Items? then
        if exists i :: 0 <= i < |v.items| && RunPrune(v.items[i], items.each, defs, fuel - 1).None? then None
        else Some(JArr(seq(|v.items|, i requires 0 <= i < |v.items| =>
                             RunPrune(v.items[i], items.each, defs, fuel - 1).value)))
      else Some(v)
  }

  // `n` levels of recursion reach every leaf of `s` with references followed.
  ghost predicate Bounded(s: Schema, defs: Definitions, n: nat)
    decreases n
  {
    && 0 < n
    && match s
       case Ref(name) => name in defs && Bounded(defs[name], defs, n - 1)
       case Union(_, branches) => forall i :: 0 <= i < |branches| ==> Bounded(branches[i], defs, n - 1)
       case Node(_, _, _, _, items, properties, _, _) =>
         && (properties.Properties? ==>
               forall k :: k in properties.of ==> Bounded(properties.of[k], defs, n - 1))
         && (items.Items? ==> Bounded(items.each, defs, n - 1))
  }

  lemma {:induction false} BoundedMonotone(s: Schema, defs: Definitions, n: nat, m: nat)
    requires Bounded(s, defs, n) && n <= m
    ensures Bounded(s, defs, m)
    decreases n
  {
    match s
    case Ref(name) => BoundedMonotone(defs[name], defs, n - 1, m - 1);
    case Union(_, branches) =>
      forall i | 0 <= i < |branches| { BoundedMonotone(branches[i], defs, n - 1, m - 1); }
    case Node(_, _, _, _, items, properties, _, _) =>
      if properties.Properties? {
        forall k | k in properties.of { BoundedMonotone(properties.of[k], defs, n - 1, m - 1); }
      }
      if items.Items? { BoundedMonotone(items.each, defs, n - 1, m - 1); }
  }

  lemma {:induction false} AcyclicIsBounded(s: Schema, defs: Definitions, seen: set<string>) returns (n: nat)
    requires Acyclic(s, defs, seen)
    ensures Bounded(s, defs, n)
    decreases defs.Keys - seen, s, 1, 0
  {
    match s
    case Ref(name) =>
      n := AcyclicIsBounded(defs[name], defs, seen + {name});
      n := n + 1;
    case Union(_, branches) =>
      n := BranchesAreBounded(s, defs, seen, |branches|);
      n := n + 1;
    case Node(_, _, _, _, items, properties, _, _) =>
      var p: nat := 0;
      if properties.Properties? { p := PropertiesAreBounded(s, defs, seen, properties.of.Keys); }
      var q: nat := 0;
      if items.Items? { q := AcyclicIsBounded(items.each, defs, seen); }
      n := 1 + p + q;
      if properties.Properties? {
        forall k | k in properties.of { BoundedMonotone(properties.of[k], defs, p, p + q); }
      }
      if items.Items? { BoundedMonotone(items.each, defs, q, p + q); }
  }

  lemma {:induction false} BranchesAreBounded(s: Schema, defs: Definitions, seen: set<string>, count: nat)
    returns (n: nat)
    requires s.Union? && Acyclic(s, defs, seen) && count <= |s.branches|
    ensures forall i :: 0 <= i < count ==> Bounded(s.branches[i], defs, n)
    decreases defs.Keys - seen, s, 0, count
  {
    n := 0;
    if 0 < count {
      var a := BranchesAreBounded(s, defs, seen, count - 1);
      var b := AcyclicIsBounded(s.branches[count - 1], defs, seen);
      n := a + b;
      forall i | 0 <= i < count - 1 { BoundedMonotone(s.branches[i], defs, a, n); }
      BoundedMonotone(s.branches[count - 1], defs, b, n);
    }
  }

  lemma {:induction false} PropertiesAreBounded(s: Schema, defs: Definitions, seen: set<string>, keys: set<string>)
    returns (n: nat)
    requires s.Node? && s.properties.Properties? && Acyclic(s, defs, seen) && keys <= s.properties.of.Keys
    ensures forall k :: k in keys ==> Bounded(s.properties.of[k], defs, n)
    decreases defs.Keys - seen, s, 0, |keys|
  {
    n := 0;
    if keys != {} {
      var k :| k in keys;
      var a := PropertiesAreBounded(s, defs, seen, keys - {k});
      var b := AcyclicIsBounded(s.properties.of[k], defs, seen);
      n := a + b;
      forall j | j in keys - {k} { BoundedMonotone(s.properties.of[j], defs, a, n); }
      BoundedMonotone(s.properties.of[k], defs, b, n);
    }
  }

  lemma {:induction false} BoundedRunValidates(v: Json, s: Schema, defs: Definitions, seen: set<string>, n: nat)
    requires Acyclic(s, defs, seen) && Bounded(s, defs, n)
    ensures RunValidate(v, s, defs, n) == Some(Accepts(v, s, defs, seen))
    decreases n, 1
  {
    match s
    case Ref(name) => BoundedRunValidates(v, defs[name], defs, seen + {name}, n - 1);
    case Union(_, _) => BoundedRunValidatesUnion(v, s, defs, seen, n);
    case Node(_, _, _, _, _, _, _, _) => BoundedRunValidatesNode(v, s, defs, seen, n);
  }

  lemma {:induction false} BoundedRunValidatesUnion(v: Json, s: Schema, defs: Definitions, seen: set<string>, n: nat)
    requires s.Union? && Acyclic(s, defs, seen) && Bounded(s, defs, n)
    ensures RunValidate(v, s, defs, n) == Some(Accepts(v, s, defs, seen))
    decreases n, 0
  {
    forall i | 0 <= i < |s.branches|
      ensures RunValidate(v, s.branches[i], defs, n - 1) == Some(Accepts(v, s.branches[i], defs, seen))
    {
      BoundedRunValidates(v, s.branches[i], defs, seen, n - 1);
    }
    var results := seq(|s.branches|, i requires 0 <= i < |s.branches| => RunValidate(v, s.branches[i], defs, n - 1));
    UnionRunAgrees(v, s, defs, seen, results);
  }

  lemma UnionRunAgrees(v: Json, s: Schema, defs: Definitions, seen: set<string>, results: seq<Option<bool>>)
    requires s.Union? && |results| == |s.branches|
    requires forall i :: 0 <= i < |s.branches| ==> results[i] == Some(Accepts(v, s.branches[i], defs, seen))
    ensures UnionVerdict(s.exclusive, results) == Some(Accepts(v, s, defs, seen))
  {
    if Some(true) in results {
      var i :| 0 <= i < |results| && results[i] == Some(true);
      assert Accepts(v, s.branches[i], defs, seen);
    }
  }

  lemma {:induction false} BoundedRunValidatesNode(v: Json, s: Schema, defs: Definitions, seen: set<string>, n: nat)
    requires s.Node? && Acyclic(s, defs, seen) && Bounded(s, defs, n)
    ensures RunValidate(v, s, defs, n) == Some(Accepts(v, s, defs, seen))
    decreases n, 0
  {
    if v.JObj? && s.properties.Properties? {
      forall k | k in v.members && k in s.properties.of
        ensures RunValidate(v.members[k], s.properties.of[k], defs, n - 1)
             == Some(Accepts(v.members[k], s.properties.of[k], defs, seen))
      {
        BoundedRunValidates(v.members[k], s.properties.of[k], defs, seen, n - 1);
      }
    } else if v.JArr? && s.items.Items? {
      forall i | 0 <= i < |v.items|
        ensures RunValidate(v.items[i], s.items.each, defs, n - 1)
             == Some(Accepts(v.items[i], s.items.each, defs, seen))
      {
        BoundedRunValidates(v.items[i], s.items.each, defs, seen, n - 1);
      }
    }
  }

  // Validation returns on every value within a recursion bound that depends on the schema
  // alone, and returns what `Accepts` says.
  lemma ValidationTerminates(s: Schema, defs: Definitions) returns (n: nat)
    requires Acyclic(s, defs, {})
    ensures forall v, fuel: nat :: n <= fuel ==> RunValidate(v, s, defs, fuel) == Some(Accepts(v, s, defs, {}))
  {
    n := AcyclicIsBounded(s, defs, {});
    forall v, fuel: nat | n <= fuel
      ensures RunValidate(v, s, defs, fuel) == Some(Accepts(v, s, defs, {}))
    {
      BoundedMonotone(s, defs, n, fuel);
      BoundedRunValidates(v, s, defs, {}, fuel);
    }
  }

  // What was followed to reach an acyclic schema does not matter to what it resolves to.
  lemma {:induction false} ResolvedForgets(s: Schema, defs: Definitions, seen: set<string>, fewer: set<string>)
    requires Acyclic(s, defs, seen) && fewer <= seen
    ensures Resolved(s, defs, seen) == Resolved(s, defs, fewer)
    decreases defs.Keys - seen
  {
    if s.Ref? { ResolvedForgets(defs[s.name], defs, seen + {s.name}, fewer + {s.name}); }
  }

  lemma SelectedForgets(v: Json, branches: seq<Schema>, defs: Definitions, seen: set<string>)
    requires forall i :: 0 <= i < |branches| ==> Acyclic(branches[i], defs, seen)
    ensures Selected(v, branches, defs, seen) == Selected(v, branches, defs, {})
  {
    forall i | 0 <= i < |branches|
      ensures Candidate(v, branches[i], defs, seen) == Candidate(v, branches[i], defs, {})
    {
      ResolvedForgets(branches[i], defs, seen, {});
    }
    assert forall i :: OnlyCandidate(v, branches, defs, seen, i) <==> OnlyCandidate(v, branches, defs, {}, i);
  }

  lemma {:induction false} BoundedRunPrunes(v: Json, s: Schema, defs: Definitions, seen: set<string>, n: nat)
    requires Acyclic(s, defs, seen) && Bounded(s, defs, n)
    ensures RunPrune(v, s, defs, n) == Some(Prune(v, s, defs, seen))
    decreases n
  {
    match s
    case Ref(name) => BoundedRunPrunes(v, defs[name], defs, seen + {name}, n - 1);
    case Union(_, branches) =>
      SelectedForgets(v, branches, defs, seen);
      var i := Selected(v, branches, defs, seen);
      if i.Some? { BoundedRunPrunes(v, branches[i.value], defs, seen, n - 1); }
    case Node(_, _, _, _, items, properties, _, _) =>
      if v.JObj? {
        forall k | k in v.members && k in s.Props() {
          BoundedRunPrunes(v.members[k], s.Props()[k], defs, seen, n - 1);
        }
        assert RunPrune(v, s, defs, n).value.members == Prune(v, s, defs, seen).members;
      } else if v.JArr? && items.Items? {
        forall i | 0 <= i < |v.items| { BoundedRunPrunes(v.items[i], items.each, defs, seen, n - 1); }
        assert RunPrune(v, s, defs, n).value.items == Prune(v, s, defs, seen).items;
      }
  }

  lemma PruningTerminates(s: Schema, defs: Definitions) returns (n: nat)
    requires Acyclic(s, defs, {})
    ensures forall v, fuel: nat :: n <= fuel ==> RunPrune(v, s, defs, fuel) == Some(Prune(v, s, defs, {}))
  {
    n := AcyclicIsBounded(s, defs, {});
    forall v, fuel: nat | n <= fuel
      ensures RunPrune(v, s, defs, fuel) == Some(Prune(v, s, defs, {}))
    {
      BoundedMonotone(s, defs, n, fuel);
      BoundedRunPrunes(v, s, defs, {}, fuel);
    }
  }
}
