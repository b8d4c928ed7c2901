// The compiler as a whole: which observations are eligible, how they rank, and what the
// finished context promises.
module ContextCompiler {
  import opened JsonValues
  import opened ContextLines
  import opened ContextCompilation
  import opened ContextMaterialization

  // `relevance` is the score of an observation for the question.
  datatype Request = Request(question: string, observations: seq<Observation>, root: string,
                             relevant: Option<set<string>>, lineage: set<string>,
                             previousAction: set<nat>, previousAnswer: set<nat>, pinned: set<nat>,
                             relevance: Observation -> real)

  /******* Eligible assets *******/

  // The parent each transform observation names; the last one to name a child wins.
  function Parents(observations: seq<Observation>): (r: map<string, string>)
  {
    if observations == [] then map[]
    else
      var last := observations[|observations| - 1];
      var before := Parents(observations[..|observations| - 1]);
      if last.derivation.Some? then before[last.derivation.value.child := last.derivation.value.parent] else before
  }

  // `a` is `steps` parents above `from`.
  predicate Ancestor(parents: map<string, string>, from: string, a: string, steps: nat)
    decreases steps
  {
    if steps == 0 then a == from
    else from in parents && Ancestor(parents, parents[from], a, steps - 1)
  }

  ghost predicate ClosedUnderParents(assets: set<string>, parents: map<string, string>)
  {
    forall a :: a in assets && a in parents ==> parents[a] in assets
  }

  ghost predicate Reached(seeds: set<string>, parents: map<string, string>, a: string)
  {
    exists from, steps: nat :: from in seeds && Ancestor(parents, from, a, steps)
  }

  lemma {:induction false} AncestorStep(parents: map<string, string>, from: string, a: string, steps: nat)
    requires Ancestor(parents, from, a, steps) && a in parents
    ensures Ancestor(parents, from, parents[a], steps + 1)
    decreases steps
  {
    if 0 < steps { AncestorStep(parents, parents[from], a, steps - 1); }
  }

  lemma {:induction false} ClosedContainsAncestors(assets: set<string>, parents: map<string, string>, from: string,
                                                   a: string, steps: nat)
    requires ClosedUnderParents(assets, parents) && from in assets && Ancestor(parents, from, a, steps)
    ensures a in assets
    decreases steps
  {
    if 0 < steps { ClosedContainsAncestors(assets, parents, parents[from], a, steps - 1); }
  }

  // The seeds and all their recorded ancestors, and nothing else.
  method AncestorClosure(seeds: set<string>, parents: map<string, string>) returns (assets: set<string>)
    ensures forall a :: a in assets <==> Reached(seeds, parents, a)
  {
    assets := seeds;
    var pending := seeds;
    forall a | a in seeds ensures Reached(seeds, parents, a) { assert Ancestor(parents, a, a, 0); }
    while pending != {}
      invariant seeds <= assets && pending <= assets
      invariant forall a :: a in assets && a in parents && a !in pending ==> parents[a] in assets
      invariant forall a :: a in assets ==> Reached(seeds, parents, a)
      decreases parents.Values - assets, pending
    {
      var asset :| asset in pending;
      pending := pending - {asset};
      if asset in parents && parents[asset] !in assets {
        var parent := parents[asset];
        ghost var from, steps: nat :| from in seeds && Ancestor(parents, from, asset, steps);
        AncestorStep(parents, from, asset, steps);
        assert Reached(seeds, parents, parent);
        assert parent in parents.Values - assets;
        assets, pending := assets + {parent}, pending + {parent};
      }
    }
    forall a | Reached(seeds, parents, a)
      ensures a in assets
    {
      var from, steps: nat :| from in seeds && Ancestor(parents, from, a, steps);
      ClosedContainsAncestors(assets, parents, from, a, steps);
    }
  }

  // Identifiers an observation brings into a conflict: its own and those it contradicts.
  function ConflictOf(o: Observation): (r: set<nat>)
  {
    if o.contradicts != {} then {o.id} + o.contradicts else {}
  }

  function Contradictions(observations: seq<Observation>): (r: set<nat>)
  {
    set o, id | o in observations && id in ConflictOf(o) :: id
  }

  function Warnings(observations: seq<Observation>): (r: set<nat>)
  {
    set o, id | o in observations && o.kind.Warning? && id in {o.id} + o.contradicts :: id
  }

  function KeptIds(q: Request): (r: set<nat>)
  {
    q.previousAction + q.previousAnswer + q.pinned + Contradictions(q.observations) + Warnings(q.observations)
  }

  function Seeds(q: Request): (r: set<string>)
    requires q.relevant.Some?
  {
    {q.root} + q.relevant.value + q.lineage + (set o | o in q.observations && o.id in KeptIds(q) :: o.asset)
  }

  ghost predicate Eligible(q: Request, o: Observation)
  {
    o in q.observations && (q.relevant.None? || Reached(Seeds(q), Parents(q.observations), o.asset))
  }

  /******* Ranking *******/

  predicate RootMetadata(q: Request, o: Observation)
  {
    o.asset == q.root && o.kind.Metadata?
  }

  function PinGroup(q: Request, o: Observation): (r: nat)
  {
    if o.id in q.previousAction || o.id in q.pinned || o.kind.Warning? then 1
    else if RootMetadata(q, o) then 2
    else if o.id in q.previousAnswer then 3
    else if o.id in Contradictions(q.observations) then 4
    else 5
  }

  function RankedAs(q: Request, o: Observation): (r: Ranked)
  {
    Ranked(o, PinGroup(q, o), q.relevance(o))
  }

  function Itself(item: Ranked): (r: Ranked)
  {
    item
  }

  // The best ranked root metadata, whose line is never left out.
  function MandatoryId(q: Request, ranked: seq<Ranked>): (r: Option<nat>)
  {
    if ranked == [] then None
    else if RootMetadata(q, ranked[0].o) then Some(ranked[0].o.id)
    else MandatoryId(q, ranked[1..])
  }

  lemma {:induction false} MandatoryIsRootMetadata(q: Request, ranked: seq<Ranked>)
    ensures MandatoryId(q, ranked).None? ==> forall x :: x in ranked ==> !RootMetadata(q, x.o)
    ensures MandatoryId(q, ranked).Some? ==>
      exists x :: x in ranked && RootMetadata(q, x.o) && x.o.id == MandatoryId(q, ranked).value
  {
    if ranked != [] {
      assert ranked == [ranked[0]] + ranked[1..];
      if !RootMetadata(q, ranked[0].o) { MandatoryIsRootMetadata(q, ranked[1..]); }
    }
  }

  method RankEligible(q: Request) returns (ranked: seq<Ranked>)
    requires UniqueIds(q.observations)
    ensures forall x :: x in ranked ==> Eligible(q, x.o) && x == RankedAs(q, x.o)
    ensures forall o :: Eligible(q, o) ==> RankedAs(q, o) in ranked
    ensures Ordered(ranked) && DistinctIds(Itself, ranked)
  {
    var assets := {};
    if q.relevant.Some? {
      assets := AncestorClosure(Seeds(q), Parents(q.observations));
    }
    var unsorted: seq<Ranked> := [];
    for i := 0 to |q.observations|
      invariant forall x :: x in unsorted ==> Eligible(q, x.o) && x == RankedAs(q, x.o) && x.o in q.observations[..i]
      invariant forall o :: Eligible(q, o) && o in q.observations[..i] ==> RankedAs(q, o) in unsorted
      invariant DistinctIds(Itself, unsorted)
    {
      var o := q.observations[i];
      assert q.observations[..i + 1] == q.observations[..i] + [o];
      if q.relevant.None? || o.asset in assets {
        unsorted := unsorted + [RankedAs(q, o)];
      }
    }
    assert q.observations[..|q.observations|] == q.observations;
    ranked := Sort(Itself, unsorted);
    SortKeepsItems(Itself, unsorted);
    SortOrders(Itself, unsorted);
    SameItems(ranked, unsorted);
    OrderedIsDistinct(ranked, unsorted);
  }

  lemma SameItems<T>(a: seq<T>, b: seq<T>)
    requires multiset(a) == multiset(b)
    ensures forall x :: x in a <==> x in b
  {
    forall x ensures x in a <==> x in b { assert x in multiset(a) <==> x in multiset(b); }
  }

  lemma OrderedIsDistinct(ranked: seq<Ranked>, unsorted: seq<Ranked>)
    requires Ordered(ranked) && DistinctIds(Itself, unsorted) && forall x :: x in ranked ==> x in unsorted
    ensures DistinctIds(Itself, ranked)
  {
    forall i, j | 0 <= i < j < |ranked|
      ensures ranked[i].o.id != ranked[j].o.id
    {
      assert Before(ranked[i], ranked[j]);
      assert ranked[i] in unsorted && ranked[j] in unsorted;
      var a :| 0 <= a < |unsorted| && unsorted[a] == ranked[i];
      var b :| 0 <= b < |unsorted| && unsorted[b] == ranked[j];
      assert a != b;
    }
  }

  /******* Selections keep identifiers apart *******/

  lemma {:induction false} TakenMembers(start: seq<Selected>, ranked: seq<Ranked>, picks: seq<Option<string>>)
    requires |picks| == |ranked|
    ensures forall x :: x in Taken(start, ranked, picks) ==> x in start || x.ranked in ranked
    ensures forall x :: x in start ==> x in Taken(start, ranked, picks)
  {
    if ranked != [] {
      var n := |ranked| - 1;
      TakenMembers(start, ranked[..n], picks[..n]);
      assert ranked == ranked[..n] + [ranked[n]];
    }
  }

  // Nothing is given to the item the selection starts with.
  predicate SkipsStart(start: seq<Selected>, ranked: seq<Ranked>, picks: seq<Option<string>>)
    requires |picks| == |ranked|
  {
    forall i :: 0 <= i < |ranked| && start != [] && ranked[i].o.id == start[0].ranked.o.id ==> picks[i].None?
  }

  lemma {:induction false} TakenIsDistinct(start: seq<Selected>, ranked: seq<Ranked>, picks: seq<Option<string>>)
    requires |picks| == |ranked| && |start| <= 1 && DistinctIds(Itself, ranked) && SkipsStart(start, ranked, picks)
    ensures DistinctIds(RankOf, Taken(start, ranked, picks))
  {
    if ranked != [] {
      var n := |ranked| - 1;
      TakenIsDistinct(start, ranked[..n], picks[..n]);
      TakenMembers(start, ranked[..n], picks[..n]);
      var front := Taken(start, ranked[..n], picks[..n]);
      if picks[n].Some? {
        forall i | 0 <= i < |front|
          ensures front[i].ranked.o.id != ranked[n].o.id
        {
          assert front[i] in front;
        }
      }
    }
  }

  lemma GreedySkipsStart(available: int, start: seq<Selected>, ranked: seq<Ranked>, picks: seq<Option<string>>)
    requires TakenGreedily(available, start, ranked, picks)
    ensures SkipsStart(start, ranked, picks)
  {
    forall i | 0 <= i < |ranked| && start != [] && ranked[i].o.id == start[0].ranked.o.id
      ensures picks[i].None?
    {
      assert GreedyAt(available, start, ranked, picks, i);
    }
  }

  // A length that does not depend on order: every line with its line end.
  function Weight(s: seq<Selected>): (r: nat)
  {
    if s == [] then 0 else |s[0].line| + 1 + Weight(s[1..])
  }

  lemma {:induction false} WeightAppends(s: seq<Selected>, x: Selected)
    ensures Weight(s + [x]) == Weight(s) + |x.line| + 1
  {
    if s == [] {
      assert s + [x] == [x];
    } else {
      assert (s + [x])[1..] == s[1..] + [x];
      WeightAppends(s[1..], x);
    }
  }

  lemma {:induction false} UsedIsWeight(s: seq<Selected>)
    ensures s != [] ==> Used(s) + 1 == Weight(s)
  {
    if s != [] {
      UsedIsWeight(s[..|s| - 1]);
      WeightAppends(s[..|s| - 1], s[|s| - 1]);
      assert s == s[..|s| - 1] + [s[|s| - 1]];
    }
  }

  lemma {:induction false} InsertWeighs(x: Selected, s: seq<Selected>)
    ensures Weight(Insert(RankOf, x, s)) == Weight(s) + |x.line| + 1
  {
    if s != [] && !Before(x.ranked, s[0].ranked) {
      InsertWeighs(x, s[1..]);
      assert Insert(RankOf, x, s)[1..] == Insert(RankOf, x, s[1..]);
    } else {
      assert Insert(RankOf, x, s)[1..] == s;
    }
  }

  lemma {:induction false} SortWeighs(s: seq<Selected>)
    ensures Weight(SortSelection(s)) == Weight(s) && (SortSelection(s) == [] <==> s == [])
  {
    if s != [] {
      SortWeighs(s[1..]);
      InsertWeighs(s[0], SortSelection(s[1..]));
    }
  }

  lemma SortKeepsUsed(s: seq<Selected>)
    ensures Used(SortSelection(s)) == Used(s)
  {
    SortWeighs(s);
    UsedIsWeight(s);
    UsedIsWeight(SortSelection(s));
  }

  // What a finished selection is made of.
  ghost predicate GoodSelection(q: Request, ranked: seq<Ranked>, mandatory: Option<nat>, selected: seq<Selected>)
  {
    && OrderedSelection(selected)
    && (forall x :: x in selected ==> x.ranked in ranked)
    && (mandatory.Some? && Find(ranked, mandatory).Some? ==>
      exists x :: x in selected && x.ranked.o.id == mandatory.value)
  }

  lemma SelectionIsGood(q: Request, available: int, ranked: seq<Ranked>, mandatory: Option<nat>,
                        start: seq<Selected>, picks: seq<Option<string>>)
    requires DistinctIds(Itself, ranked) && MandatoryStart(available, ranked, mandatory, start)
    requires TakenGreedily(available, start, ranked, picks)
    ensures GoodSelection(q, ranked, mandatory, SortSelection(Taken(start, ranked, picks)))
    ensures Used(SortSelection(Taken(start, ranked, picks))) == Used(Taken(start, ranked, picks))
  {
    var taken := Taken(start, ranked, picks);
    SortKeepsUsed(taken);
    TakenSorts(available, ranked, start, picks);
    SortHolds(taken);
    TakenMembers(start, ranked, picks);
    if start != [] { assert start[0] in start; }
  }

  lemma TakenSorts(available: int, ranked: seq<Ranked>, start: seq<Selected>, picks: seq<Option<string>>)
    requires DistinctIds(Itself, ranked) && TakenGreedily(available, start, ranked, picks)
    requires |start| <= 1
    ensures OrderedSelection(SortSelection(Taken(start, ranked, picks)))
  {
    GreedySkipsStart(available, start, ranked, picks);
    TakenIsDistinct(start, ranked, picks);
    SortOrders(RankOf, Taken(start, ranked, picks));
  }

  lemma SortHolds(s: seq<Selected>)
    ensures forall x :: x in SortSelection(s) <==> x in s
  {
    SortKeepsItems(RankOf, s);
    SameItems(SortSelection(s), s);
  }

  /******* The compiler *******/

  // The record of one compilation: the mandatory item, the selection it starts with, what
  // each ranked item was given, the sorted selection, and how many items materialization
  // removed from it.
  datatype Derived = Derived(mandatory: Option<nat>, start: seq<Selected>, picks: seq<Option<string>>,
                             selected: seq<Selected>, removed: nat)

  // The selection is the greedy one over the ranking.
  ghost predicate SelectedGreedily(max: nat, q: Request, ranked: seq<Ranked>, d: Derived)
  {
    && MandatoryStart(Available(max, q.question), ranked, d.mandatory, d.start)
    && TakenGreedily(Available(max, q.question), d.start, ranked, d.picks)
    && d.selected == SortSelection(Taken(d.start, ranked, d.picks))
    && Used(d.selected) <= Available(max, q.question)
  }

  // What a selection is measured by.
  function Description(q: Request): (r: seq<Selected> -> Context)
  {
    (s: seq<Selected>) => Described(q.question, q.observations, s)
  }

  // The context is the first stage that fits.
  ghost predicate FirstFit(max: nat, q: Request, d: Derived, context: Context)
  {
    && d.removed <= RemovableCount(d.selected, d.mandatory)
    && context == Description(q)(Stage(d.selected, d.mandatory, d.removed))
    && |context.text| <= max
    && NoEarlierFits(max, Description(q), d.selected, d.mandatory, d.removed)
  }

  // No stage fits, down to the last.
  ghost predicate NeverFits(max: nat, q: Request, d: Derived)
  {
    && d.removed == RemovableCount(d.selected, d.mandatory)
    && NoEarlierFits(max, Description(q), d.selected, d.mandatory, d.removed)
    && |Description(q)(Stage(d.selected, d.mandatory, d.removed)).text| > max
  }

  ghost predicate Failed(max: nat, q: Request, ranked: seq<Ranked>, d: Derived)
  {
    || Overfull(max, q.question, Find(ranked, d.mandatory))
    || (SelectedGreedily(max, q, ranked, d) && NeverFits(max, q, d))
  }

  ghost predicate IsRanking(q: Request, ranked: seq<Ranked>)
  {
    && (forall x :: x in ranked ==> Eligible(q, x.o) && x == RankedAs(q, x.o))
    && (forall o :: Eligible(q, o) ==> RankedAs(q, o) in ranked)
    && Ordered(ranked) && DistinctIds(Itself, ranked)
  }

  // Visible and omitted identifiers partition the observations, and the counts agree.
  ghost predicate Partitions(q: Request, context: Context)
  {
    && (forall id :: id in context.visible || id in context.omitted <==> exists o :: o in q.observations && o.id == id)
    && (forall id :: !(id in context.visible && id in context.omitted))
    && Total(context.counts) == |context.omitted|
  }

  lemma ContextPartitions(max: nat, q: Request, ranked: seq<Ranked>, d: Derived, context: Context)
    requires forall x :: x in ranked ==> Eligible(q, x.o)
    requires GoodSelection(q, ranked, d.mandatory, d.selected) && FirstFit(max, q, d, context)
    ensures Partitions(q, context)
  {
    StageKeepsBest(d.selected, d.mandatory, d.removed);
    DescribedPartitions(q.question, q.observations, Stage(d.selected, d.mandatory, d.removed));
  }

  // The context is the first stage of the greedy selection that fits; without one, the
  // fixed parts alone do not fit or every stage overflows.
  method Compile(max: nat, q: Request) returns (context: Option<Context>, ghost ranked: seq<Ranked>, ghost d: Derived)
    requires UniqueIds(q.observations)
    ensures context.Some? ==> |context.value.text| <= max && Partitions(q, context.value)
    ensures IsRanking(q, ranked) && d.mandatory == MandatoryId(q, ranked)
    ensures context.Some? ==> SelectedGreedily(max, q, ranked, d) && FirstFit(max, q, d, context.value)
    ensures context.Some? ==> GoodSelection(q, ranked, d.mandatory, d.selected)
    ensures context.None? ==> Failed(max, q, ranked, d)
  {
    var order := RankEligible(q);
    ranked := order;
    var mandatory := MandatoryId(q, order);
    d := Derived(mandatory, [], [], [], 0);
    var selected;
    ghost var start, picks;
    selected, start, picks := SelectLines(max, q.question, order, mandatory);
    if selected.None? {
      return None, ranked, d;
    }
    SelectionIsGood(q, Available(max, q.question), order, mandatory, start, picks);
    ghost var removed;
    context, removed := RemoveUntilFits(max, Description(q), selected.value, mandatory);
    d := Derived(mandatory, start, picks, selected.value, removed);
    if context.Some? { ContextPartitions(max, q, order, d, context.value); }
  }

  /******* What a context promises *******/

  // Root metadata is always eligible, and when there is any, one such observation is visible.
  lemma RootMetadataStaysVisible(max: nat, q: Request, ranked: seq<Ranked>, d: Derived, context: Context,
                                 o: Observation)
    requires o in q.observations && RootMetadata(q, o)
    requires IsRanking(q, ranked)
    requires d.mandatory == MandatoryId(q, ranked)
    requires GoodSelection(q, ranked, d.mandatory, d.selected) && FirstFit(max, q, d, context)
    ensures exists p :: p in q.observations && RootMetadata(q, p) && p.id in context.visible
  {
    if q.relevant.Some? {
      assert q.root in Seeds(q) && Ancestor(Parents(q.observations), q.root, q.root, 0);
    }
    assert Eligible(q, o) && RankedAs(q, o) in ranked;
    MandatoryIsRootMetadata(q, ranked);
    var m :| m in ranked && RootMetadata(q, m.o) && Some(m.o.id) == d.mandatory;
    assert Find(ranked, d.mandatory).Some?;
    var x :| x in d.selected && x.ranked.o.id == m.o.id;
    StageKeepsBest(d.selected, d.mandatory, d.removed);
    var stage := Stage(d.selected, d.mandatory, d.removed);
    assert x in stage;
    var i :| 0 <= i < |stage| && stage[i] == x;
    assert context.visible[i] == m.o.id;
  }

  // Everything removed ranks behind everything removable that stayed.
  lemma RemovedAreWorst(max: nat, q: Request, ranked: seq<Ranked>, d: Derived, context: Context)
    requires GoodSelection(q, ranked, d.mandatory, d.selected) && FirstFit(max, q, d, context)
    ensures KeepsBest(d.selected, d.mandatory, Stage(d.selected, d.mandatory, d.removed))
    ensures |Stage(d.selected, d.mandatory, d.removed)| == |d.selected| - d.removed
  {
    StageKeepsBest(d.selected, d.mandatory, d.removed);
    StageIsOrdered(d.selected, d.mandatory, d.removed);
  }

  // The reserve is what keeps removal rare: nothing is removed from a selection whose own
  // omission record stays within it.
  lemma NothingRemovedWithinReserve(max: nat, q: Request, d: Derived, context: Context)
    requires FirstFit(max, q, d, context) && Used(d.selected) <= Available(max, q.question)
    requires |OmissionRecord(Omitted(q.observations, VisibleIds(d.selected)))| <= OMISSION_RESERVE
    ensures d.removed == 0
  {
    var record := OmissionRecord(Omitted(q.observations, VisibleIds(d.selected)));
    RenderLength(q.question, LinesOf(d.selected), record);
    UsedIsJoinedLength(d.selected);
    assert |Description(q)(Stage(d.selected, d.mandatory, 0)).text| <= max;
  }
}
