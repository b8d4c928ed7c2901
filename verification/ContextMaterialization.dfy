// Materializing a selection: the omission record grows as items are removed, so removal
// goes on, worst rank first, until the whole text fits.
module ContextMaterialization {
  import opened JsonValues
  import opened ContextLines
  import opened ContextCompilation

  datatype Context = Context(text: string, visible: seq<nat>, omitted: seq<nat>,
                             assets: seq<string>, counts: seq<(Kind, nat)>)

  /******* The omission record *******/

  // Payload names in the order the record sorts them.
  const KINDS: seq<Kind> :=
    [Caption, Colors, Detection, Mark, MarkDescription, Metadata, Segmentation, Text, Transform, Warning]

  function KindName(k: Kind): (r: string)
  {
    match k
    case Caption => "caption"
    case Colors => "colors"
    case Detection => "detection"
    case Mark => "mark"
    case MarkDescription => "mark_description"
    case Metadata => "metadata"
    case Segmentation => "segmentation"
    case Text => "text"
    case Transform => "transform"
    case Warning => "warning"
  }

  function CountOf(s: seq<Observation>, k: Kind): (r: nat)
  {
    if s == [] then 0 else CountOf(s[1..], k) + (if s[0].kind == k then 1 else 0)
  }

  // The kinds that occur, with how often.
  function Counts(s: seq<Observation>, kinds: seq<Kind>): (r: seq<(Kind, nat)>)
  {
    if kinds == [] then []
    else (if CountOf(s, kinds[0]) == 0 then [] else [(kinds[0], CountOf(s, kinds[0]))]) + Counts(s, kinds[1..])
  }

  function Total(counts: seq<(Kind, nat)>): (r: nat)
  {
    if counts == [] then 0 else counts[0].1 + Total(counts[1..])
  }

  function OccurrencesIn(kinds: seq<Kind>, k: Kind): (r: nat)
  {
    if kinds == [] then 0 else OccurrencesIn(kinds[1..], k) + (if kinds[0] == k then 1 else 0)
  }

  lemma TotalOfSum(a: seq<(Kind, nat)>, b: seq<(Kind, nat)>)
    requires |a| <= 1
    ensures Total(a + b) == Total(a) + Total(b)
  {
    if a != [] { assert (a + b)[1..] == b; } else { assert a + b == b; }
  }

  lemma {:induction false} OneMoreCounted(o: Observation, s: seq<Observation>, kinds: seq<Kind>)
    ensures Total(Counts([o] + s, kinds)) == Total(Counts(s, kinds)) + OccurrencesIn(kinds, o.kind)
  {
    if kinds != [] {
      OneMoreCounted(o, s, kinds[1..]);
      var longer := [o] + s;
      assert longer[1..] == s;
      var k := kinds[0];
      TotalOfSum(if CountOf(longer, k) == 0 then [] else [(k, CountOf(longer, k))], Counts(longer, kinds[1..]));
      TotalOfSum(if CountOf(s, k) == 0 then [] else [(k, CountOf(s, k))], Counts(s, kinds[1..]));
    }
  }

  lemma {:induction false} EmptyCounts(kinds: seq<Kind>)
    ensures Counts([], kinds) == []
  {
    if kinds != [] { EmptyCounts(kinds[1..]); }
  }

  lemma OccurrencesStep(kinds: seq<Kind>, i: nat, k: Kind)
    requires i < |kinds|
    ensures OccurrencesIn(kinds[i..], k) == OccurrencesIn(kinds[i + 1..], k) + (if kinds[i] == k then 1 else 0)
  {
    assert kinds[i..][1..] == kinds[i + 1..];
  }

  lemma {:induction false} OccurrencesOfDistinct(kinds: seq<Kind>, i: nat, at: nat)
    requires i <= |kinds| && at < |kinds|
    requires forall x, y :: 0 <= x < y < |kinds| ==> kinds[x] != kinds[y]
    ensures OccurrencesIn(kinds[i..], kinds[at]) == if i <= at then 1 else 0
    decreases |kinds| - i
  {
    if i < |kinds| {
      OccurrencesStep(kinds, i, kinds[at]);
      OccurrencesOfDistinct(kinds, i + 1, at);
    }
  }

  // The position of a kind in the record's order.
  function Position(k: Kind): (r: nat)
    ensures r < |KINDS| && KINDS[r] == k
  {
    match k
    case Caption => 0
    case Colors => 1
    case Detection => 2
    case Mark => 3
    case MarkDescription => 4
    case Metadata => 5
    case Segmentation => 6
    case Text => 7
    case Transform => 8
    case Warning => 9
  }

  lemma EachKindOnce(k: Kind)
    ensures OccurrencesIn(KINDS, k) == 1
  {
    assert forall x: nat :: x < |KINDS| ==> Position(KINDS[x]) == x;
    OccurrencesOfDistinct(KINDS, 0, Position(k));
    assert KINDS[0..] == KINDS;
  }

  lemma {:induction false} CountsAddUpOver(s: seq<Observation>, kinds: seq<Kind>)
    requires forall k :: OccurrencesIn(kinds, k) == 1
    ensures Total(Counts(s, kinds)) == |s|
  {
    if s == [] {
      EmptyCounts(kinds);
    } else {
      CountsAddUpOver(s[1..], kinds);
      OneMoreCounted(s[0], s[1..], kinds);
      assert [s[0]] + s[1..] == s;
    }
  }

  // Conservation: the counts by kind add up to the number omitted.
  lemma CountsAddUp(s: seq<Observation>)
    ensures Total(Counts(s, KINDS)) == |s|
  {
    forall k ensures OccurrencesIn(KINDS, k) == 1 { EachKindOnce(k); }
    CountsAddUpOver(s, KINDS);
  }

  // The identifier, its number padded to six digits.
  function IdText(id: nat): (r: string)
  {
    var digits := Decimal(id);
    "obs_" + seq(if |digits| < 6 then 6 - |digits| else 0, _ => '0') + digits
  }

  function Quoted(s: string): (r: string)
  {
    "\"" + s + "\""
  }

  function KindCount(count: (Kind, nat)): (r: string)
  {
    Quoted(KindName(count.0)) + ":" + Decimal(count.1)
  }

  function KindCounts(omitted: seq<Observation>): (r: seq<string>)
    ensures |r| == |Counts(omitted, KINDS)|
  {
    var counts := Counts(omitted, KINDS);
    seq(|counts|, i requires 0 <= i < |counts| => KindCount(counts[i]))
  }

  function QuotedIds(omitted: seq<Observation>): (r: seq<string>)
    ensures |r| == |omitted|
  {
    seq(|omitted|, i requires 0 <= i < |omitted| => Quoted(IdText(omitted[i].id)))
  }

  const BY_TYPE := "{\"by_type\":{"
  const COUNT := "},\"count\":"
  const IDS := ",\"ids\":["
  const RECORD_END := "]}"

  function OmissionRecord(omitted: seq<Observation>): (r: string)
  {
    BY_TYPE + Join(KindCounts(omitted), ",") + (COUNT + Decimal(|omitted|) + IDS)
    + Join(QuotedIds(omitted), ",") + RECORD_END
  }

  /******* What a selection materializes to *******/

  function VisibleIds(s: seq<Selected>): (r: seq<nat>)
    ensures |r| == |s|
  {
    seq(|s|, i requires 0 <= i < |s| => s[i].ranked.o.id)
  }

  // The observations not visible, oldest first.
  function InsertById(o: Observation, s: seq<Observation>): (r: seq<Observation>)
  {
    if s == [] then [o] else if o.id <= s[0].id then [o] + s else [s[0]] + InsertById(o, s[1..])
  }

  function Omitted(observations: seq<Observation>, visible: seq<nat>): (r: seq<Observation>)
  {
    if observations == [] then []
    else if observations[0].id in visible then Omitted(observations[1..], visible)
    else InsertById(observations[0], Omitted(observations[1..], visible))
  }

  function Ids(s: seq<Observation>): (r: seq<nat>)
    ensures |r| == |s|
  {
    seq(|s|, i requires 0 <= i < |s| => s[i].id)
  }

  function FirstOccurrences(s: seq<string>): (r: seq<string>)
  {
    if s == [] then []
    else
      var front := FirstOccurrences(s[..|s| - 1]);
      if s[|s| - 1] in front then front else front + [s[|s| - 1]]
  }

  function Described(question: string, observations: seq<Observation>, s: seq<Selected>): (r: Context)
  {
    var omitted := Omitted(observations, VisibleIds(s));
    Context(Render(question, LinesOf(s), OmissionRecord(omitted)), VisibleIds(s), Ids(omitted),
            FirstOccurrences(seq(|s|, i requires 0 <= i < |s| => s[i].ranked.o.asset)), Counts(omitted, KINDS))
  }

  lemma {:induction false} InsertByIdAdds(o: Observation, s: seq<Observation>)
    ensures forall x :: x in InsertById(o, s) <==> x == o || x in s
  {
    if s != [] && o.id > s[0].id {
      InsertByIdAdds(o, s[1..]);
      assert s == [s[0]] + s[1..];
    }
  }

  lemma {:induction false} OmittedIsTheRest(observations: seq<Observation>, visible: seq<nat>)
    ensures forall o :: o in Omitted(observations, visible) <==> o in observations && o.id !in visible
  {
    if observations != [] {
      OmittedIsTheRest(observations[1..], visible);
      assert observations == [observations[0]] + observations[1..];
      InsertByIdAdds(observations[0], Omitted(observations[1..], visible));
    }
  }

  predicate Oldest(s: seq<Observation>)
  {
    forall i, j :: 0 <= i < j < |s| ==> s[i].id <= s[j].id
  }

  lemma {:induction false} InsertByIdOrders(o: Observation, s: seq<Observation>)
    requires Oldest(s)
    ensures Oldest(InsertById(o, s))
  {
    if s != [] && o.id > s[0].id {
      InsertByIdOrders(o, s[1..]);
      InsertByIdAdds(o, s[1..]);
      var r := InsertById(o, s[1..]);
      forall i | 0 <= i < |r|
        ensures s[0].id <= r[i].id
      {
        assert r[i] in r;
      }
    }
  }

  lemma {:induction false} OmittedIsOrdered(observations: seq<Observation>, visible: seq<nat>)
    ensures Oldest(Omitted(observations, visible))
  {
    if observations != [] {
      OmittedIsOrdered(observations[1..], visible);
      if observations[0].id !in visible {
        InsertByIdOrders(observations[0], Omitted(observations[1..], visible));
      }
    }
  }

  predicate UniqueIds(observations: seq<Observation>)
  {
    forall i, j :: 0 <= i < j < |observations| ==> observations[i].id != observations[j].id
  }

  // Visible and omitted identifiers partition all observations, the omitted ones in age
  // order and counted by kind.
  lemma DescribedPartitions(question: string, observations: seq<Observation>, s: seq<Selected>)
    requires forall x :: x in s ==> x.ranked.o in observations
    ensures var c := Described(question, observations, s);
      && (forall id :: id in c.visible || id in c.omitted <==> exists o :: o in observations && o.id == id)
      && (forall id :: !(id in c.visible && id in c.omitted))
      && (forall i, j :: 0 <= i < j < |c.omitted| ==> c.omitted[i] <= c.omitted[j])
      && Total(c.counts) == |c.omitted|
  {
    var c := Described(question, observations, s);
    var omitted := Omitted(observations, c.visible);
    OmittedIsTheRest(observations, c.visible);
    OmittedIsOrdered(observations, c.visible);
    CountsAddUp(omitted);
    forall o | o in observations
      ensures o.id in c.visible || o.id in c.omitted
    {
      if o.id !in c.visible {
        assert o in omitted;
        var i :| 0 <= i < |omitted| && omitted[i] == o;
        assert c.omitted[i] == o.id;
      }
    }
    forall id | id in c.omitted
      ensures id !in c.visible && exists o :: o in observations && o.id == id
    {
      var i :| 0 <= i < |omitted| && c.omitted[i] == id;
      assert omitted[i] in omitted;
    }
    forall id | id in c.visible
      ensures exists o :: o in observations && o.id == id
    {
      var i :| 0 <= i < |s| && c.visible[i] == id;
      assert s[i] in s;
    }
  }

  /******* Worst-first removal *******/

  predicate Removable(x: Selected, mandatory: Option<nat>)
  {
    mandatory != Some(x.ranked.o.id)
  }

  function RemovableCount(s: seq<Selected>, mandatory: Option<nat>): (r: nat)
    ensures r <= |s|
  {
    if s == [] then 0
    else RemovableCount(s[..|s| - 1], mandatory) + (if Removable(s[|s| - 1], mandatory) then 1 else 0)
  }

  // An ordered selection without its worst ranked removable item.
  function DropWorst(s: seq<Selected>, mandatory: Option<nat>): (r: seq<Selected>)
  {
    if s == [] then []
    else if Removable(s[|s| - 1], mandatory) then s[..|s| - 1]
    else DropWorst(s[..|s| - 1], mandatory) + [s[|s| - 1]]
  }

  function Stage(s: seq<Selected>, mandatory: Option<nat>, k: nat): (r: seq<Selected>)
  {
    if k == 0 then s else DropWorst(Stage(s, mandatory, k - 1), mandatory)
  }

  // What dropping the worst gives: `worst` alone is gone, and it was worse than all that
  // could have gone instead.
  ghost predicate Drops(s: seq<Selected>, mandatory: Option<nat>, r: seq<Selected>, worst: Selected)
  {
    && Removable(worst, mandatory) && worst in s
    && (forall x :: x in s <==> x == worst || x in r)
    && (forall x :: x in r && Removable(x, mandatory) ==> Before(x.ranked, worst.ranked))
    && |r| == |s| - 1
  }

  lemma {:induction false} DropWorstDrops(s: seq<Selected>, mandatory: Option<nat>) returns (worst: Selected)
    requires OrderedSelection(s) && 0 < RemovableCount(s, mandatory)
    ensures Drops(s, mandatory, DropWorst(s, mandatory), worst)
  {
    var n := |s| - 1;
    if Removable(s[n], mandatory) {
      worst := s[n];
    } else {
      worst := DropWorstDrops(s[..n], mandatory);
    }
  }

  lemma LastIsAfter(s: seq<Selected>)
    requires OrderedSelection(s) && s != []
    ensures forall y :: y in s[..|s| - 1] ==> Before(y.ranked, s[|s| - 1].ranked)
  {}

  lemma {:induction false} DropWorstKeepsOrder(s: seq<Selected>, mandatory: Option<nat>)
    requires OrderedSelection(s) && 0 < RemovableCount(s, mandatory)
    ensures OrderedSelection(DropWorst(s, mandatory))
  {
    var n := |s| - 1;
    if !Removable(s[n], mandatory) {
      DropWorstKeepsOrder(s[..n], mandatory);
      var worst := DropWorstDrops(s[..n], mandatory);
      LastIsAfter(s);
    }
  }

  lemma {:induction false} DropWorstCounts(s: seq<Selected>, mandatory: Option<nat>)
    requires 0 < RemovableCount(s, mandatory)
    ensures RemovableCount(DropWorst(s, mandatory), mandatory) == RemovableCount(s, mandatory) - 1
  {
    var n := |s| - 1;
    if !Removable(s[n], mandatory) {
      DropWorstCounts(s[..n], mandatory);
      var r := DropWorst(s, mandatory);
      assert r[..|r| - 1] == DropWorst(s[..n], mandatory);
    }
  }

  // What `k` removals leave: exactly the `k` worst ranked removable items are gone.
  ghost predicate KeepsBest(s: seq<Selected>, mandatory: Option<nat>, r: seq<Selected>)
  {
    && (forall x :: x in r ==> x in s)
    && (forall x :: x in s && x !in r ==> Removable(x, mandatory))
    && (forall x, y :: x in s && x !in r && y in r && Removable(y, mandatory) ==> Before(y.ranked, x.ranked))
  }

  lemma {:induction false} StageIsOrdered(s: seq<Selected>, mandatory: Option<nat>, k: nat)
    requires OrderedSelection(s) && k <= RemovableCount(s, mandatory)
    ensures OrderedSelection(Stage(s, mandatory, k)) && |Stage(s, mandatory, k)| == |s| - k
    ensures RemovableCount(Stage(s, mandatory, k), mandatory) == RemovableCount(s, mandatory) - k
  {
    if 0 < k {
      StageIsOrdered(s, mandatory, k - 1);
      DropWorstKeepsOrder(Stage(s, mandatory, k - 1), mandatory);
      DropWorstCounts(Stage(s, mandatory, k - 1), mandatory);
      var worst := DropWorstDrops(Stage(s, mandatory, k - 1), mandatory);
    }
  }

  lemma StageDrops(s: seq<Selected>, mandatory: Option<nat>, k: nat) returns (worst: Selected)
    requires OrderedSelection(s) && k < RemovableCount(s, mandatory)
    ensures Drops(Stage(s, mandatory, k), mandatory, Stage(s, mandatory, k + 1), worst)
  {
    StageIsOrdered(s, mandatory, k);
    worst := DropWorstDrops(Stage(s, mandatory, k), mandatory);
  }

  lemma NothingDroppedKeepsBest(s: seq<Selected>, mandatory: Option<nat>)
    ensures KeepsBest(s, mandatory, s)
  {}

  lemma DroppingKeepsBest(s: seq<Selected>, mandatory: Option<nat>, r: seq<Selected>, r': seq<Selected>,
                          worst: Selected)
    requires KeepsBest(s, mandatory, r) && Drops(r, mandatory, r', worst)
    ensures KeepsBest(s, mandatory, r')
  {
    assert forall x :: x in s && x !in r' ==> x !in r || x == worst;
  }

  lemma {:induction false} StageKeepsBest(s: seq<Selected>, mandatory: Option<nat>, k: nat)
    requires OrderedSelection(s) && k <= RemovableCount(s, mandatory)
    ensures KeepsBest(s, mandatory, Stage(s, mandatory, k))
  {
    if k == 0 {
      NothingDroppedKeepsBest(s, mandatory);
    } else {
      StageKeepsBest(s, mandatory, k - 1);
      var worst := StageDrops(s, mandatory, k - 1);
      DroppingKeepsBest(s, mandatory, Stage(s, mandatory, k - 1), Stage(s, mandatory, k), worst);
    }
  }

  // The index of the worst ranked removable item, or -1: the maximum of the sort key.
  method WorstRemovable(s: seq<Selected>, mandatory: Option<nat>) returns (worst: int)
    ensures -1 <= worst < |s|
    ensures worst == -1 ==> forall i :: 0 <= i < |s| ==> !Removable(s[i], mandatory)
    ensures worst != -1 ==> Removable(s[worst], mandatory) && forall i ::
      0 <= i < |s| && i != worst && Removable(s[i], mandatory) ==> !Before(s[worst].ranked, s[i].ranked)
  {
    worst := -1;
    for i := 0 to |s|
      invariant -1 <= worst < i
      invariant worst == -1 ==> forall j :: 0 <= j < i ==> !Removable(s[j], mandatory)
      invariant worst != -1 ==> Removable(s[worst], mandatory) && forall j ::
        0 <= j < i && j != worst && Removable(s[j], mandatory) ==> !Before(s[worst].ranked, s[j].ranked)
    {
      if Removable(s[i], mandatory) && (worst == -1 || Before(s[worst].ranked, s[i].ranked)) {
        if worst != -1 { BeaterBeatsAll(s, mandatory, worst, i); }
        worst := i;
      }
    }
  }

  lemma BeaterBeatsAll(s: seq<Selected>, mandatory: Option<nat>, worst: nat, i: nat)
    requires worst < i < |s| && Before(s[worst].ranked, s[i].ranked)
    requires forall j :: 0 <= j < i && j != worst && Removable(s[j], mandatory) ==>
      !Before(s[worst].ranked, s[j].ranked)
    ensures forall j :: 0 <= j < i && Removable(s[j], mandatory) ==> !Before(s[i].ranked, s[j].ranked)
  {}

  lemma {:induction false} NoneRemovable(s: seq<Selected>, mandatory: Option<nat>)
    requires forall i :: 0 <= i < |s| ==> !Removable(s[i], mandatory)
    ensures RemovableCount(s, mandatory) == 0
  {
    if s != [] { NoneRemovable(s[..|s| - 1], mandatory); }
  }

  lemma {:induction false} SomeRemovable(s: seq<Selected>, mandatory: Option<nat>, i: nat)
    requires i < |s| && Removable(s[i], mandatory)
    ensures 0 < RemovableCount(s, mandatory)
  {
    if i < |s| - 1 { SomeRemovable(s[..|s| - 1], mandatory, i); }
  }

  // In an ordered selection the worst ranked removable item is the last removable one.
  lemma {:induction false} RemovingWorstIsDropWorst(s: seq<Selected>, mandatory: Option<nat>, worst: nat)
    requires OrderedSelection(s) && worst < |s| && Removable(s[worst], mandatory)
    requires forall i :: 0 <= i < |s| && i != worst && Removable(s[i], mandatory) ==>
      !Before(s[worst].ranked, s[i].ranked)
    ensures DropWorst(s, mandatory) == s[..worst] + s[worst + 1..]
  {
    var n := |s| - 1;
    if worst < n {
      assert Before(s[worst].ranked, s[n].ranked);
      RemovingWorstIsDropWorst(s[..n], mandatory, worst);
      assert s[worst + 1..] == s[..n][worst + 1..] + [s[n]];
    }
  }

  /******* The removal loop *******/

  // No stage before `removed` fits under `describe`.
  ghost predicate NoEarlierFits(max: nat, describe: seq<Selected> -> Context, selected: seq<Selected>,
                                mandatory: Option<nat>, removed: nat)
  {
    forall k: nat :: k < removed ==> |describe(Stage(selected, mandatory, k)).text| > max
  }

  // Taking out the worst removable item leads from one stage to the next.
  lemma NextStage(selected: seq<Selected>, mandatory: Option<nat>, removed: nat, worst: nat)
    requires OrderedSelection(selected) && removed <= RemovableCount(selected, mandatory)
    requires worst < |Stage(selected, mandatory, removed)|
    requires var s := Stage(selected, mandatory, removed);
      Removable(s[worst], mandatory)
      && forall i :: 0 <= i < |s| && i != worst && Removable(s[i], mandatory) ==> !Before(s[worst].ranked, s[i].ranked)
    ensures removed < RemovableCount(selected, mandatory)
    ensures var s := Stage(selected, mandatory, removed);
      s[..worst] + s[worst + 1..] == Stage(selected, mandatory, removed + 1)
  {
    StageIsOrdered(selected, mandatory, removed);
    SomeRemovable(Stage(selected, mandatory, removed), mandatory, worst);
    RemovingWorstIsDropWorst(Stage(selected, mandatory, removed), mandatory, worst);
  }

  lemma LastStage(selected: seq<Selected>, mandatory: Option<nat>, removed: nat)
    requires OrderedSelection(selected) && removed <= RemovableCount(selected, mandatory)
    requires var s := Stage(selected, mandatory, removed); forall i :: 0 <= i < |s| ==> !Removable(s[i], mandatory)
    ensures removed == RemovableCount(selected, mandatory)
  {
    StageIsOrdered(selected, mandatory, removed);
    NoneRemovable(Stage(selected, mandatory, removed), mandatory);
  }

  // Returns the first stage that fits, or nothing when none does.
  method RemoveUntilFits(max: nat, describe: seq<Selected> -> Context, selected: seq<Selected>, mandatory: Option<nat>)
    returns (context: Option<Context>, ghost removed: nat)
    requires OrderedSelection(selected)
    ensures context.Some? ==> |context.value.text| <= max
    ensures removed <= RemovableCount(selected, mandatory)
    ensures NoEarlierFits(max, describe, selected, mandatory, removed)
    ensures context.Some? ==>
      context.value == describe(Stage(selected, mandatory, removed)) && |context.value.text| <= max
    ensures context.None? ==>
      removed == RemovableCount(selected, mandatory) && |describe(Stage(selected, mandatory, removed)).text| > max
  {
    removed := 0;
    var current := selected;
    while true
      invariant removed <= RemovableCount(selected, mandatory) && current == Stage(selected, mandatory, removed)
      invariant NoEarlierFits(max, describe, selected, mandatory, removed)
      decreases RemovableCount(selected, mandatory) - removed
    {
      var candidate := describe(current);
      if |candidate.text| <= max {
        return Some(candidate), removed;
      }
      var worst := WorstRemovable(current, mandatory);
      if worst == -1 {
        LastStage(selected, mandatory, removed);
        return None, removed;
      }
      NextStage(selected, mandatory, removed, worst);
      current := current[..worst] + current[worst + 1..];
      removed := removed + 1;
    }
  }
}
