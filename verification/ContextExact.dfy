// What a finished context shows, said of its text and of the request rather than of the
// functions that build it.
module ContextExact {
  import opened JsonValues
  import opened ContextLines
  import opened ContextCompilation
  import opened ContextMaterialization
  import opened ContextCompiler

  /******* The text *******/

  // `line` stands between two line ends of the text, at `at`.
  predicate LineAt(text: string, line: string, at: int)
  {
    && 0 < at && at + |line| < |text|
    && text[at - 1] == '\n' && text[at..at + |line|] == line && text[at + |line|] == '\n'
  }

  ghost predicate HasLine(text: string, line: string)
  {
    exists at :: LineAt(text, line, at)
  }

  // Joining puts every part between separators, or at an end.
  lemma {:induction false} JoinSplits(lines: seq<string>, i: nat) returns (before: string, after: string)
    requires i < |lines|
    ensures Join(lines, "\n") == before + lines[i] + after
    ensures before != "" ==> before[|before| - 1] == '\n'
    ensures after != "" ==> after[0] == '\n'
  {
    if |lines| == 1 {
      before, after := "", "";
    } else if i == |lines| - 1 {
      before, after := Join(lines[..i], "\n") + "\n", "";
    } else {
      before, after := JoinSplits(lines[..|lines| - 1], i);
      after := after + ("\n" + lines[|lines| - 1]);
      assert Join(lines, "\n") == Join(lines[..|lines| - 1], "\n") + "\n" + lines[|lines| - 1];
    }
  }

  function Front(question: string): (r: string)
  {
    QUESTION_HEADER + "\n" + question + "\n\n" + OBSERVATION_HEADER + "\n"
  }

  function Back(omissions: string): (r: string)
  {
    "\n\n" + OMISSION_HEADER + "\n" + omissions
  }

  lemma RenderedParts(question: string, lines: seq<string>, omissions: string)
    ensures Render(question, lines, omissions) == Front(question) + Join(lines, "\n") + Back(omissions)
  {}

  lemma QuestionLeads(question: string)
    ensures "QUESTION (trusted caller text):\n" + question + "\n\n" <= Front(question)
    ensures Front(question)[|Front(question)| - 1] == '\n'
  {
    assert Front(question) == (QUESTION_HEADER + "\n" + question + "\n\n") + (OBSERVATION_HEADER + "\n");
  }

  lemma OmissionsEnd(omissions: string)
    ensures Back(omissions)[0] == '\n'
    ensures |omissions| < |Back(omissions)| && Back(omissions)[|Back(omissions)| - |omissions|..] == omissions
  {}

  lemma LineBetween(front: string, before: string, line: string, after: string, back: string)
    requires front != "" && front[|front| - 1] == '\n' && back != "" && back[0] == '\n'
    requires before != "" ==> before[|before| - 1] == '\n'
    requires after != "" ==> after[0] == '\n'
    ensures LineAt(front + (before + line + after) + back, line, |front| + |before|)
  {
    var text, at := front + (before + line + after) + back, |front| + |before|;
    assert text == (front + before) + line + (after + back);
    assert (after + back)[0] == '\n' && (front + before)[at - 1] == '\n';
  }

  lemma EndsWith(front: string, middle: string, back: string, tail: string)
    requires |tail| < |back| && back[|back| - |tail|..] == tail
    ensures var text := front + middle + back;
      |tail| < |text| && text[|text| - |tail|..] == tail && front <= text
  {
    var text := front + middle + back;
    assert text[|text| - |tail|..] == back[|back| - |tail|..];
  }

  lemma LinesBetween(front: string, lines: seq<string>, back: string)
    requires front != "" && front[|front| - 1] == '\n' && back != "" && back[0] == '\n'
    ensures forall i :: 0 <= i < |lines| ==> HasLine(front + Join(lines, "\n") + back, lines[i])
  {
    forall i | 0 <= i < |lines|
      ensures HasLine(front + Join(lines, "\n") + back, lines[i])
    {
      var before, after := JoinSplits(lines, i);
      LineBetween(front, before, lines[i], after, back);
      assert LineAt(front + Join(lines, "\n") + back, lines[i], |front| + |before|);
    }
  }

  predicate LeadsAndEnds(text: string, question: string, omissions: string)
  {
    && "QUESTION (trusted caller text):\n" + question + "\n\n" <= text
    && |omissions| < |text| && text[|text| - |omissions|..] == omissions
  }

  lemma RenderLeadsAndEnds(question: string, lines: seq<string>, omissions: string)
    ensures LeadsAndEnds(Render(question, lines, omissions), question, omissions)
  {
    RenderedParts(question, lines, omissions);
    QuestionLeads(question);
    OmissionsEnd(omissions);
    EndsWith(Front(question), Join(lines, "\n"), Back(omissions), omissions);
  }

  // The rendered text begins with the question under its header, ends with the omission
  // record, and has every line on a line of its own.
  lemma RenderShows(question: string, lines: seq<string>, omissions: string)
    ensures LeadsAndEnds(Render(question, lines, omissions), question, omissions)
    ensures forall i :: 0 <= i < |lines| ==> HasLine(Render(question, lines, omissions), lines[i])
  {
    RenderLeadsAndEnds(question, lines, omissions);
    RenderedParts(question, lines, omissions);
    QuestionLeads(question);
    OmissionsEnd(omissions);
    LinesBetween(Front(question), lines, Back(omissions));
  }

  /******* The omission record *******/

  predicate Splits(text: string, before: string, part: string, after: string)
  {
    text == before + part + after
  }

  ghost predicate HasPart(text: string, part: string)
  {
    exists before, after :: Splits(text, before, part, after)
  }

  lemma PartBetween(before: string, part: string, after: string)
    ensures HasPart(before + part + after, part)
  {
    assert Splits(before + part + after, before, part, after);
  }

  lemma PartOfPart(text: string, whole: string, part: string)
    requires HasPart(text, whole) && HasPart(whole, part)
    ensures HasPart(text, part)
  {
    var a, d :| Splits(text, a, whole, d);
    var b, c :| Splits(whole, b, part, c);
    assert text == (a + b) + part + (c + d);
    PartBetween(a + b, part, c + d);
  }

  lemma {:induction false} JoinHas(parts: seq<string>, separator: string, i: nat)
    requires i < |parts|
    ensures HasPart(Join(parts, separator), parts[i])
  {
    if |parts| == 1 {
      assert parts[0] == "" + parts[0] + "";
      PartBetween("", parts[0], "");
    } else {
      var front := Join(parts[..|parts| - 1], separator);
      if i == |parts| - 1 {
        PartBetween(front + separator, parts[i], "");
        assert Join(parts, separator) == (front + separator) + parts[i] + "";
      } else {
        JoinHas(parts[..|parts| - 1], separator, i);
        PartBetween("", front, separator + parts[|parts| - 1]);
        assert Join(parts, separator) == "" + front + (separator + parts[|parts| - 1]);
        PartOfPart(Join(parts, separator), front, parts[i]);
      }
    }
  }

  lemma FiveParts(a: string, b: string, c: string, d: string, e: string)
    ensures var text := a + b + c + d + e;
      HasPart(text, b) && HasPart(text, c) && HasPart(text, d)
  {
    PartBetween(a, b, c + d + e);
    PartBetween(a + b, c, d + e);
    PartBetween(a + b + c, d, e);
    var text := a + b + c + d + e;
    assert text == a + b + (c + d + e) && text == (a + b) + c + (d + e);
  }

  lemma JoinedHas(text: string, parts: seq<string>, separator: string)
    requires HasPart(text, Join(parts, separator))
    ensures forall i :: 0 <= i < |parts| ==> HasPart(text, parts[i])
  {
    forall i | 0 <= i < |parts|
      ensures HasPart(text, parts[i])
    {
      JoinHas(parts, separator, i);
      PartOfPart(text, Join(parts, separator), parts[i]);
    }
  }

  // The record tells how much is omitted, names every omitted observation, and gives the
  // number of each kind that any of them is of.
  lemma OmissionRecordShows(omitted: seq<Observation>)
    ensures HasPart(OmissionRecord(omitted), COUNT + Decimal(|omitted|) + IDS)
    ensures forall i :: 0 <= i < |omitted| ==> HasPart(OmissionRecord(omitted), QuotedIds(omitted)[i])
    ensures forall i :: 0 <= i < |Counts(omitted, KINDS)| ==>
      HasPart(OmissionRecord(omitted), KindCounts(omitted)[i])
  {
    FiveParts(BY_TYPE, Join(KindCounts(omitted), ","), COUNT + Decimal(|omitted|) + IDS,
              Join(QuotedIds(omitted), ","), RECORD_END);
    JoinedHas(OmissionRecord(omitted), KindCounts(omitted), ",");
    JoinedHas(OmissionRecord(omitted), QuotedIds(omitted), ",");
  }

  // The counts given are those of the kinds that occur, each once and with its number.
  lemma {:induction false} CountsExact(s: seq<Observation>, kinds: seq<Kind>, k: Kind, n: nat)
    ensures (k, n) in Counts(s, kinds) <==> k in kinds && n == CountOf(s, k) && 0 < n
  {
    if kinds != [] { CountsExact(s, kinds[1..], k, n); }
  }

  /******* The lines *******/

  // The line is the observation's own, or the record of a line-safe prefix of its text.
  ghost predicate Shows(o: Observation, line: string)
  {
    line == Line(o) || (o.body.Textual? && exists m: nat, p :: IsLineSafe(o.body.text, m, p) && Keeps(o, p, line))
  }

  predicate Keeps(o: Observation, p: string, line: string)
    requires o.body.Textual?
  {
    p <= o.body.text && line == Record(o, p)
  }

  lemma ChoiceShows(o: Observation, room: int, line: string)
    requires GreedyChoice(o, room, Some(line))
    ensures Shows(o, line)
  {
    if |Line(o)| > room {
      var m, p := LongestFitKeepsLongestPrefix(o, room, line);
      assert Keeps(o, p, line);
    }
  }

  lemma {:induction false} TakenShows(available: int, start: seq<Selected>, ranked: seq<Ranked>,
                                      picks: seq<Option<string>>)
    requires TakenGreedily(available, start, ranked, picks)
    requires forall x :: x in start ==> Shows(x.ranked.o, x.line)
    ensures forall x :: x in Taken(start, ranked, picks) ==> Shows(x.ranked.o, x.line)
  {
    if ranked != [] {
      var n := |ranked| - 1;
      GreedyStart(available, start, ranked, picks, n);
      TakenShows(available, start, ranked[..n], picks[..n]);
      assert GreedyAt(available, start, ranked, picks, n);
      if picks[n].Some? {
        ChoiceShows(ranked[n].o, Room(available, Taken(start, ranked[..n], picks[..n]),
                                      Used(Taken(start, ranked[..n], picks[..n]))), picks[n].value);
      }
    }
  }

  lemma GreedyStart(available: int, start: seq<Selected>, ranked: seq<Ranked>, picks: seq<Option<string>>, n: nat)
    requires TakenGreedily(available, start, ranked, picks) && n <= |ranked|
    ensures TakenGreedily(available, start, ranked[..n], picks[..n])
  {
    forall i | 0 <= i < n
      ensures GreedyAt(available, start, ranked[..n], picks[..n], i)
    {
      assert ranked[..n][..i] == ranked[..i] && picks[..n][..i] == picks[..i];
      assert GreedyAt(available, start, ranked, picks, i);
    }
  }

  // The question leads the context, its omission record ends it, and every visible identifier is that of an observation
  // shown on a line of its own: whole, or cut where no line breaks in two.
  lemma VisibleIsShown(max: nat, q: Request, ranked: seq<Ranked>, d: Derived, context: Context, id: nat)
    returns (o: Observation, line: string)
    requires IsRanking(q, ranked) && SelectedGreedily(max, q, ranked, d) && FirstFit(max, q, d, context)
    requires OrderedSelection(d.selected) && id in context.visible
    ensures LeadsAndEnds(context.text, q.question, OmissionRecord(Omitted(q.observations, context.visible)))
    ensures Eligible(q, o) && o.id == id && Shows(o, line) && HasLine(context.text, line)
  {
    var stage := Stage(d.selected, d.mandatory, d.removed);
    StageIsFromTaken(max, q, ranked, d);
    var i :| 0 <= i < |stage| && context.visible[i] == id;
    assert stage[i] in stage;
    o, line := stage[i].ranked.o, stage[i].line;
    TakenShows(Available(max, q.question), d.start, ranked, d.picks);
    TakenMembers(d.start, ranked, d.picks);
    assert stage[i].ranked in ranked;
    RenderShows(q.question, LinesOf(stage), OmissionRecord(Omitted(q.observations, VisibleIds(stage))));
    assert LinesOf(stage)[i] == line;
  }

  lemma StageIsFromTaken(max: nat, q: Request, ranked: seq<Ranked>, d: Derived)
    requires SelectedGreedily(max, q, ranked, d) && d.removed <= RemovableCount(d.selected, d.mandatory)
    requires OrderedSelection(d.selected)
    ensures forall x :: x in Stage(d.selected, d.mandatory, d.removed) ==> x in Taken(d.start, ranked, d.picks)
  {
    SortHolds(Taken(d.start, ranked, d.picks));
    StageKeepsBest(d.selected, d.mandatory, d.removed);
  }

  /******* The greedy choice *******/

  // The text would fit with these lines, an omission record of 512 characters included.
  predicate FitsWith(max: nat, question: string, s: seq<Selected>)
  {
    |Render(question, LinesOf(s), "")| + 512 <= max
  }

  function With(taken: seq<Selected>, item: Ranked, line: string): (r: seq<Selected>)
  {
    taken + [Selected(item, line)]
  }

  lemma FitsWithRoom(max: nat, question: string, taken: seq<Selected>, item: Ranked, line: string)
    ensures FitsWith(max, question, With(taken, item, line))
       <==> |line| <= Room(Available(max, question), taken, Used(taken))
  {
    var longer := With(taken, item, line);
    RenderLength(question, LinesOf(longer), "");
    UsedIsJoinedLength(longer);
    assert longer[..|longer| - 1] == taken;
  }

  // An item's whole line is shown exactly when the text with everything taken before it and
  // that line would fit; otherwise the item is shown by the longest record that would fit,
  // and left out when none would.
  lemma GreedyExact(max: nat, question: string, start: seq<Selected>, ranked: seq<Ranked>, picks: seq<Option<string>>,
                    i: nat)
    requires TakenGreedily(Available(max, question), start, ranked, picks) && i < |ranked|
    requires (start == [] || ranked[i].o.id != start[0].ranked.o.id) && Line(ranked[i].o) != ""
    ensures var taken, o := Taken(start, ranked[..i], picks[..i]), ranked[i].o;
      && (FitsWith(max, question, With(taken, ranked[i], Line(o))) ==> picks[i] == Some(Line(o)))
      && (picks[i].Some? ==> FitsWith(max, question, With(taken, ranked[i], picks[i].value)))
      && (picks[i].None? && o.body.Textual? ==> forall m: nat, p ::
            m <= |o.body.text| && IsLineSafe(o.body.text, m, p) && p <= o.body.text
            ==> !FitsWith(max, question, With(taken, ranked[i], Record(o, p))))
      && (picks[i].Some? && picks[i].value != Line(o) ==>
            && o.body.Textual?
            && exists p :: Keeps(o, p, picks[i].value) && LongestShown(max, question, taken, ranked[i], p))
  {
    var taken, o := Taken(start, ranked[..i], picks[..i]), ranked[i].o;
    var room := Room(Available(max, question), taken, Used(taken));
    assert GreedyAt(Available(max, question), start, ranked, picks, i);
    FitsWithRoom(max, question, taken, ranked[i], Line(o));
    if picks[i].Some? { PickFits(max, question, taken, ranked[i], picks[i].value); }
    if picks[i].None? && o.body.Textual? { NoneFits(max, question, taken, ranked[i]); }
    if picks[i].Some? && picks[i].value != Line(o) {
      var p := CutIsLongest(max, question, taken, ranked[i], picks[i].value);
    }
  }

  // No line-safe prefix longer than `p` has a record that would fit.
  ghost predicate LongestShown(max: nat, question: string, taken: seq<Selected>, item: Ranked, p: string)
    requires item.o.body.Textual?
  {
    forall longer: nat, q ::
      (longer <= |item.o.body.text| && IsLineSafe(item.o.body.text, longer, q) && q <= item.o.body.text
       && FitsWith(max, question, With(taken, item, Record(item.o, q)))) ==> |q| <= |p|
  }

  lemma PickFits(max: nat, question: string, taken: seq<Selected>, item: Ranked, line: string)
    requires GreedyChoice(item.o, Room(Available(max, question), taken, Used(taken)), Some(line))
    ensures FitsWith(max, question, With(taken, item, line))
  {
    var room := Room(Available(max, question), taken, Used(taken));
    FitsWithRoom(max, question, taken, item, line);
    if |Line(item.o)| > room { var m, p := LongestFitKeepsLongestPrefix(item.o, room, line); }
  }

  lemma NoneFits(max: nat, question: string, taken: seq<Selected>, item: Ranked)
    requires item.o.body.Textual?
    requires GreedyChoice(item.o, Room(Available(max, question), taken, Used(taken)), None)
    ensures forall m: nat, p ::
      m <= |item.o.body.text| && IsLineSafe(item.o.body.text, m, p) && p <= item.o.body.text
      ==> !FitsWith(max, question, With(taken, item, Record(item.o, p)))
  {
    var room := Room(Available(max, question), taken, Used(taken));
    forall m: nat, p | m <= |item.o.body.text| && IsLineSafe(item.o.body.text, m, p) && p <= item.o.body.text
      ensures !FitsWith(max, question, With(taken, item, Record(item.o, p)))
    {
      FitsWithRoom(max, question, taken, item, Record(item.o, p));
      if room > 0 {
        NoFitMeansNoPrefixFits(item.o, room, m, p);
      } else {
        RecordLength(item.o, p);
      }
    }
  }

  lemma CutIsLongest(max: nat, question: string, taken: seq<Selected>, item: Ranked, line: string) returns (p: string)
    requires GreedyChoice(item.o, Room(Available(max, question), taken, Used(taken)), Some(line))
    requires line != Line(item.o)
    ensures item.o.body.Textual? && Keeps(item.o, p, line) && LongestShown(max, question, taken, item, p)
  {
    var m;
    m, p := LongestFitKeepsLongestPrefix(item.o, Room(Available(max, question), taken, Used(taken)), line);
    forall longer: nat, q | longer <= |item.o.body.text| && IsLineSafe(item.o.body.text, longer, q)
      && q <= item.o.body.text && FitsWith(max, question, With(taken, item, Record(item.o, q)))
      ensures |q| <= |p|
    {
      FitsWithRoom(max, question, taken, item, Record(item.o, q));
      assert RecordFits(item.o, q, Room(Available(max, question), taken, Used(taken)));
    }
  }

  /******* The ranking *******/

  predicate HeldBack(q: Request, o: Observation)
  {
    o.id in q.previousAction || o.id in q.pinned || o.kind.Warning?
  }

  predicate IsRootMetadata(q: Request, o: Observation)
  {
    o.kind.Metadata? && o.asset == q.root
  }

  // The observation contradicts another, or another contradicts it.
  predicate InConflict(q: Request, o: Observation)
  {
    exists p :: p in q.observations && p.contradicts != {} && (p.id == o.id || o.id in p.contradicts)
  }

  // The four groups that go before the rest, each with those before it.
  predicate WithinGroup(q: Request, o: Observation, group: nat)
  {
    || (1 <= group && HeldBack(q, o))
    || (2 <= group && IsRootMetadata(q, o))
    || (3 <= group && o.id in q.previousAnswer)
    || (4 <= group && InConflict(q, o))
  }

  lemma ConflictExact(q: Request, o: Observation)
    ensures o.id in Contradictions(q.observations) <==> InConflict(q, o)
  {
    if o.id in Contradictions(q.observations) {
      var p :| p in q.observations && o.id in ConflictOf(p);
    }
    if InConflict(q, o) {
      var p :| p in q.observations && p.contradicts != {} && (p.id == o.id || o.id in p.contradicts);
      assert o.id in ConflictOf(p);
    }
  }

  lemma GroupExact(q: Request, o: Observation, group: nat)
    requires 1 <= group <= 4
    ensures PinGroup(q, o) <= group <==> WithinGroup(q, o, group)
  {
    ConflictExact(q, o);
  }

  // Warnings, pinned observations and those of the previous action go first, then root
  // metadata, the previous answer's observations and those in conflict, then the rest; among
  // equals the more relevant, and then the older one.
  lemma RankingExact(q: Request, ranked: seq<Ranked>, i: nat, j: nat)
    requires IsRanking(q, ranked) && i < j < |ranked|
    ensures var a, b := ranked[i].o, ranked[j].o;
      && (forall group :: 1 <= group <= 4 && WithinGroup(q, b, group) ==> WithinGroup(q, a, group))
      && ((forall group :: 1 <= group <= 4 ==> (WithinGroup(q, a, group) <==> WithinGroup(q, b, group))) ==>
            q.relevance(a) > q.relevance(b) || (q.relevance(a) == q.relevance(b) && a.id < b.id))
  {
    var a, b := ranked[i].o, ranked[j].o;
    assert Before(ranked[i], ranked[j]);
    assert ranked[i] == RankedAs(q, a) && ranked[j] == RankedAs(q, b);
    forall group | 1 <= group <= 4
      ensures PinGroup(q, a) <= group <==> WithinGroup(q, a, group)
      ensures PinGroup(q, b) <= group <==> WithinGroup(q, b, group)
    {
      GroupExact(q, a, group);
      GroupExact(q, b, group);
    }
    if forall group :: 1 <= group <= 4 ==> (WithinGroup(q, a, group) <==> WithinGroup(q, b, group)) {
      SameGroup(q, a, b);
    }
  }

  lemma SameGroup(q: Request, a: Observation, b: Observation)
    requires forall group :: 1 <= group <= 4 ==> (WithinGroup(q, a, group) <==> WithinGroup(q, b, group))
    ensures PinGroup(q, a) == PinGroup(q, b)
  {
    var least := if PinGroup(q, a) < PinGroup(q, b) then PinGroup(q, a) else PinGroup(q, b);
    if least <= 4 {
      GroupExact(q, a, least);
      GroupExact(q, b, least);
    }
  }

  // What is never left out is the best ranked root metadata.
  lemma {:induction false} MandatoryIsBest(q: Request, ranked: seq<Ranked>) returns (i: int)
    ensures MandatoryId(q, ranked).Some? ==>
      && 0 <= i < |ranked| && IsRootMetadata(q, ranked[i].o) && MandatoryId(q, ranked) == Some(ranked[i].o.id)
      && forall j :: 0 <= j < i ==> !IsRootMetadata(q, ranked[j].o)
    ensures MandatoryId(q, ranked).None? ==> forall j :: 0 <= j < |ranked| ==> !IsRootMetadata(q, ranked[j].o)
  {
    i := 0;
    if ranked != [] && !RootMetadata(q, ranked[0].o) {
      i := MandatoryIsBest(q, ranked[1..]);
      i := i + 1;
    }
  }

  /******* The eligible assets *******/

  predicate Names(o: Observation, child: string)
  {
    o.derivation.Some? && o.derivation.value.child == child
  }

  // An asset's parent is the one its last transform observation names.
  lemma {:induction false} ParentsExact(observations: seq<Observation>, child: string)
    ensures child in Parents(observations) <==> exists o :: o in observations && Names(o, child)
    ensures child in Parents(observations) ==>
      exists i ::
        && IsLastNaming(observations, child, i)
        && Parents(observations)[child] == observations[i].derivation.value.parent
  {
    if observations != [] {
      var n := |observations| - 1;
      ParentsExact(observations[..n], child);
      assert observations == observations[..n] + [observations[n]];
      if Names(observations[n], child) {
        assert IsLastNaming(observations, child, n);
      } else if child in Parents(observations) {
        var i :| IsLastNaming(observations[..n], child, i)
          && Parents(observations[..n])[child] == observations[..n][i].derivation.value.parent;
        assert IsLastNaming(observations, child, i);
      }
    }
  }

  predicate IsLastNaming(observations: seq<Observation>, child: string, i: int)
  {
    && 0 <= i < |observations| && Names(observations[i], child)
    && forall j :: i < j < |observations| ==> !Names(observations[j], child)
  }

  // The assets that are kept for themselves: the root, the relevant ones and their lineage,
  // and those of observations that are pinned, in conflict, warned about or of the previous
  // action or answer.
  predicate KeptAssets(q: Request, assets: set<string>)
    requires q.relevant.Some?
  {
    && q.root in assets && q.relevant.value <= assets && q.lineage <= assets
    && forall o :: o in q.observations && KeptForItself(q, o) ==> o.asset in assets
  }

  predicate KeptForItself(q: Request, o: Observation)
  {
    HeldBack(q, o) || o.id in q.previousAnswer || InConflict(q, o) || IsWarnedAbout(q, o)
  }

  predicate IsWarnedAbout(q: Request, o: Observation)
  {
    exists w :: w in q.observations && w.kind.Warning? && (w.id == o.id || o.id in w.contradicts)
  }

  lemma KeptIdsExact(q: Request, o: Observation)
    requires o in q.observations
    ensures o.id in KeptIds(q) <==> KeptForItself(q, o)
  {
    ConflictExact(q, o);
    if o.id in Warnings(q.observations) {
      var w :| w in q.observations && w.kind.Warning? && o.id in {w.id} + w.contradicts;
      assert IsWarnedAbout(q, o);
    }
    if IsWarnedAbout(q, o) {
      var w :| w in q.observations && w.kind.Warning? && (w.id == o.id || o.id in w.contradicts);
      assert o.id in {w.id} + w.contradicts;
    }
  }

  lemma SeedsAreKept(q: Request, assets: set<string>)
    requires q.relevant.Some?
    ensures Seeds(q) <= assets <==> KeptAssets(q, assets)
  {
    forall o | o in q.observations
      ensures o.id in KeptIds(q) <==> KeptForItself(q, o)
    {
      KeptIdsExact(q, o);
    }
    if Seeds(q) <= assets {
      forall o | o in q.observations && KeptForItself(q, o)
        ensures o.asset in assets
      {
        assert o.asset in Seeds(q);
      }
    }
  }

  // Without relevant assets to go by, every observation is eligible; with them, those of the
  // least set of assets that holds the kept ones and with every asset its parent.
  lemma EligibleExact(q: Request, o: Observation)
    requires o in q.observations
    ensures Eligible(q, o) <==>
      q.relevant.None? || forall assets :: KeptAssets(q, assets) && ClosedUnderParents(assets, Parents(q.observations))
                            ==> o.asset in assets
  {
    if q.relevant.Some? {
      var seeds, parents := Seeds(q), Parents(q.observations);
      forall assets | KeptAssets(q, assets) && ClosedUnderParents(assets, parents) && Reached(seeds, parents, o.asset)
        ensures o.asset in assets
      {
        SeedsAreKept(q, assets);
        var from, steps: nat :| from in seeds && Ancestor(parents, from, o.asset, steps);
        ClosedContainsAncestors(assets, parents, from, o.asset, steps);
      }
      var least := ReachedAssets(seeds, parents);
      SeedsAreKept(q, least);
      ReachedIsClosed(seeds, parents);
    }
  }

  ghost function ReachedAssets(seeds: set<string>, parents: map<string, string>): (r: set<string>)
    ensures forall a :: a in r <==> Reached(seeds, parents, a)
  {
    ReachedIsBounded(seeds, parents);
    set a | a in seeds + parents.Values && Reached(seeds, parents, a)
  }

  lemma {:induction false} AncestorIsBounded(parents: map<string, string>, from: string, a: string, steps: nat)
    requires Ancestor(parents, from, a, steps)
    ensures a == from || a in parents.Values
    decreases steps
  {
    if 0 < steps { AncestorIsBounded(parents, parents[from], a, steps - 1); }
  }

  lemma ReachedIsBounded(seeds: set<string>, parents: map<string, string>)
    ensures forall a :: Reached(seeds, parents, a) ==> a in seeds + parents.Values
  {
    forall a | Reached(seeds, parents, a)
      ensures a in seeds + parents.Values
    {
      var from, steps: nat :| from in seeds && Ancestor(parents, from, a, steps);
      AncestorIsBounded(parents, from, a, steps);
    }
  }

  lemma ReachedIsClosed(seeds: set<string>, parents: map<string, string>)
    ensures seeds <= ReachedAssets(seeds, parents)
    ensures ClosedUnderParents(ReachedAssets(seeds, parents), parents)
  {
    forall a | a in seeds
      ensures Reached(seeds, parents, a)
    {
      assert Ancestor(parents, a, a, 0);
    }
    forall a | Reached(seeds, parents, a) && a in parents
      ensures Reached(seeds, parents, parents[a])
    {
      var from, steps: nat :| from in seeds && Ancestor(parents, from, a, steps);
      AncestorStep(parents, from, a, steps);
    }
  }
}
