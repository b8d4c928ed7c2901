// What a normalized result says of the backend's: every draft is kept, discarded as empty or
// counted as a duplicate, and a kept one is the same observation, cleaned and cut to what was
// asked for.
module NormalizationExact {
  import opened JsonValues
  import opened TextCleaning
  import opened VisionResults
  import opened Normalization

  /******* Regions *******/

  predicate In(x: real, y: real, b: Box)
  {
    b.xMin <= x <= b.xMax && b.yMin <= y <= b.yMax
  }

  const UNIT := Box(0.0, 0.0, 1.0, 1.0)

  // The cut is the intersection.
  lemma CutIsIntersection(a: Box, b: Box, x: real, y: real)
    ensures In(x, y, Cut(a, b)) <==> In(x, y, a) && In(x, y, b)
  {}

  // So is a clamped box, with the unit square.
  lemma ClampIsIntersection(b: Box, x: real, y: real)
    requires ClampedBox(b).Some?
    ensures In(x, y, ClampedBox(b).value) <==> In(x, y, b) && In(x, y, UNIT)
  {}

  predicate NearUnit(v: real)
  {
    -TOLERANCE <= v <= 1.0 + TOLERANCE
  }

  predicate HasArea(b: Box)
  {
    b.xMin < b.xMax && b.yMin < b.yMax
  }

  // A box is refused exactly when a side is too far outside or nothing of it lies inside.
  lemma ClampExact(b: Box)
    ensures ClampedBox(b).Some? <==>
      && NearUnit(b.xMin) && NearUnit(b.yMin) && NearUnit(b.xMax) && NearUnit(b.yMax)
      && HasArea(b) && b.xMin < 1.0 && 0.0 < b.xMax && b.yMin < 1.0 && 0.0 < b.yMax
  {}

  // The points asked for, when a part of the asset is.
  predicate Asked(x: real, y: real, request: Request)
  {
    request.kind.MetadataKind? || request.region.None? || In(x, y, request.region.value)
  }

  // The region of a kept draft: none if none was reported, else all points of the reported
  // one that lie in the asset and were asked for.
  ghost predicate RegionBecomes(reported: Option<Box>, request: Request, region: Option<Box>)
  {
    if reported.None? then region.None?
    else
      && region.Some? && ValidBox(region.value)
      && forall x, y :: In(x, y, region.value) <==>
           In(x, y, reported.value) && In(x, y, UNIT) && Asked(x, y, request)
  }

  // How far a region may lie outside the one asked for.
  predicate Sticks(outer: Box, inner: Box)
  {
    || inner.xMin < outer.xMin - TOLERANCE || inner.yMin < outer.yMin - TOLERANCE
    || outer.xMax + TOLERANCE < inner.xMax || outer.yMax + TOLERANCE < inner.yMax
  }

  // A draft is refused for its region exactly when the region is no box in the asset, sticks
  // out of the one asked for or misses it, or is missing where it identifies the answer.
  predicate RegionRefused(reported: Option<Box>, request: Request, p: Payload)
  {
    var asked := if request.kind.MetadataKind? then None else request.region;
    if reported.None? then asked.Some? && (p.Caption? || p.Colors?)
    else
      var b := ClampedBox(reported.value);
      b.None? || (asked.Some? && (Sticks(asked.value, b.value) || !ValidBox(Cut(asked.value, b.value))))
  }

  lemma ScopedRegionBecomes(reported: Option<Box>, request: Request, p: Payload)
    requires !RegionRefused(reported, request, p)
    ensures var clamped := if reported.None? then None else ClampedBox(reported.value);
      ScopedRegion(clamped, request, p).Some?
      && RegionBecomes(reported, request, ScopedRegion(clamped, request, p).value)
  {
    if reported.Some? {
      var b := ClampedBox(reported.value).value;
      forall x, y
        ensures In(x, y, b) <==> In(x, y, reported.value) && In(x, y, UNIT)
        ensures RequestedRegion(request).Some? ==>
          (In(x, y, Cut(RequestedRegion(request).value, b))
           <==> In(x, y, RequestedRegion(request).value) && In(x, y, b))
      {
        ClampIsIntersection(reported.value, x, y);
        if RequestedRegion(request).Some? { CutIsIntersection(RequestedRegion(request).value, b, x, y); }
      }
    }
  }

  // A region inside the one asked for stays as it is.
  lemma InsideIsKept(region: Box, request: Request, p: Payload)
    requires ValidBox(region)
    requires RequestedRegion(request).Some? ==>
      forall x, y :: In(x, y, region) ==> In(x, y, RequestedRegion(request).value)
    ensures ScopedRegion(Some(region), request, p) == Some(Some(region))
  {
    if RequestedRegion(request).Some? {
      assert In(region.xMin, region.yMin, region) && In(region.xMax, region.yMax, region);
    }
  }

  /******* Drafts *******/

  predicate Discarded(p: Payload)
  {
    (p.Caption? || p.Text?) && Cleaned(p.text) == []
  }

  predicate PayloadBecomes(p: Payload, q: Payload)
  {
    match p
    case Caption(text, focus) =>
      && q.Caption? && q.text == Cleaned(text)
      && (q.focus.Some? <==> focus.Some? && Cleaned(focus.value) != [])
      && (q.focus.Some? ==> q.focus.value == Cleaned(focus.value))
    case Text(text, language, blockKind) =>
      q.Text? && q.text == Cleaned(text) && q.language == language && q.blockKind == blockKind
    case _ => q == p
  }

  // The control characters removed from a payload's texts.
  function ControlsIn(p: Payload): (n: nat)
  {
    match p
    case Caption(text, focus) => Removed(text) + if focus.Some? then Removed(focus.value) else 0
    case Text(text, _, _) => Removed(text)
    case _ => 0
  }

  function Unless(warnings: seq<Warning>, w: Warning, applies: bool): (r: seq<Warning>)
  {
    if applies && !HasCode(warnings, w.code) then [w] else []
  }

  // The reported warnings stay; one for removed controls and one for a missing place are
  // added, each where it applies and is not there already.
  predicate WarningsBecome(d: Draft, region: Option<Box>, warnings: seq<Warning>)
  {
    warnings == d.warnings
      + Unless(d.warnings, ControlWarning(ControlsIn(d.payload)), 0 < ControlsIn(d.payload))
      + Unless(d.warnings, LocationWarning(),
               region.None? && (d.payload.Text? || d.payload.Detection? || d.payload.Segmentation?))
  }

  ghost predicate DraftBecomes(d: Draft, request: Request, r: Draft)
  {
    && PayloadBecomes(d.payload, r.payload) && RegionBecomes(d.region, request, r.region)
    && r.confidence == d.confidence && WarningsBecome(d, r.region, r.warnings)
  }

  lemma PreparedPayloadBecomes(p: Payload)
    requires !Discarded(p)
    ensures PayloadBecomes(p, PreparedPayload(p)) && ChangeOf(p) == Change(ControlsIn(p), false)
  {}

  lemma DiscardExact(p: Payload)
    ensures ChangeOf(p).discard <==> Discarded(p)
  {}

  lemma CodesDiffer()
    ensures CONTROL_CHARS_REMOVED != LOCATION_UNAVAILABLE
  {
    assert CONTROL_CHARS_REMOVED[0] != LOCATION_UNAVAILABLE[0];
  }

  lemma WithWarningAdds(warnings: seq<Warning>, w: Warning, code: string)
    requires code != w.code
    ensures HasCode(WithWarning(warnings, w), code) <==> HasCode(warnings, code)
    ensures WithWarning(warnings, w) == warnings + Unless(warnings, w, true)
  {
    if HasCode(warnings, code) {
      var v :| v in warnings && v.code == code;
      assert v in WithWarning(warnings, w);
    }
    assert warnings + [] == warnings;
  }

  lemma DraftWarningsBecome(d: Draft, region: Option<Box>)
    requires !Discarded(d.payload)
    ensures WarningsBecome(d, region, DraftWarnings(PreparedAs(d), region))
  {
    PreparedPayloadBecomes(d.payload);
    CodesDiffer();
    WithWarningAdds(d.warnings, ControlWarning(ControlsIn(d.payload)), LOCATION_UNAVAILABLE);
    assert d.warnings + [] == d.warnings;
  }

  // A draft with its payload cleaned, its region not yet looked at.
  function PreparedAs(d: Draft): (r: Prepared)
  {
    Prepared(d.(payload := PreparedPayload(d.payload)), ChangeOf(d.payload))
  }

  lemma RefusalIgnoresText(d: Draft, request: Request)
    ensures RegionRefused(d.region, request, PreparedPayload(d.payload)) == RegionRefused(d.region, request, d.payload)
  {}

  // A kept draft is refused exactly for its region, and otherwise becomes the same
  // observation.
  lemma DraftExact(d: Draft, request: Request)
    requires !Discarded(d.payload)
    ensures PreparedDraft(d).Some? && NormalizedDraft(PreparedDraft(d).value, request).Some?
       <==> !RegionRefused(d.region, request, d.payload)
    ensures !RegionRefused(d.region, request, d.payload) ==>
      DraftBecomes(d, request, NormalizedDraft(PreparedDraft(d).value, request).value)
  {
    RefusalIgnoresText(d, request);
    if !RegionRefused(d.region, request, d.payload) {
      ScopedRegionBecomes(d.region, request, PreparedPayload(d.payload));
      PreparedPayloadBecomes(d.payload);
      DraftWarningsBecome(d, NormalizedDraft(PreparedDraft(d).value, request).value.region);
    }
  }

  /******* The whole result *******/

  function DiscardedCount(drafts: seq<Draft>): (r: nat)
  {
    if drafts == [] then 0 else (if Discarded(drafts[0].payload) then 1 else 0) + DiscardedCount(drafts[1..])
  }

  lemma {:induction false} DiscardsAgree(drafts: seq<Draft>)
    requires PreparedDrafts(drafts).Some?
    ensures EmptyCount(PreparedDrafts(drafts).value) == DiscardedCount(drafts)
  {
    if drafts != [] {
      DiscardExact(drafts[0].payload);
      DiscardsAgree(drafts[1..]);
      assert PreparedDrafts(drafts).value[1..] == PreparedDrafts(drafts[1..]).value;
    }
  }

  lemma {:induction false} DraftsAreCounted(prepared: seq<Prepared>, request: Request)
    requires NormalizedDrafts(prepared, request).Some?
    ensures |NormalizedDrafts(prepared, request).value| + EmptyCount(prepared) == |prepared|
  {
    if prepared != [] { DraftsAreCounted(prepared[1..], request); }
  }

  ghost predicate ComesFrom(r: Draft, drafts: seq<Draft>, request: Request)
  {
    exists i :: 0 <= i < |drafts| && !Discarded(drafts[i].payload) && DraftBecomes(drafts[i], request, r)
  }

  ghost predicate Becomes(d: Draft, observations: seq<Draft>, request: Request)
  {
    exists k :: 0 <= k < |observations| && DraftBecomes(d, request, observations[k])
  }

  // The drafts of a reported result once each is normalized, before they are ordered.
  ghost predicate EachNormalized(reported: seq<Draft>, request: Request, drafts: seq<Draft>)
  {
    PreparedDrafts(reported).Some? && NormalizedDrafts(PreparedDrafts(reported).value, request) == Some(drafts)
  }

  lemma NormalizedOf(result: Result, request: Request, limits: Limits) returns (drafts: seq<Draft>)
    requires Normalized(result, request, limits).Some?
    ensures EachNormalized(result.observations, request, drafts)
    ensures Normalized(result, request, limits).value
         == Finished(drafts, result.warnings, EmptyCount(PreparedDrafts(result.observations).value))
  {
    drafts := NormalizedDrafts(PreparedDrafts(result.observations).value, request).value;
  }

  lemma KeptComesFrom(reported: seq<Draft>, request: Request, drafts: seq<Draft>, k: nat)
    requires EachNormalized(reported, request, drafts) && k < |Unique(Sorted(drafts))|
    ensures ComesFrom(Unique(Sorted(drafts))[k], reported, request)
  {
    var prepared := PreparedDrafts(reported).value;
    var j := KeptDraftsAreDrafts(drafts, k);
    var i := KeptFrom(prepared, request, j);
    PreparedAt(reported, i);
    DiscardExact(reported[i].payload);
    DraftExact(reported[i], request);
  }

  lemma ReportedBecomes(reported: seq<Draft>, request: Request, drafts: seq<Draft>, i: nat)
    requires EachNormalized(reported, request, drafts) && i < |reported| && !Discarded(reported[i].payload)
    ensures Becomes(reported[i], Unique(Sorted(drafts)), request)
  {
    var prepared := PreparedDrafts(reported).value;
    PreparedAt(reported, i);
    DiscardExact(reported[i].payload);
    var j := KeptTo(prepared, request, i);
    DraftExact(reported[i], request);
    var k := KeptAt(drafts, j);
  }

  lemma KeptAt(drafts: seq<Draft>, j: nat) returns (k: nat)
    requires j < |drafts|
    ensures k < |Unique(Sorted(drafts))| && Unique(Sorted(drafts))[k] == drafts[j]
  {
    SortedKeepsItems(drafts);
    assert drafts[j] in Unique(Sorted(drafts));
    k :| k < |Unique(Sorted(drafts))| && Unique(Sorted(drafts))[k] == drafts[j];
  }

  lemma SortedIsAsLong(drafts: seq<Draft>)
    ensures |Sorted(drafts)| == |drafts|
  {
    SortedKeepsItems(drafts);
    assert |Sorted(drafts)| == |multiset(Sorted(drafts))| == |multiset(drafts)|;
  }

  function CountWarning(count: nat, w: Warning): (r: seq<Warning>)
  {
    if 0 < count then [w] else []
  }

  // What was kept, what was discarded as empty and what was a duplicate make up all that was
  // reported, and the warnings carry the last two counts.
  lemma NormalizationConserves(result: Result, request: Request, limits: Limits)
    returns (discarded: nat, duplicates: nat)
    requires Normalized(result, request, limits).Some?
    ensures var out := Normalized(result, request, limits).value;
      && |result.observations| == |out.observations| + discarded + duplicates
      && discarded == DiscardedCount(result.observations)
      && out.warnings == result.warnings + CountWarning(discarded, EmptyTextWarning(discarded))
                                         + CountWarning(duplicates, DuplicatesWarning(duplicates))
  {
    var drafts := NormalizedOf(result, request, limits);
    discarded := DiscardedCount(result.observations);
    duplicates := DuplicatesAreCounted(result.observations, request, drafts);
    WarningsAreCounted(result.warnings, discarded, duplicates);
  }

  lemma DuplicatesAreCounted(reported: seq<Draft>, request: Request, drafts: seq<Draft>) returns (duplicates: nat)
    requires EachNormalized(reported, request, drafts)
    ensures duplicates == |Sorted(drafts)| - |Unique(Sorted(drafts))|
    ensures |reported| == |Unique(Sorted(drafts))| + DiscardedCount(reported) + duplicates
    ensures EmptyCount(PreparedDrafts(reported).value) == DiscardedCount(reported)
  {
    DiscardsAgree(reported);
    DraftsAreCounted(PreparedDrafts(reported).value, request);
    SortedIsAsLong(drafts);
    UniqueIsNoLonger(Sorted(drafts));
    duplicates := |Sorted(drafts)| - |Unique(Sorted(drafts))|;
  }

  lemma WarningsAreCounted(warnings: seq<Warning>, discarded: nat, duplicates: nat)
    ensures NormalizedWarnings(warnings, discarded, duplicates)
         == warnings + CountWarning(discarded, EmptyTextWarning(discarded))
                     + CountWarning(duplicates, DuplicatesWarning(duplicates))
  {}

  // The observations are exactly the reported ones that are not discarded, each cleaned and
  // cut to what was asked for.
  lemma NormalizedExact(result: Result, request: Request, limits: Limits)
    requires Normalized(result, request, limits).Some?
    ensures var out := Normalized(result, request, limits).value;
      && (forall k :: 0 <= k < |out.observations| ==>
            ComesFrom(out.observations[k], result.observations, request))
      && (forall i :: 0 <= i < |result.observations| && !Discarded(result.observations[i].payload) ==>
            Becomes(result.observations[i], out.observations, request))
  {
    var drafts := NormalizedOf(result, request, limits);
    forall k | 0 <= k < |Unique(Sorted(drafts))| { KeptComesFrom(result.observations, request, drafts, k); }
    forall i | 0 <= i < |result.observations| && !Discarded(result.observations[i].payload) {
      ReportedBecomes(result.observations, request, drafts, i);
    }
  }

  // Normalization refuses a result exactly when a draft is of another kind, the limits do
  // not allow it, or a region is refused; the region of a discarded draft need only be a box.
  lemma RefusedExact(result: Result, request: Request, limits: Limits)
    requires PreparedDrafts(result.observations).Some?
    requires AllCompatible(request, PreparedDrafts(result.observations).value)
    requires WithinLimits(PreparedDrafts(result.observations).value, result.warnings, request, limits)
    ensures Normalized(result, request, limits).Some? <==>
      forall i :: 0 <= i < |result.observations| && !Discarded(result.observations[i].payload) ==>
        !RegionRefused(result.observations[i].region, request, result.observations[i].payload)
  {
    var prepared := PreparedDrafts(result.observations).value;
    forall i | 0 <= i < |result.observations|
      ensures prepared[i].change.discard <==> Discarded(result.observations[i].payload)
      ensures !Discarded(result.observations[i].payload) ==>
        (NormalizedDraft(prepared[i], request).Some? <==>
         !RegionRefused(result.observations[i].region, request, result.observations[i].payload))
    {
      PreparedAt(result.observations, i);
      DiscardExact(result.observations[i].payload);
      if !Discarded(result.observations[i].payload) { DraftExact(result.observations[i], request); }
    }
    AllNormalize(prepared, request);
  }

  lemma {:induction false} AllNormalize(prepared: seq<Prepared>, request: Request)
    ensures NormalizedDrafts(prepared, request).Some? <==>
      forall i :: 0 <= i < |prepared| && !prepared[i].change.discard ==> NormalizedDraft(prepared[i], request).Some?
  {
    if prepared != [] {
      AllNormalize(prepared[1..], request);
      assert forall i :: 1 <= i < |prepared| ==> prepared[i] == prepared[1..][i - 1];
    }
  }

  /******* What a caller gets *******/

  // The payload is of the kind that was asked for, with no more in it than was asked for.
  predicate Answers(p: Payload, request: Request, limits: Limits)
  {
    match request.kind
    case MetadataKind => p.Metadata?
    case ColorsKind => p.Colors? && |p.swatches| <= request.colorCount
    case CaptionKind =>
      if request.marks == {} then p.Caption?
      else p.MarkDescription? && forall m :: m in p.references ==> m.index in request.marks
    case OcrKind => p.Text? && |p.text| <= limits.maxOcrChars
    case DetectionKind => p.Detection?
    case SegmentationKind => p.Segmentation?
  }

  lemma KeptPayloadAnswers(result: Result, request: Request, limits: Limits, drafts: seq<Draft>, k: nat)
    requires EachNormalized(result.observations, request, drafts) && k < |Unique(Sorted(drafts))|
    requires AllCompatible(request, PreparedDrafts(result.observations).value)
    requires CountsFit(PreparedDrafts(result.observations).value, request, limits)
    ensures Answers(Unique(Sorted(drafts))[k].payload, request, limits)
  {
    var prepared := PreparedDrafts(result.observations).value;
    var j := KeptDraftsAreDrafts(drafts, k);
    var i := KeptFrom(prepared, request, j);
    assert Compatible(request, prepared[i].draft.payload) && ContentAllowed(prepared[i].draft.payload, request);
    assert TextAllowed(prepared[i], limits);
  }

  // Every observation answers the request, and there are no more of them than it allows: a
  // single one unless texts, detections or segments were asked for.
  lemma OutputAnswersRequest(result: Result, request: Request, limits: Limits)
    requires Normalized(result, request, limits).Some?
    ensures var out := Normalized(result, request, limits).value.observations;
      && (forall k :: 0 <= k < |out| ==> Answers(out[k].payload, request, limits))
      && |out| <= limits.maxObservations
      && (request.kind.DetectionKind? || request.kind.SegmentationKind? ==> |out| <= request.maxResults)
      && (request.kind.MetadataKind? || request.kind.ColorsKind? || request.kind.CaptionKind? ==> |out| <= 1)
  {
    var drafts := NormalizedOf(result, request, limits);
    KeptCountsFit(result, request, limits);
    forall k | 0 <= k < |Unique(Sorted(drafts))| { KeptPayloadAnswers(result, request, limits, drafts, k); }
  }

  // What goes first when it has no region; anything else then goes last.
  predicate LeadsWithout(d: Draft)
  {
    d.payload.Caption? || d.payload.Colors? || d.payload.Metadata?
  }

  // From the top down, then from left to right, the smaller before the larger.
  predicate ReadsBefore(a: Box, b: Box)
  {
    || a.yMin < b.yMin
    || (a.yMin == b.yMin && a.xMin < b.xMin)
    || (a.yMin == b.yMin && a.xMin == b.xMin && a.yMax < b.yMax)
    || (a.yMin == b.yMin && a.xMin == b.xMin && a.yMax == b.yMax && a.xMax <= b.xMax)
  }

  // Whether `a` may stand before `b`: by their regions, or by which of them has none.
  predicate MayPrecede(a: Draft, b: Draft)
  {
    if a.region.Some? && b.region.Some? then ReadsBefore(a.region.value, b.region.value)
    else if LeadsWithout(a) then a.region.None? else b.region.None?
  }

  lemma OrderIsReading(a: Draft, b: Draft)
    requires LeadsWithout(a) == LeadsWithout(b) && !Below(KeyOf(b), KeyOf(a))
    ensures MayPrecede(a, b)
  {}

  // All observations answer one request, so they lead without a region or none does.
  lemma OutputIsOrdered(result: Result, request: Request, limits: Limits, i: nat, j: nat)
    requires Normalized(result, request, limits).Some?
    requires i < j < |Normalized(result, request, limits).value.observations|
    ensures var out := Normalized(result, request, limits).value.observations;
      LeadsWithout(out[i]) == LeadsWithout(out[j]) && MayPrecede(out[i], out[j])
  {
    var drafts := NormalizedOf(result, request, limits);
    var out := Normalized(result, request, limits).value.observations;
    OutputAnswersRequest(result, request, limits);
    assert Answers(out[i].payload, request, limits) && Answers(out[j].payload, request, limits);
    SortedIsInOrder(drafts);
    UniqueIsDistinct(Sorted(drafts));
    OrderIsReading(out[i], out[j]);
  }
}
