// Normalization of one backend result: texts cleaned, regions clamped and cut to the
// request, drafts ordered and deduplicated. Doing it again changes nothing.
module Normalization {
  import opened JsonValues
  import opened TextCleaning
  import opened VisionResults

  const TOLERANCE := 0.000001

  datatype Kind = MetadataKind | ColorsKind | CaptionKind | OcrKind | DetectionKind | SegmentationKind

  // `marks` are the mark indices a caption is asked for, `colorCount` the colors asked for.
  datatype Request = Request(kind: Kind, region: Option<Box>, marks: set<nat>, colorCount: nat, maxResults: nat)

  datatype Limits = Limits(maxOcrChars: nat, maxTextChars: nat, maxItems: nat, maxObservations: nat)

  // The limits that can be configured.
  predicate ValidLimits(limits: Limits)
  {
    0 < limits.maxOcrChars && 0 < limits.maxTextChars && 0 < limits.maxItems && 0 < limits.maxObservations
  }

  const CONTROL_CHARS_REMOVED := "control_chars_removed"
  const LOCATION_UNAVAILABLE := "location_unavailable"
  const EMPTY_TEXT_DISCARDED := "empty_text_discarded"
  const DUPLICATES_REMOVED := "duplicate_observations_removed"

  function CountDetails(count: int): (r: seq<Field>)
  {
    [Field("count", Num(count as real))]
  }

  function ControlWarning(count: nat): (w: Warning)
    ensures w.code == CONTROL_CHARS_REMOVED
  {
    Warning(CONTROL_CHARS_REMOVED, "Disallowed control characters were removed from backend text.", CountDetails(count))
  }

  function LocationWarning(): (w: Warning)
    ensures w.code == LOCATION_UNAVAILABLE
  {
    Warning(LOCATION_UNAVAILABLE, "The backend did not provide a location for this observation.", [])
  }

  function EmptyTextWarning(count: nat): (w: Warning)
  {
    Warning(EMPTY_TEXT_DISCARDED, "Empty backend text observations were discarded.", CountDetails(count))
  }

  function DuplicatesWarning(count: int): (w: Warning)
  {
    Warning(DUPLICATES_REMOVED, "Exact duplicate backend observations were removed.", CountDetails(count))
  }

  // What cleaning did to a draft.
  datatype Change = Change(removedControls: nat, discard: bool)

  datatype Prepared = Prepared(draft: Draft, change: Change)

  const DISCARDED := "discarded"

  const UNCHANGED := Change(0, false)

  /******* Preparing *******/

  predicate ValidBox(b: Box)
  {
    0.0 <= b.xMin < b.xMax <= 1.0 && 0.0 <= b.yMin < b.yMax <= 1.0
  }

  function Max(a: real, b: real): (r: real)
  {
    if a < b then b else a
  }

  function Min(a: real, b: real): (r: real)
  {
    if b < a then b else a
  }

  // A coordinate within tolerance of the unit interval is moved into it.
  function ClampedCoordinate(v: real): (r: Option<real>)
  {
    if v < -TOLERANCE || 1.0 + TOLERANCE < v then None else Some(Min(1.0, Max(0.0, v)))
  }

  function ClampedBox(b: Box): (r: Option<Box>)
    ensures r.Some? ==> ValidBox(r.value)
    ensures ValidBox(b) ==> r == Some(b)
  {
    var x, y, z, w :=
      ClampedCoordinate(b.xMin), ClampedCoordinate(b.yMin), ClampedCoordinate(b.xMax), ClampedCoordinate(b.yMax);
    if x.None? || y.None? || z.None? || w.None? then None
    else
      var box := Box(x.value, y.value, z.value, w.value);
      if ValidBox(box) then Some(box) else None
  }

  function PreparedText(text: string): (r: string)
  {
    if Cleaned(text) == [] then DISCARDED else Cleaned(text)
  }

  function PreparedFocus(focus: Option<string>): (r: Option<string>)
  {
    if focus.None? || Cleaned(focus.value) == [] then None else Some(Cleaned(focus.value))
  }

  function PreparedPayload(p: Payload): (r: Payload)
  {
    match p
    case Caption(text, focus) => Caption(PreparedText(text), PreparedFocus(focus))
    case Text(text, language, blockKind) => Text(PreparedText(text), language, blockKind)
    case _ => p
  }

  function ChangeOf(p: Payload): (r: Change)
  {
    match p
    case Caption(text, focus) =>
      Change(Removed(text) + if focus.Some? then Removed(focus.value) else 0, Cleaned(text) == [])
    case Text(text, _, _) => Change(Removed(text), Cleaned(text) == [])
    case _ => UNCHANGED
  }

  // None when a region is no box.
  function PreparedDraft(d: Draft): (r: Option<Prepared>)
  {
    var change := ChangeOf(d.payload);
    if d.region.None? then Some(Prepared(d.(payload := PreparedPayload(d.payload)), change))
    else
      var box := ClampedBox(d.region.value);
      if box.None? then None
      else Some(Prepared(d.(payload := PreparedPayload(d.payload), region := box), change))
  }

  function PreparedDrafts(drafts: seq<Draft>): (r: Option<seq<Prepared>>)
    ensures r.Some? ==> |r.value| == |drafts|
  {
    if drafts == [] then Some([])
    else
      var first, rest := PreparedDraft(drafts[0]), PreparedDrafts(drafts[1..]);
      if first.None? || rest.None? then None else Some([first.value] + rest.value)
  }

  /******* Checking *******/

  predicate Compatible(request: Request, p: Payload)
  {
    match request.kind
    case MetadataKind => p.Metadata?
    case ColorsKind => p.Colors?
    case CaptionKind => if request.marks != {} then p.MarkDescription? else p.Caption?
    case OcrKind => p.Text?
    case DetectionKind => p.Detection?
    case SegmentationKind => p.Segmentation?
  }

  function ResultLimit(request: Request, limits: Limits): (r: nat)
  {
    match request.kind
    case OcrKind => limits.maxObservations
    case DetectionKind => request.maxResults
    case SegmentationKind => request.maxResults
    case _ => 1
  }

  predicate TextAllowed(p: Prepared, limits: Limits)
  {
    p.draft.payload.Text? && !p.change.discard ==> |p.draft.payload.text| <= limits.maxOcrChars
  }

  // No more colors and no other marks than were asked for.
  predicate ContentAllowed(p: Payload, request: Request)
  {
    match p
    case Colors(swatches) => request.kind.ColorsKind? ==> |swatches| <= request.colorCount
    case MarkDescription(references) =>
      request.kind.CaptionKind? && request.marks != {} ==>
        forall i :: 0 <= i < |references| ==> references[i].index in request.marks
    case _ => true
  }

  predicate SizesFit(result: Result, limits: Limits)
  {
    StringSize(ResultDump(result)) <= limits.maxTextChars && NestedItems(ResultDump(result)) <= limits.maxItems
  }

  predicate CountsFit(prepared: seq<Prepared>, request: Request, limits: Limits)
  {
    && |prepared| <= limits.maxObservations && |prepared| <= ResultLimit(request, limits)
    && (forall i :: 0 <= i < |prepared| ==> ContentAllowed(prepared[i].draft.payload, request))
    && (forall i :: 0 <= i < |prepared| ==> TextAllowed(prepared[i], limits))
  }

  predicate WithinLimits(prepared: seq<Prepared>, warnings: seq<Warning>, request: Request, limits: Limits)
  {
    CountsFit(prepared, request, limits) && SizesFit(Result(Drafts(prepared), warnings), limits)
  }

  function Drafts(prepared: seq<Prepared>): (r: seq<Draft>)
  {
    if prepared == [] then [] else [prepared[0].draft] + Drafts(prepared[1..])
  }

  predicate AllCompatible(request: Request, prepared: seq<Prepared>)
  {
    forall i :: 0 <= i < |prepared| ==> Compatible(request, prepared[i].draft.payload)
  }

  /******* Normalizing a draft *******/

  predicate HasCode(warnings: seq<Warning>, code: string)
  {
    exists w :: w in warnings && w.code == code
  }

  function WithWarning(warnings: seq<Warning>, w: Warning): (r: seq<Warning>)
    ensures HasCode(r, w.code)
  {
    if HasCode(warnings, w.code) then warnings
    else
      assert (warnings + [w])[|warnings|] == w;
      warnings + [w]
  }

  function RequestedRegion(request: Request): (r: Option<Box>)
  {
    if request.kind.MetadataKind? then None else request.region
  }

  predicate Contains(outer: Box, inner: Box)
  {
    && outer.xMin - TOLERANCE <= inner.xMin && outer.yMin - TOLERANCE <= inner.yMin
    && inner.xMax <= outer.xMax + TOLERANCE && inner.yMax <= outer.yMax + TOLERANCE
  }

  function Cut(requested: Box, region: Box): (r: Box)
  {
    Box(Max(requested.xMin, region.xMin), Max(requested.yMin, region.yMin),
        Min(requested.xMax, region.xMax), Min(requested.yMax, region.yMax))
  }

  // None when the region does not answer the request.
  function ScopedRegion(region: Option<Box>, request: Request, p: Payload): (r: Option<Option<Box>>)
  {
    var requested := RequestedRegion(request);
    if requested.None? then Some(region)
    else if region.None? then (if p.Caption? || p.Colors? then None else Some(None))
    else if !Contains(requested.value, region.value) then None
    else
      var cut := Cut(requested.value, region.value);
      if ValidBox(cut) then Some(Some(cut)) else None
  }

  predicate WantsLocation(p: Payload)
  {
    p.Text? || p.Detection? || p.Segmentation?
  }

  function DraftWarnings(p: Prepared, region: Option<Box>): (r: seq<Warning>)
  {
    var counted := if 0 < p.change.removedControls
                   then WithWarning(p.draft.warnings, ControlWarning(p.change.removedControls))
                   else p.draft.warnings;
    if WantsLocation(p.draft.payload) && region.None? then WithWarning(counted, LocationWarning()) else counted
  }

  function NormalizedDraft(p: Prepared, request: Request): (r: Option<Draft>)
  {
    var region := ScopedRegion(p.draft.region, request, p.draft.payload);
    if region.None? then None
    else Some(Draft(p.draft.payload, region.value, p.draft.confidence, DraftWarnings(p, region.value)))
  }

  function NormalizedDrafts(prepared: seq<Prepared>, request: Request): (r: Option<seq<Draft>>)
  {
    if prepared == [] then Some([])
    else
      var rest := NormalizedDrafts(prepared[1..], request);
      if prepared[0].change.discard then rest
      else
        var first := NormalizedDraft(prepared[0], request);
        if first.None? || rest.None? then None else Some([first.value] + rest.value)
  }

  function EmptyCount(prepared: seq<Prepared>): (r: nat)
  {
    if prepared == [] then 0 else (if prepared[0].change.discard then 1 else 0) + EmptyCount(prepared[1..])
  }

  /******* Ordering *******/

  datatype SortKey = SortKey(group: int, a: real, b: real, c: real, d: real)

  function RegionKey(region: Option<Box>, noneFirst: bool): (r: SortKey)
  {
    match region
    case None => SortKey(if noneFirst then 0 else 1, 0.0, 0.0, 0.0, 0.0)
    case Some(b) => SortKey(if noneFirst then 1 else 0, b.yMin, b.xMin, b.yMax, b.xMax)
  }

  function KeyOf(d: Draft): (r: SortKey)
  {
    RegionKey(d.region, d.payload.Caption? || d.payload.Colors? || d.payload.Metadata?)
  }

  predicate Below(k: SortKey, l: SortKey)
  {
    k.group < l.group
    || (k.group == l.group && (k.a < l.a
    || (k.a == l.a && (k.b < l.b
    || (k.b == l.b && (k.c < l.c
    || (k.c == l.c && k.d < l.d)))))))
  }

  // A stable sort: an item goes before the first that is not below it.
  function Insert(d: Draft, s: seq<Draft>): (r: seq<Draft>)
  {
    if s == [] || !Below(KeyOf(s[0]), KeyOf(d)) then [d] + s else [s[0]] + Insert(d, s[1..])
  }

  function Sorted(s: seq<Draft>): (r: seq<Draft>)
  {
    if s == [] then [] else Insert(s[0], Sorted(s[1..]))
  }

  predicate InOrder(s: seq<Draft>)
  {
    forall i, j :: 0 <= i < j < |s| ==> !Below(KeyOf(s[j]), KeyOf(s[i]))
  }

  function WithKey(s: seq<Draft>, k: SortKey): (r: seq<Draft>)
  {
    if s == [] then [] else (if KeyOf(s[0]) == k then [s[0]] else []) + WithKey(s[1..], k)
  }

  lemma {:induction false} InsertKeepsItems(d: Draft, s: seq<Draft>)
    ensures multiset(Insert(d, s)) == multiset(s) + multiset{d}
    ensures forall x :: x in Insert(d, s) <==> x == d || x in s
  {
    if s != [] {
      assert s == [s[0]] + s[1..];
      if Below(KeyOf(s[0]), KeyOf(d)) { InsertKeepsItems(d, s[1..]); }
    }
  }

  lemma {:induction false} InsertKeepsOrder(d: Draft, s: seq<Draft>)
    requires InOrder(s)
    ensures InOrder(Insert(d, s))
  {
    if s == [] {
    } else if !Below(KeyOf(s[0]), KeyOf(d)) {
      assert forall j :: 0 <= j < |s| ==> !Below(KeyOf(s[j]), KeyOf(d));
    } else {
      InsertKeepsOrder(d, s[1..]);
      InsertKeepsItems(d, s[1..]);
      var r := Insert(d, s[1..]);
      forall j | 0 <= j < |r|
        ensures !Below(KeyOf(r[j]), KeyOf(s[0]))
      {
        assert r[j] == d || r[j] in s[1..];
      }
    }
  }

  lemma {:induction false} InsertIsStable(d: Draft, s: seq<Draft>, k: SortKey)
    ensures WithKey(Insert(d, s), k) == WithKey([d], k) + WithKey(s, k)
  {
    if s != [] && Below(KeyOf(s[0]), KeyOf(d)) {
      InsertIsStable(d, s[1..], k);
      assert Insert(d, s)[1..] == Insert(d, s[1..]);
    } else {
      assert ([d] + s)[1..] == s;
    }
  }

  lemma {:induction false} SortedKeepsItems(s: seq<Draft>)
    ensures multiset(Sorted(s)) == multiset(s)
    ensures forall x :: x in Sorted(s) <==> x in s
  {
    if s != [] {
      SortedKeepsItems(s[1..]);
      InsertKeepsItems(s[0], Sorted(s[1..]));
      assert s == [s[0]] + s[1..];
    }
  }

  lemma {:induction false} SortedIsInOrder(s: seq<Draft>)
    ensures InOrder(Sorted(s))
  {
    if s != [] {
      SortedIsInOrder(s[1..]);
      InsertKeepsOrder(s[0], Sorted(s[1..]));
    }
  }

  lemma {:induction false} SortedKeepsTies(s: seq<Draft>, k: SortKey)
    ensures WithKey(Sorted(s), k) == WithKey(s, k)
  {
    if s != [] {
      SortedKeepsTies(s[1..], k);
      InsertIsStable(s[0], Sorted(s[1..]), k);
      assert WithKey([s[0]], k) == (if KeyOf(s[0]) == k then [s[0]] else []) + WithKey([], k);
    }
  }

  // The sort orders the same drafts and keeps those with equal keys as they were.
  lemma SortIsStable(s: seq<Draft>)
    ensures InOrder(Sorted(s)) && multiset(Sorted(s)) == multiset(s)
    ensures forall k :: WithKey(Sorted(s), k) == WithKey(s, k)
  {
    SortedIsInOrder(s);
    SortedKeepsItems(s);
    forall k
      ensures WithKey(Sorted(s), k) == WithKey(s, k)
    {
      SortedKeepsTies(s, k);
    }
  }

  lemma {:induction false} OrderedIsSorted(s: seq<Draft>)
    requires InOrder(s)
    ensures Sorted(s) == s
  {
    if s != [] { OrderedIsSorted(s[1..]); }
  }

  /******* Deduplication *******/

  // The first of every group of equal drafts.
  function Unique(s: seq<Draft>): (r: seq<Draft>)
    ensures forall d :: d in r <==> d in s
  {
    if s == [] then []
    else
      var front, last := s[..|s| - 1], s[|s| - 1];
      if last in front then Unique(front) else Unique(front) + [last]
  }

  predicate Distinct(s: seq<Draft>)
  {
    forall i, j :: 0 <= i < j < |s| ==> s[i] != s[j]
  }

  lemma {:induction false} UniqueIsDistinct(s: seq<Draft>)
    ensures Distinct(Unique(s)) && (InOrder(s) ==> InOrder(Unique(s)))
  {
    if s != [] {
      var front := s[..|s| - 1];
      UniqueIsDistinct(front);
      assert forall i :: 0 <= i < |Unique(front)| ==> Unique(front)[i] in front;
      if InOrder(s) {
        forall i | 0 <= i < |Unique(front)|
          ensures !Below(KeyOf(s[|s| - 1]), KeyOf(Unique(front)[i]))
        {
          var j :| 0 <= j < |front| && front[j] == Unique(front)[i];
        }
      }
    }
  }

  lemma {:induction false} DistinctIsUnique(s: seq<Draft>)
    requires Distinct(s)
    ensures Unique(s) == s
  {
    if s != [] { DistinctIsUnique(s[..|s| - 1]); }
  }

  method Deduplicate(drafts: seq<Draft>) returns (unique: seq<Draft>, duplicates: nat)
    ensures unique == Unique(drafts) && |drafts| == |unique| + duplicates
  {
    unique, duplicates := [], 0;
    for i := 0 to |drafts|
      invariant unique == Unique(drafts[..i]) && i == |unique| + duplicates
    {
      assert drafts[..i + 1][..i] == drafts[..i];
      if drafts[i] in unique {
        duplicates := duplicates + 1;
      } else {
        unique := unique + [drafts[i]];
      }
    }
    assert drafts[..|drafts|] == drafts;
  }

  /******* The whole result *******/

  function NormalizedWarnings(warnings: seq<Warning>, emptyCount: nat, duplicates: int): (r: seq<Warning>)
  {
    var emptied := if 0 < emptyCount then warnings + [EmptyTextWarning(emptyCount)] else warnings;
    if 0 < duplicates then emptied + [DuplicatesWarning(duplicates)] else emptied
  }

  function Normalized(result: Result, request: Request, limits: Limits): (r: Option<Result>)
  {
    var prepared := PreparedDrafts(result.observations);
    if prepared.None? || !AllCompatible(request, prepared.value)
       || !WithinLimits(prepared.value, result.warnings, request, limits) then None
    else
      var drafts := NormalizedDrafts(prepared.value, request);
      if drafts.None? then None else Some(Finished(drafts.value, result.warnings, EmptyCount(prepared.value)))
  }

  // Ordered and without duplicates, which the warnings count.
  function Finished(drafts: seq<Draft>, warnings: seq<Warning>, emptyCount: nat): (r: Result)
  {
    var ordered := Sorted(drafts);
    Result(Unique(ordered), NormalizedWarnings(warnings, emptyCount, |ordered| - |Unique(ordered)|))
  }

  /******* Normal forms *******/

  predicate CleanPayload(p: Payload)
  {
    match p
    case Caption(text, focus) => IsClean(text) && text != []
      && (focus.Some? ==> IsClean(focus.value) && focus.value != [])
    case Text(text, _, _) => IsClean(text) && text != []
    case _ => true
  }

  predicate ScopedTo(region: Option<Box>, request: Request, p: Payload)
  {
    var requested := RequestedRegion(request);
    && (region.Some? ==> ValidBox(region.value))
    && (requested.Some? && region.None? ==> !p.Caption? && !p.Colors?)
    && (requested.Some? && region.Some? ==> Cut(requested.value, region.value) == region.value)
  }

  predicate SettledDraft(d: Draft, request: Request)
  {
    && CleanPayload(d.payload) && Compatible(request, d.payload) && ScopedTo(d.region, request, d.payload)
    && (WantsLocation(d.payload) && d.region.None? ==> HasCode(d.warnings, LOCATION_UNAVAILABLE))
  }

  // Clean, cut to the request, located or marked as not, in order and without duplicates.
  predicate Settled(result: Result, request: Request)
  {
    && (forall i :: 0 <= i < |result.observations| ==> SettledDraft(result.observations[i], request))
    && InOrder(result.observations) && Distinct(result.observations)
  }

  lemma PreparedIsClean(p: Payload)
    requires !ChangeOf(p).discard
    ensures CleanPayload(PreparedPayload(p))
  {
    match p {
      case Caption(text, focus) =>
        CleanedIsClean(text);
        if focus.Some? { CleanedIsClean(focus.value); }
      case Text(text, _, _) => CleanedIsClean(text);
      case _ =>
    }
  }

  lemma CleanIsPrepared(p: Payload)
    requires CleanPayload(p)
    ensures PreparedPayload(p) == p && ChangeOf(p) == UNCHANGED
  {
    match p {
      case Caption(text, focus) =>
        CleaningIsIdempotent(text);
        if focus.Some? { CleaningIsIdempotent(focus.value); }
      case Text(text, _, _) => CleaningIsIdempotent(text);
      case _ =>
    }
  }

  lemma NormalizedDraftSettles(d: Draft, request: Request)
    requires PreparedDraft(d).Some? && !PreparedDraft(d).value.change.discard
    requires Compatible(request, PreparedDraft(d).value.draft.payload)
    requires NormalizedDraft(PreparedDraft(d).value, request).Some?
    ensures SettledDraft(NormalizedDraft(PreparedDraft(d).value, request).value, request)
  {
    PreparedIsClean(d.payload);
  }

  lemma SettledRegionIsKept(d: Draft, request: Request)
    requires SettledDraft(d, request)
    ensures ScopedRegion(d.region, request, d.payload) == Some(d.region)
    ensures DraftWarnings(Prepared(d, UNCHANGED), d.region) == d.warnings
  {}

  lemma SettledDraftIsPrepared(d: Draft, request: Request)
    requires SettledDraft(d, request)
    ensures PreparedDraft(d) == Some(Prepared(d, UNCHANGED))
  {
    CleanIsPrepared(d.payload);
  }

  lemma SettledDraftIsFixed(d: Draft, request: Request)
    requires SettledDraft(d, request)
    ensures PreparedDraft(d) == Some(Prepared(d, UNCHANGED))
    ensures NormalizedDraft(Prepared(d, UNCHANGED), request) == Some(d)
  {
    SettledDraftIsPrepared(d, request);
    SettledRegionIsKept(d, request);
  }

  lemma {:induction false} PreparedAt(drafts: seq<Draft>, i: nat)
    requires PreparedDrafts(drafts).Some? && i < |drafts|
    ensures PreparedDraft(drafts[i]) == Some(PreparedDrafts(drafts).value[i])
  {
    if 0 < i { PreparedAt(drafts[1..], i - 1); }
  }

  // Every draft that is kept comes from a reported one, and every one not discarded is kept.
  lemma {:induction false} KeptFrom(prepared: seq<Prepared>, request: Request, k: nat) returns (i: nat)
    requires NormalizedDrafts(prepared, request).Some? && k < |NormalizedDrafts(prepared, request).value|
    ensures i < |prepared| && !prepared[i].change.discard
    ensures NormalizedDraft(prepared[i], request) == Some(NormalizedDrafts(prepared, request).value[k])
  {
    if prepared[0].change.discard {
      i := KeptFrom(prepared[1..], request, k);
      i := i + 1;
    } else if k == 0 {
      i := 0;
    } else {
      i := KeptFrom(prepared[1..], request, k - 1);
      i := i + 1;
    }
  }

  lemma {:induction false} KeptTo(prepared: seq<Prepared>, request: Request, i: nat) returns (k: nat)
    requires NormalizedDrafts(prepared, request).Some? && i < |prepared| && !prepared[i].change.discard
    ensures k < |NormalizedDrafts(prepared, request).value|
    ensures NormalizedDraft(prepared[i], request) == Some(NormalizedDrafts(prepared, request).value[k])
  {
    if i == 0 {
      k := 0;
    } else {
      k := KeptTo(prepared[1..], request, i - 1);
      if !prepared[0].change.discard { k := k + 1; }
    }
  }

  lemma NormalizedDraftsSettle(drafts: seq<Draft>, request: Request, k: nat)
    requires PreparedDrafts(drafts).Some? && AllCompatible(request, PreparedDrafts(drafts).value)
    requires NormalizedDrafts(PreparedDrafts(drafts).value, request).Some?
    requires k < |NormalizedDrafts(PreparedDrafts(drafts).value, request).value|
    ensures SettledDraft(NormalizedDrafts(PreparedDrafts(drafts).value, request).value[k], request)
  {
    var i := KeptFrom(PreparedDrafts(drafts).value, request, k);
    PreparedAt(drafts, i);
    NormalizedDraftSettles(drafts[i], request);
  }

  lemma KeptDraftsAreDrafts(drafts: seq<Draft>, k: nat) returns (i: nat)
    requires k < |Unique(Sorted(drafts))|
    ensures i < |drafts| && drafts[i] == Unique(Sorted(drafts))[k]
  {
    SortedKeepsItems(drafts);
    assert Unique(Sorted(drafts))[k] in drafts;
    i :| i < |drafts| && drafts[i] == Unique(Sorted(drafts))[k];
  }

  lemma SortedAndUniqueSettles(drafts: seq<Draft>, warnings: seq<Warning>, request: Request)
    requires forall i :: 0 <= i < |drafts| ==> SettledDraft(drafts[i], request)
    ensures Settled(Result(Unique(Sorted(drafts)), warnings), request)
  {
    var unique := Unique(Sorted(drafts));
    SortedIsInOrder(drafts);
    UniqueIsDistinct(Sorted(drafts));
    forall k | 0 <= k < |unique|
      ensures SettledDraft(unique[k], request)
    {
      var i := KeptDraftsAreDrafts(drafts, k);
    }
  }

  // What normalization returns is a normal form.
  lemma NormalizedIsSettled(result: Result, request: Request, limits: Limits)
    requires Normalized(result, request, limits).Some?
    ensures Settled(Normalized(result, request, limits).value, request)
  {
    var drafts := NormalizedDrafts(PreparedDrafts(result.observations).value, request).value;
    forall i | 0 <= i < |drafts|
      ensures SettledDraft(drafts[i], request)
    {
      NormalizedDraftsSettle(result.observations, request, i);
    }
    SortedAndUniqueSettles(drafts, Normalized(result, request, limits).value.warnings, request);
  }

  function Untouched(drafts: seq<Draft>): (r: seq<Prepared>)
    ensures |r| == |drafts|
    ensures forall i :: 0 <= i < |r| ==> r[i] == Prepared(drafts[i], UNCHANGED)
  {
    if drafts == [] then [] else [Prepared(drafts[0], UNCHANGED)] + Untouched(drafts[1..])
  }

  lemma {:induction false} SettledDraftsArePrepared(drafts: seq<Draft>, request: Request)
    requires forall i :: 0 <= i < |drafts| ==> SettledDraft(drafts[i], request)
    ensures PreparedDrafts(drafts) == Some(Untouched(drafts))
  {
    if drafts != [] {
      SettledDraftIsFixed(drafts[0], request);
      SettledDraftsArePrepared(drafts[1..], request);
    }
  }

  lemma {:induction false} SettledDraftsAreKept(drafts: seq<Draft>, request: Request)
    requires forall i :: 0 <= i < |drafts| ==> SettledDraft(drafts[i], request)
    ensures NormalizedDrafts(Untouched(drafts), request) == Some(drafts)
  {
    if drafts != [] {
      SettledDraftIsFixed(drafts[0], request);
      SettledDraftsAreKept(drafts[1..], request);
      assert drafts == [drafts[0]] + drafts[1..];
    }
  }

  lemma {:induction false} NothingDiscarded(drafts: seq<Draft>)
    ensures EmptyCount(Untouched(drafts)) == 0
  {
    if drafts != [] {
      NothingDiscarded(drafts[1..]);
      assert Untouched(drafts)[1..] == Untouched(drafts[1..]);
    }
  }

  // A normal form is left as it is, or refused for its size alone.
  lemma {:induction false} SettledIsFixed(result: Result, request: Request, limits: Limits)
    requires Settled(result, request)
    ensures Normalized(result, request, limits)
         == if WithinLimits(Untouched(result.observations), result.warnings, request, limits)
            then Some(result) else None
  {
    SettledDraftsArePrepared(result.observations, request);
    SettledDraftsAreKept(result.observations, request);
    NothingDiscarded(result.observations);
    OrderedIsSorted(result.observations);
    DistinctIsUnique(result.observations);
    UntouchedAreCompatible(result.observations, request);
  }

  lemma {:induction false} UntouchedAreCompatible(drafts: seq<Draft>, request: Request)
    requires forall i :: 0 <= i < |drafts| ==> SettledDraft(drafts[i], request)
    ensures AllCompatible(request, Untouched(drafts))
  {
    forall i | 0 <= i < |drafts|
      ensures Compatible(request, Untouched(drafts)[i].draft.payload)
    {
      assert SettledDraft(drafts[i], request);
    }
  }

  lemma {:induction false} NormalizedAreNoMore(prepared: seq<Prepared>, request: Request)
    requires NormalizedDrafts(prepared, request).Some?
    ensures |NormalizedDrafts(prepared, request).value| <= |prepared|
  {
    if prepared != [] { NormalizedAreNoMore(prepared[1..], request); }
  }

  lemma {:induction false} UniqueIsNoLonger(s: seq<Draft>)
    ensures |Unique(s)| <= |s|
  {
    if s != [] { UniqueIsNoLonger(s[..|s| - 1]); }
  }

  lemma KeptAreNoMore(drafts: seq<Draft>)
    ensures |Unique(Sorted(drafts))| <= |drafts|
  {
    SortedKeepsItems(drafts);
    assert |Sorted(drafts)| == |multiset(Sorted(drafts))| == |drafts|;
    UniqueIsNoLonger(Sorted(drafts));
  }

  predicate PayloadFits(p: Payload, request: Request, limits: Limits)
  {
    ContentAllowed(p, request) && (p.Text? ==> |p.text| <= limits.maxOcrChars)
  }

  lemma KeptPayloadFits(prepared: seq<Prepared>, request: Request, limits: Limits, i: nat)
    requires CountsFit(prepared, request, limits)
    requires NormalizedDrafts(prepared, request).Some? && i < |NormalizedDrafts(prepared, request).value|
    ensures PayloadFits(NormalizedDrafts(prepared, request).value[i].payload, request, limits)
  {
    var j := KeptFrom(prepared, request, i);
    assert TextAllowed(prepared[j], limits);
  }

  // What the first pass kept is within all bounds on counts and contents.
  lemma KeptCountsFit(result: Result, request: Request, limits: Limits)
    requires Normalized(result, request, limits).Some?
    ensures CountsFit(Untouched(Normalized(result, request, limits).value.observations), request, limits)
  {
    var prepared := PreparedDrafts(result.observations).value;
    var drafts := NormalizedDrafts(prepared, request).value;
    var kept := Unique(Sorted(drafts));
    NormalizedAreNoMore(prepared, request);
    KeptAreNoMore(drafts);
    forall k | 0 <= k < |kept|
      ensures PayloadFits(kept[k].payload, request, limits)
    {
      var i := KeptDraftsAreDrafts(drafts, k);
      KeptPayloadFits(prepared, request, limits, i);
    }
    FittingPayloadsCount(kept, request, limits);
  }

  lemma {:induction false} FittingPayloadsCount(drafts: seq<Draft>, request: Request, limits: Limits)
    requires |drafts| <= limits.maxObservations && |drafts| <= ResultLimit(request, limits)
    requires forall k :: 0 <= k < |drafts| ==> PayloadFits(drafts[k].payload, request, limits)
    ensures CountsFit(Untouched(drafts), request, limits)
  {
    var prepared := Untouched(drafts);
    forall k | 0 <= k < |prepared|
      ensures ContentAllowed(prepared[k].draft.payload, request) && TextAllowed(prepared[k], limits)
    {
      assert prepared[k] == Prepared(drafts[k], UNCHANGED) && PayloadFits(drafts[k].payload, request, limits);
    }
  }

  lemma {:induction false} UntouchedDrafts(drafts: seq<Draft>)
    ensures Drafts(Untouched(drafts)) == drafts
  {
    if drafts != [] {
      UntouchedDrafts(drafts[1..]);
      assert Untouched(drafts)[1..] == Untouched(drafts[1..]);
    }
  }

  // Normalizing what normalization returned changes nothing, unless the first pass's own
  // warnings push the size of the response over a limit.
  lemma NormalizingAgainChangesNothing(result: Result, request: Request, limits: Limits)
    requires Normalized(result, request, limits).Some?
    ensures var once := Normalized(result, request, limits).value;
      Normalized(once, request, limits) == if SizesFit(once, limits) then Some(once) else None
  {
    var once := Normalized(result, request, limits).value;
    NormalizedIsSettled(result, request, limits);
    SettledIsFixed(once, request, limits);
    KeptCountsFit(result, request, limits);
    UntouchedDrafts(once.observations);
  }

  function Located(d: Draft): (r: Draft)
  {
    d.(warnings := WithWarning(d.warnings, LocationWarning()))
  }

  lemma OnePrepared(d: Draft)
    requires CleanPayload(d.payload) && d.region.None?
    ensures PreparedDrafts([d]) == Some(Untouched([d]))
  {
    CleanIsPrepared(d.payload);
    assert PreparedDraft(d) == Some(Prepared(d, UNCHANGED));
    assert [d][1..] == [] && PreparedDrafts([]) == Some([]);
    assert Untouched([d]) == [Prepared(d, UNCHANGED)];
  }

  lemma OneNormalized(d: Draft, request: Request)
    requires d.payload.Text? && d.region.None?
    ensures NormalizedDrafts(Untouched([d]), request) == Some([Located(d)])
  {
    var one := Untouched([d]);
    assert one[1..] == [] && NormalizedDrafts([], request) == Some([]);
    assert NormalizedDraft(one[0], request) == Some(Located(d));
    assert [Located(d)] + [] == [Located(d)];
  }

  lemma OneIsOrdered(d: Draft)
    ensures Sorted([d]) == [d] && Unique([d]) == [d]
  {
    OrderedIsSorted([d]);
    DistinctIsUnique([d]);
  }

  // Limits that fit the response exactly.
  function TightLimits(result: Result, maxOcrChars: nat, items: nat): (r: Limits)
  {
    Limits(maxOcrChars, StringSize(ResultDump(result)), items, 1)
  }

  // Every text without a place and without a warning of that passes under a limit on its
  // size that it just meets; the location warning it is given is then too much.
  lemma SecondPassCanExceedLimits(d: Draft, maxOcrChars: nat, items: nat)
    requires d.payload.Text? && CleanPayload(d.payload) && d.region.None? && !HasCode(d.warnings, LOCATION_UNAVAILABLE)
    requires 0 < maxOcrChars && |d.payload.text| <= maxOcrChars
    requires 0 < items && NestedItems(ResultDump(Result([d], []))) <= items
    ensures var request := Request(OcrKind, None, {}, 0, 1);
      var limits := TightLimits(Result([d], []), maxOcrChars, items);
      && ValidLimits(limits)
      && Normalized(Result([d], []), request, limits) == Some(Result([Located(d)], []))
      && Normalized(Result([Located(d)], []), request, limits).None?
  {
    var request, limits := Request(OcrKind, None, {}, 0, 1), TightLimits(Result([d], []), maxOcrChars, items);
    WarningLengthensResult(d, LocationWarning(), []);
    OnePasses(d, request, limits);
    NormalizingAgainChangesNothing(Result([d], []), request, limits);
  }

  lemma OnePasses(d: Draft, request: Request, limits: Limits)
    requires d.payload.Text? && CleanPayload(d.payload) && d.region.None?
    requires request == Request(OcrKind, None, {}, 0, 1)
    requires |d.payload.text| <= limits.maxOcrChars && limits.maxObservations == 1
    requires SizesFit(Result([d], []), limits)
    ensures Normalized(Result([d], []), request, limits) == Some(Result([Located(d)], []))
  {
    OnePrepared(d);
    OneNormalized(d, request);
    OneIsOrdered(Located(d));
    NothingDiscarded([d]);
    UntouchedDrafts([d]);
  }

  // The loops of the original: cleaning and scoping draft by draft, then order and
  // deduplication.
  method NormalizeBackendResult(result: Result, request: Request, limits: Limits) returns (normalized: Option<Result>)
    ensures normalized == Normalized(result, request, limits)
  {
    var prepared := PreparedDrafts(result.observations);
    if prepared.None? || !AllCompatible(request, prepared.value)
       || !WithinLimits(prepared.value, result.warnings, request, limits) {
      return None;
    }
    var drafts, emptyCount := [], 0;
    assert prepared.value[0..] == prepared.value;
    StartOfDrafts(prepared.value, request);
    for i := 0 to |prepared.value|
      invariant NormalizedDrafts(prepared.value, request)
             == Prepended(drafts, NormalizedDrafts(prepared.value[i..], request))
      invariant EmptyCount(prepared.value) == emptyCount + EmptyCount(prepared.value[i..])
    {
      var p := prepared.value[i];
      assert prepared.value[i..][1..] == prepared.value[i + 1..];
      OneMoreDraft(drafts, prepared.value[i..], request);
      if p.change.discard {
        emptyCount := emptyCount + 1;
      } else {
        var draft := NormalizedDraft(p, request);
        if draft.None? {
          return None;
        }
        drafts := drafts + [draft.value];
      }
    }
    EndOfDrafts(drafts, request);
    var unique, duplicates := Deduplicate(Sorted(drafts));
    normalized := Some(Result(unique, NormalizedWarnings(result.warnings, emptyCount, duplicates)));
  }

  // The drafts normalized so far before what the rest comes to.
  function Prepended(front: seq<Draft>, rest: Option<seq<Draft>>): (r: Option<seq<Draft>>)
  {
    if rest.None? then None else Some(front + rest.value)
  }

  lemma StartOfDrafts(prepared: seq<Prepared>, request: Request)
    ensures NormalizedDrafts(prepared, request) == Prepended([], NormalizedDrafts(prepared, request))
  {
    var all := NormalizedDrafts(prepared, request);
    if all.Some? { assert [] + all.value == all.value; }
  }

  lemma EndOfDrafts(front: seq<Draft>, request: Request)
    ensures Prepended(front, NormalizedDrafts([], request)) == Some(front)
  {
    assert front + [] == front;
  }

  lemma OneMoreDraft(front: seq<Draft>, prepared: seq<Prepared>, request: Request)
    requires prepared != []
    ensures Prepended(front, NormalizedDrafts(prepared, request))
         == var rest := NormalizedDrafts(prepared[1..], request);
            if prepared[0].change.discard then Prepended(front, rest)
            else if NormalizedDraft(prepared[0], request).None? then None
            else Prepended(front + [NormalizedDraft(prepared[0], request).value], rest)
  {
    var rest := NormalizedDrafts(prepared[1..], request);
    var first := NormalizedDraft(prepared[0], request);
    if rest.Some? && first.Some? { assert front + ([first.value] + rest.value) == front + [first.value] + rest.value; }
  }
}
