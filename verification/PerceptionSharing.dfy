// What the perception protocol promises over all its runs.
module PerceptionSharing {
  import opened JsonValues
  import opened PerceptionProtocol
  import opened PerceptionInvariant

  predicate Initial(s: State)
  {
    && s.flights == map[] && s.registered == map[] && CacheIsTrue(s)
    && forall c :: c in s.callers ==>
         s.callers[c].Wellformed() && s.callers[c].phase.Arriving?
         && s.callers[c].routed.None? && s.callers[c].started.None?
  }

  predicate Next(s: State, step: Step, s': State)
  {
    Enabled(s, step) && RegistrationsExist(s) && s' == Apply(s, step)
  }

  predicate IsRun(states: seq<State>, steps: seq<Step>)
  {
    && |states| == |steps| + 1
    && Initial(states[0])
    && forall i :: 0 <= i < |steps| ==> NextAt(states, steps, i)
  }

  predicate NextAt(states: seq<State>, steps: seq<Step>, i: int)
    requires |states| == |steps| + 1 && 0 <= i < |steps|
  {
    Next(states[i], steps[i], states[i + 1])
  }

  lemma {:induction false} RunKeepsInv(states: seq<State>, steps: seq<Step>, i: nat)
    requires IsRun(states, steps) && i < |states|
    ensures Inv(states[i])
  {
    if i > 0 {
      RunKeepsInv(states, steps, i - 1);
      assert NextAt(states, steps, i - 1);
      StepKeepsInv(states[i - 1], steps[i - 1]);
    }
  }

  // Attribution safety, over every interleaving: the backend an outcome credits has the
  // perception key of the backend that produced its bytes, and is that backend unless the
  // outcome says it came from a cache; a durable cache holds bytes of exact identities only.
  lemma AttributionIsSafe(states: seq<State>, steps: seq<Step>, i: nat)
    requires IsRun(states, steps) && i < |states|
    ensures forall c :: c in states[i].callers && states[i].callers[c].phase.Done? ==>
      var me := states[i].callers[c];
      && KeyOf(me.digest, me.request, me.phase.outcome.credited) == Origin(me.phase.outcome.encoded)
      && (!me.phase.outcome.cacheHit ==> me.phase.outcome.credited == me.phase.outcome.encoded.producer)
    ensures forall k :: k in states[i].cache ==>
      && Origin(states[i].cache[k]) == k
      && (states[i].durable && k.modelId.Some? ==> k.modelRevision.Some?)
  {
    RunKeepsInv(states, steps, i);
    assert forall c :: c in states[i].callers ==> CallerIsTrue(states[i], c);
  }

  predicate Live(s: State, f: FlightId)
  {
    f in s.flights && s.flights[f].Pending() && !s.flights[f].cancelled
  }

  // Single flight: a registered flight counts exactly the callers that joined and have not
  // released, and no key has two live populations.
  lemma FlightsAreSingle(states: seq<State>, steps: seq<Step>, i: nat)
    requires IsRun(states, steps) && i < |states|
    ensures forall k :: k in states[i].registered ==>
      && states[i].registered[k] in states[i].flights
      && states[i].flights[states[i].registered[k]].waiters == |Holders(states[i].callers, states[i].registered[k])|
    ensures forall f, g ::
      (Live(states[i], f) && Live(states[i], g) && states[i].flights[f].key == states[i].flights[g].key) ==> f == g
  {
    RunKeepsInv(states, steps, i);
    var s := states[i];
    assert forall k :: k in s.registered ==> RegistrationIsTrue(s, k);
    assert forall f :: f in s.flights ==> LiveIsRegistered(s, f);
  }

  // A caller that joins while a population of its key is live waits for that one, and none
  // is started beside it.
  lemma JoiningShares(states: seq<State>, steps: seq<Step>, i: nat, f: FlightId)
    requires IsRun(states, steps) && i < |steps| && steps[i].Join? && !states[i].closed
    requires steps[i].c in states[i].callers && states[i].callers[steps[i].c].Wellformed()
    requires Live(states[i], f) && states[i].flights[f].key == states[i].callers[steps[i].c].CacheKey()
    ensures states[i + 1].flights.Keys == states[i].flights.Keys
    ensures steps[i].c in states[i + 1].callers && states[i + 1].callers[steps[i].c].phase == Waiting(f)
  {
    RunKeepsInv(states, steps, i);
    RunStep(states, steps, i);
    assert LiveIsRegistered(states[i], f);
  }

  predicate EmptyOnceClosed(s: State)
  {
    s.closed ==> s.registered == map[]
  }

  lemma StepKeepsEmpty(s: State, step: Step)
    requires Enabled(s, step) && RegistrationsExist(s) && EmptyOnceClosed(s)
    ensures EmptyOnceClosed(Apply(s, step))
  {}

  lemma {:induction false} ClosedHoldsNothing(states: seq<State>, steps: seq<Step>, i: nat)
    requires IsRun(states, steps) && i < |states|
    ensures EmptyOnceClosed(states[i])
  {
    if 0 < i {
      RunStep(states, steps, i - 1);
      ClosedHoldsNothing(states, steps, i - 1);
      StepKeepsEmpty(states[i - 1], steps[i - 1]);
    }
  }

  // No population is left running for nobody: once nobody holds it, or the coordinator is
  // closed, one that is not settled is being cancelled.
  lemma OrphansAreCancelled(states: seq<State>, steps: seq<Step>, i: nat, f: FlightId)
    requires IsRun(states, steps) && i < |states| && f in states[i].flights && states[i].flights[f].Pending()
    requires Holders(states[i].callers, f) == {} || states[i].closed
    ensures states[i].flights[f].cancelled
  {
    RunKeepsInv(states, steps, i);
    ClosedHoldsNothing(states, steps, i);
    assert LiveIsRegistered(states[i], f);
    assert forall k :: k in states[i].registered ==> RegistrationIsTrue(states[i], k);
  }

  lemma SoleHolder(h: set<CallerId>, c: CallerId)
    requires c in h && |h| == 1
    ensures h == {c}
  {
    OneFewer(h, c);
    assert h - {c} == {};
  }

  lemma ReleaseCancelsLast(s: State, c: CallerId, survives: bool, f: FlightId)
    requires MayLeave(s, c) && RegistryIsTrue(s) && f in s.flights && !s.flights[f].cancelled
    requires LeaveFlight(s, c, survives).flights[f].cancelled
    ensures Holders(s.callers, f) == {c}
  {
    assert f == s.callers[c].phase.f;
    assert RegistrationIsTrue(s, s.flights[f].key);
    SoleHolder(Holders(s.callers, f), c);
  }

  // The coordinator cancels a population only when its last holder releases it, or on close.
  lemma CancelledByLastReleaseOrClose(s: State, step: Step, f: FlightId)
    requires RegistryIsTrue(s) && Enabled(s, step) && f in s.flights && !s.flights[f].cancelled
    ensures f in Apply(s, step).flights
    ensures Apply(s, step).flights[f].cancelled ==>
      step.Close? || (step.Release? && Holders(s.callers, f) == {step.c})
  {
    if step.Release? && Apply(s, step).flights[f].cancelled {
      ReleaseCancelsLast(s, step.c, step.survives, f);
    }
  }

  lemma SettledIsFinal(s: State, step: Step, s': State, f: FlightId)
    requires Next(s, step, s') && f in s.flights && !s.flights[f].Pending()
    ensures f in s'.flights && s'.flights[f].population == s.flights[f].population
  {}

  lemma RunStep(states: seq<State>, steps: seq<Step>, i: nat)
    requires IsRun(states, steps) && i < |steps|
    ensures Next(states[i], steps[i], states[i + 1])
  {
    assert NextAt(states, steps, i);
  }

  lemma SettledOneStep(states: seq<State>, steps: seq<Step>, i: nat, f: FlightId)
    requires IsRun(states, steps) && i < |steps|
    requires f in states[i].flights && !states[i].flights[f].Pending()
    ensures f in states[i + 1].flights && states[i + 1].flights[f].population == states[i].flights[f].population
  {
    RunStep(states, steps, i);
    SettledIsFinal(states[i], steps[i], states[i + 1], f);
  }

  lemma {:induction false} SettledStays(states: seq<State>, steps: seq<Step>, i: nat, j: nat, f: FlightId)
    requires IsRun(states, steps) && i <= j < |states|
    requires f in states[i].flights && !states[i].flights[f].Pending()
    ensures f in states[j].flights && states[j].flights[f].population == states[i].flights[f].population
  {
    if i < j {
      SettledStays(states, steps, i, j - 1, f);
      SettledOneStep(states, steps, j - 1, f);
    }
  }

  // Everyone who waited on a flight saw one result, whenever they woke.
  lemma WaitersAgree(states: seq<State>, steps: seq<Step>, i: nat, j: nat, c: CallerId, d: CallerId)
    requires IsRun(states, steps) && i <= j < |states|
    requires c in states[i].callers && d in states[j].callers
    requires Joined(states[i].callers[c].phase).Some?
          && Joined(states[i].callers[c].phase) == Joined(states[j].callers[d].phase)
    requires Received(states[i].callers[c].phase).Some? && Received(states[j].callers[d].phase).Some?
    ensures Received(states[i].callers[c].phase) == Received(states[j].callers[d].phase)
  {
    RunKeepsInv(states, steps, i);
    RunKeepsInv(states, steps, j);
    assert CallerIsTrue(states[i], c) && CallerIsTrue(states[j], d);
    SettledStays(states, steps, i, j, Joined(states[i].callers[c].phase).value);
  }

  /******* Who routed what *******/

  lemma StepKeepsCallers(s: State, step: Step)
    requires Enabled(s, step) && RegistrationsExist(s)
    ensures Apply(s, step).callers.Keys == s.callers.Keys
  {}

  lemma StepKeepsOwners(s: State, step: Step, f: FlightId)
    requires Enabled(s, step) && RegistrationsExist(s) && f in s.flights
    ensures f in Apply(s, step).flights && Apply(s, step).flights[f].owner == s.flights[f].owner
  {}

  lemma NewFlightIsJoined(s: State, step: Step, f: FlightId)
    requires Enabled(s, step) && RegistrationsExist(s) && f !in s.flights && f in Apply(s, step).flights
    ensures step == Join(Apply(s, step).flights[f].owner, f)
  {}

  // The caller began the flight with one of the first `i` steps: it joined and was given a
  // flight that was not there before.
  ghost predicate Began(states: seq<State>, steps: seq<Step>, i: nat, c: CallerId, f: FlightId)
    requires |states| == |steps| + 1 && i <= |steps|
  {
    exists a :: BeganAt(states, steps, a, c, f) && a < i
  }

  predicate BeganAt(states: seq<State>, steps: seq<Step>, a: int, c: CallerId, f: FlightId)
  {
    && 0 <= a < |steps| < |states| && steps[a] == Join(c, f)
    && f !in states[a].flights && f in states[a + 1].flights
  }

  // A flight's owner is the caller that began it.
  lemma {:induction false} OwnerBegan(states: seq<State>, steps: seq<Step>, i: nat, f: FlightId)
    requires IsRun(states, steps) && i < |states| && f in states[i].flights
    ensures Began(states, steps, i, states[i].flights[f].owner, f)
  {
    if 0 < i {
      RunStep(states, steps, i - 1);
      var s := states[i - 1];
      if f in s.flights {
        OwnerBegan(states, steps, i - 1, f);
        StepKeepsOwners(s, steps[i - 1], f);
        var a :| BeganAt(states, steps, a, s.flights[f].owner, f) && a < i - 1;
        assert a < i;
      } else {
        NewFlightIsJoined(s, steps[i - 1], f);
        assert BeganAt(states, steps, i - 1, states[i].flights[f].owner, f);
      }
    }
  }

  lemma JoinedFlightIsOwned(s: State, step: Step, c: CallerId, f: FlightId)
    requires Enabled(s, step) && RegistrationsExist(s) && step == Join(c, f) && f !in s.flights
    requires f in Apply(s, step).flights
    ensures Apply(s, step).flights[f].owner == c
  {}

  lemma {:induction false} BeganIsOwner(states: seq<State>, steps: seq<Step>, i: nat, c: CallerId, f: FlightId)
    requires IsRun(states, steps) && i < |states| && Began(states, steps, i, c, f)
    ensures f in states[i].flights && states[i].flights[f].owner == c
  {
    RunStep(states, steps, i - 1);
    var a :| BeganAt(states, steps, a, c, f) && a < i;
    if a == i - 1 {
      JoinedFlightIsOwned(states[a], steps[a], c, f);
    } else {
      assert Began(states, steps, i - 1, c, f);
      BeganIsOwner(states, steps, i - 1, c, f);
      StepKeepsOwners(states[i - 1], steps[i - 1], f);
    }
  }

  // A step in which the caller's own work is routed: of a flight it began, or again.
  ghost predicate OwnRoute(states: seq<State>, steps: seq<Step>, j: int, c: CallerId)
  {
    && |states| == |steps| + 1 && 0 <= j < |steps|
    && ((steps[j].Route? && Began(states, steps, j, c, steps[j].f)) || (steps[j].RouteAgain? && steps[j].c == c))
  }

  // The step routes the caller's own work.
  predicate RoutesFor(s: State, step: Step, c: CallerId)
    requires Enabled(s, step)
  {
    (step.Route? && s.flights[step.f].owner == c) || (step.RouteAgain? && step.c == c)
  }

  lemma RoutingIsRecorded(s: State, step: Step, c: CallerId)
    requires Inv(s) && Enabled(s, step) && c in s.callers && RoutesFor(s, step, c)
    ensures c in Apply(s, step).callers
    ensures s.callers[c].routed.None? && Apply(s, step).callers[c].routed == Some(step.d)
  {
    assert CallerIsTrue(s, c);
    if step.Route? { assert OwnerWaits(s, step.f); }
  }

  lemma RecordStays(s: State, step: Step, c: CallerId)
    requires Enabled(s, step) && RegistrationsExist(s) && c in s.callers && !RoutesFor(s, step, c)
    ensures c in Apply(s, step).callers && Apply(s, step).callers[c].routed == s.callers[c].routed
  {}

  // The step is an own route of the caller exactly when it routes a flight the caller owns
  // or routes again for it.
  lemma OwnRouteIsOwned(states: seq<State>, steps: seq<Step>, j: nat, c: CallerId)
    requires IsRun(states, steps) && j < |steps|
    ensures Enabled(states[j], steps[j])
    ensures OwnRoute(states, steps, j, c) <==> RoutesFor(states[j], steps[j], c)
  {
    RunStep(states, steps, j);
    if steps[j].Route? {
      OwnerBegan(states, steps, j, steps[j].f);
      if Began(states, steps, j, c, steps[j].f) { BeganIsOwner(states, steps, j, c, steps[j].f); }
    }
  }

  // The backend on record is the one of the caller's own route, of which there is at most one.
  lemma {:induction false} RecordIsOwnRoute(states: seq<State>, steps: seq<Step>, i: nat, c: CallerId)
    requires IsRun(states, steps) && i < |states| && c in states[0].callers
    ensures c in states[i].callers
    ensures forall j :: j < i && OwnRoute(states, steps, j, c) ==> states[i].callers[c].routed == Some(steps[j].d)
    ensures states[i].callers[c].routed.Some? ==> exists j :: j < i && OwnRoute(states, steps, j, c)
  {
    if 0 < i {
      RecordIsOwnRoute(states, steps, i - 1, c);
      RunKeepsInv(states, steps, i - 1);
      RunStep(states, steps, i - 1);
      OwnRouteIsOwned(states, steps, i - 1, c);
      if OwnRoute(states, steps, i - 1, c) {
        RoutingIsRecorded(states[i - 1], steps[i - 1], c);
      } else {
        RecordStays(states[i - 1], steps[i - 1], c);
      }
      if !OwnRoute(states, steps, i - 1, c) && states[i].callers[c].routed.Some? {
        var j :| j < i - 1 && OwnRoute(states, steps, j, c);
        assert j < i;
      }
    }
  }

  lemma {:induction false} CallersAreFixed(states: seq<State>, steps: seq<Step>, i: nat)
    requires IsRun(states, steps) && i < |states|
    ensures states[i].callers.Keys == states[0].callers.Keys
  {
    if 0 < i {
      CallersAreFixed(states, steps, i - 1);
      RunStep(states, steps, i - 1);
      StepKeepsCallers(states[i - 1], steps[i - 1]);
    }
  }

  // Said of the steps alone: an outcome is fresh exactly when the caller's own work was
  // routed, and then it credits the backend that was routed to, which produced the bytes;
  // otherwise it is a cache hit and credits the caller's first candidate.
  lemma FreshnessIsEarned(states: seq<State>, steps: seq<Step>, i: nat, c: CallerId)
    requires IsRun(states, steps) && i < |states| && c in states[i].callers && states[i].callers[c].phase.Done?
    ensures var outcome := states[i].callers[c].phase.outcome;
      && (outcome.cacheHit <==> forall j :: j < i ==> !OwnRoute(states, steps, j, c))
      && (forall j :: j < i && OwnRoute(states, steps, j, c) ==>
            outcome.credited == steps[j].d == outcome.encoded.producer)
      && (outcome.cacheHit ==> [outcome.credited] <= states[i].callers[c].candidates)
  {
    CallersAreFixed(states, steps, i);
    RecordIsOwnRoute(states, steps, i, c);
    RunKeepsInv(states, steps, i);
    assert CallerIsTrue(states[i], c);
  }

  // The check that was handed bytes of another identity.
  predicate HandedAnother(states: seq<State>, steps: seq<Step>, j: int, c: CallerId)
    requires |states| == |steps| + 1
  {
    && 0 <= j < |steps| && steps[j] == Check(c)
    && c in states[j].callers && states[j].callers[c].Wellformed() && states[j].callers[c].phase.Checking?
    && states[j].callers[c].phase.shared.producedKey != states[j].callers[c].CacheKey()
  }

  predicate AsksAgain(p: Phase)
  {
    p.Repopulating? || p.Storing?
  }

  lemma StepToAsking(s: State, step: Step, c: CallerId)
    requires Enabled(s, step) && RegistrationsExist(s) && c in s.callers
    requires AsksAgain(Apply(s, step).callers[c].phase) && !AsksAgain(s.callers[c].phase)
    ensures step == Check(c) && s.callers[c].phase.Checking?
    ensures s.callers[c].phase.shared.producedKey != s.callers[c].CacheKey()
  {}

  // A backend is asked a second time for a caller only when the bytes it was handed are of
  // another identity than its own.
  lemma {:induction false} AskedAgainForCause(states: seq<State>, steps: seq<Step>, i: nat, c: CallerId)
    requires IsRun(states, steps) && i < |states| && c in states[i].callers && AsksAgain(states[i].callers[c].phase)
    ensures exists j :: j < i && HandedAnother(states, steps, j, c)
  {
    if 0 < i {
      RunStep(states, steps, i - 1);
      StepKeepsCallers(states[i - 1], steps[i - 1]);
      if AsksAgain(states[i - 1].callers[c].phase) {
        AskedAgainForCause(states, steps, i - 1, c);
        var j :| j < i - 1 && HandedAnother(states, steps, j, c);
        assert j < i;
      } else {
        StepToAsking(states[i - 1], steps[i - 1], c);
        assert HandedAnother(states, steps, i - 1, c);
      }
    }
  }

  /******* Where bytes come from *******/

  predicate PhaseHolds(p: Phase, b: Bytes)
  {
    match p
    case Releasing(_, got) => got.Some? && got.value.encoded == b
    case Checking(_, shared) => shared.encoded == b
    case Storing(bytes) => bytes == b
    case Finishing(shared) => shared.encoded == b
    case Done(outcome) => outcome.encoded == b
    case _ => false
  }

  predicate PopulationHolds(p: Population, b: Bytes)
  {
    match p
    case Routed(bytes) => bytes == b
    case Completed(shared) => shared.encoded == b
    case _ => false
  }

  // Something in the state holds these bytes.
  ghost predicate Present(s: State, b: Bytes)
  {
    || (exists k :: k in s.cache && s.cache[k] == b)
    || (exists f :: f in s.flights && PopulationHolds(s.flights[f].population, b))
    || (exists c :: c in s.callers && PhaseHolds(s.callers[c].phase, b))
  }

  // The bytes that a step makes, if it makes any: what the backend answered, for the asset
  // and the request of the caller that asked.
  function MadeBy(s: State, step: Step): (r: Option<Bytes>)
    requires Enabled(s, step)
  {
    match step
    case Route(f, d, content) =>
      var owner := s.callers[s.flights[f].owner];
      Some(Bytes(content, owner.digest, owner.request, d))
    case RouteAgain(c, d, content) => Some(Bytes(content, s.callers[c].digest, s.callers[c].request, d))
    case _ => None
  }

  lemma RoutingMakesOnlyThat(s: State, step: Step, b: Bytes)
    requires Enabled(s, step) && RegistrationsExist(s) && (step.Route? || step.RouteAgain?)
    requires Present(Apply(s, step), b) && MadeBy(s, step) != Some(b)
    ensures Present(s, b)
  {}

  lemma StoringMakesNothing(s: State, step: Step, b: Bytes)
    requires Enabled(s, step) && RegistrationsExist(s) && (step.Store? || step.Evict?)
    requires Present(Apply(s, step), b)
    ensures Present(s, b)
  {
    if step.Store? { assert PopulationHolds(s.flights[step.f].population, s.flights[step.f].population.bytes); }
  }

  lemma HittingMakesNothing(s: State, c: CallerId, b: Bytes)
    requires Enabled(s, CacheHit(c)) && RegistrationsExist(s) && Present(Apply(s, CacheHit(c)), b)
    ensures Present(s, b)
  {}

  lemma StoringAgainMakesNothing(s: State, c: CallerId, kept: bool, b: Bytes)
    requires Enabled(s, StoreAgain(c, kept)) && RegistrationsExist(s) && Present(Apply(s, StoreAgain(c, kept)), b)
    ensures Present(s, b)
  {
    assert PhaseHolds(s.callers[c].phase, s.callers[c].phase.bytes);
  }

  lemma JoiningMakesNothing(s: State, step: Step, b: Bytes)
    requires Enabled(s, step) && RegistrationsExist(s)
    requires step.Join? || step.Close? || step.CancelWait? || step.Break?
    requires Present(Apply(s, step), b)
    ensures Present(s, b)
  {}

  lemma WakingMakesNothing(s: State, c: CallerId, b: Bytes)
    requires Enabled(s, Wake(c)) && RegistrationsExist(s) && Present(Apply(s, Wake(c)), b)
    ensures Present(s, b)
  {
    var f := s.callers[c].phase.f;
    if s.flights[f].population.Completed? {
      assert PopulationHolds(s.flights[f].population, s.flights[f].population.shared.encoded);
    }
  }

  lemma MovingMakesNothing(s: State, c: CallerId, p: Phase, b: Bytes)
    requires c in s.callers && Present(Move(s, c, p), b)
    ensures Present(s, b) || PhaseHolds(p, b)
  {}

  lemma CoreMakesNothing(s: State, s': State, b: Bytes)
    requires SameCore(s, s') && s'.cache == s.cache && Present(s', b)
    ensures Present(s, b)
  {}

  lemma ReleasingMakesNothing(s: State, c: CallerId, survives: bool, b: Bytes)
    requires MayLeave(s, c) && Present(LeaveFlight(s, c, survives), b)
    ensures Present(s, b)
  {
    var got, s1 := s.callers[c].phase.got, ReleaseFlight(s, s.callers[c].phase.f);
    ReleaseIsCore(s, s.callers[c].phase.f);
    if got.Some? && got.value.encoded == b {
      assert PhaseHolds(s.callers[c].phase, b);
    } else {
      MovingMakesNothing(s1, c, LeaveFlight(s, c, survives).callers[c].phase, b);
      CoreMakesNothing(s, s1, b);
    }
  }

  lemma FinishingMakesNothing(s: State, step: Step, b: Bytes)
    requires Enabled(s, step) && RegistrationsExist(s)
    requires step.CacheMiss? || step.Check? || step.Finish? || step.Abandon?
    requires Present(Apply(s, step), b)
    ensures Present(s, b)
  {
    if step.Check? || step.Finish? {
      assert PhaseHolds(s.callers[step.c].phase, s.callers[step.c].phase.shared.encoded);
    }
  }

  lemma StepMakesOnlyThat(s: State, step: Step, b: Bytes)
    requires Enabled(s, step) && RegistrationsExist(s) && Present(Apply(s, step), b) && MadeBy(s, step) != Some(b)
    ensures Present(s, b)
  {
    if step.Route? || step.RouteAgain? {
      RoutingMakesOnlyThat(s, step, b);
    } else if step.Store? || step.Evict? {
      StoringMakesNothing(s, step, b);
    } else if step.StoreAgain? {
      StoringAgainMakesNothing(s, step.c, step.kept, b);
    } else if step.CacheHit? {
      HittingMakesNothing(s, step.c, b);
    } else if step.Release? {
      ReleasingMakesNothing(s, step.c, step.survives, b);
    } else if step.Wake? {
      WakingMakesNothing(s, step.c, b);
    } else if step.CacheMiss? || step.Check? || step.Finish? || step.Abandon? {
      FinishingMakesNothing(s, step, b);
    } else {
      JoiningMakesNothing(s, step, b);
    }
  }

  predicate MadeAt(states: seq<State>, steps: seq<Step>, j: int, b: Bytes)
    requires |states| == |steps| + 1
  {
    0 <= j < |steps| && Enabled(states[j], steps[j]) && MadeBy(states[j], steps[j]) == Some(b)
  }

  // No bytes come from nowhere: whatever a state of a run holds was in the cache at the
  // start or was answered by a backend in an earlier step, for the asset and the request of
  // the caller that asked, and has not been changed since.
  lemma {:induction false} BytesHaveAnOrigin(states: seq<State>, steps: seq<Step>, i: nat, b: Bytes)
    requires IsRun(states, steps) && i < |states| && Present(states[i], b)
    ensures (exists k :: k in states[0].cache && states[0].cache[k] == b)
         || (exists j :: j < i && MadeAt(states, steps, j, b))
  {
    if 0 < i {
      RunStep(states, steps, i - 1);
      if MadeBy(states[i - 1], steps[i - 1]) == Some(b) {
        assert MadeAt(states, steps, i - 1, b);
      } else {
        StepMakesOnlyThat(states[i - 1], steps[i - 1], b);
        BytesHaveAnOrigin(states, steps, i - 1, b);
      }
    }
  }

  lemma OutcomeHasAnOrigin(states: seq<State>, steps: seq<Step>, i: nat, c: CallerId)
    requires IsRun(states, steps) && i < |states| && c in states[i].callers && states[i].callers[c].phase.Done?
    ensures var b := states[i].callers[c].phase.outcome.encoded;
      || (exists k :: k in states[0].cache && states[0].cache[k] == b)
      || (exists j :: j < i && MadeAt(states, steps, j, b))
  {
    assert PhaseHolds(states[i].callers[c].phase, states[i].callers[c].phase.outcome.encoded);
    BytesHaveAnOrigin(states, steps, i, states[i].callers[c].phase.outcome.encoded);
  }

  // What is kept, and may be, can be served: a caller that then arrives for the producer's
  // key is allowed a cache hit.
  lemma KeptCanBeHit(s: State, step: Step, c: CallerId)
    requires Enabled(s, step) && RegistrationsExist(s)
    requires (step.Store? && step.kept) || (step.StoreAgain? && step.kept && step.c != c)
    requires c in s.callers && s.callers[c].Wellformed() && s.callers[c].phase.Arriving?
    requires var b := if step.Store? then s.flights[step.f].population.bytes else s.callers[step.c].phase.bytes;
      s.callers[c].CacheKey() == Origin(b) && (s.durable && b.producer.modelId.Some? ==> b.producer.modelRevision.Some?)
    ensures Enabled(Apply(s, step), CacheHit(c))
  {}

  /******* The re-check is needed *******/

  // Two callers share a population that falls back: the one that did not route it is handed
  // bytes whose key is not its own.
  function Sharer(first: Descriptor, second: Descriptor, phase: Phase): (r: Caller)
  {
    Caller("", 0, [first, second], phase, None, None)
  }

  lemma BothJoin(first: Descriptor, second: Descriptor) returns (states: seq<State>, steps: seq<Step>)
    ensures IsRun(states, steps) && |steps| == 4
    ensures var c := Sharer(first, second, Waiting(0));
      states[4] == State(map[0 := c.(started := Some(0)), 1 := c],
                         map[0 := Flight(c.CacheKey(), 0, Running, 2, false)],
                         map[c.CacheKey() := 0], false, map[], false)
  {
    var c := Sharer(first, second, Arriving);
    var s0 := State(map[0 := c, 1 := c], map[], map[], false, map[], false);
    var s1 := Apply(s0, CacheMiss(0));
    var s2 := Apply(s1, CacheMiss(1));
    var s3 := Apply(s2, Join(0, 0));
    var s4 := Apply(s3, Join(1, 1));
    states, steps := [s0, s1, s2, s3, s4], [CacheMiss(0), CacheMiss(1), Join(0, 0), Join(1, 1)];
    assert s4.flights[0] == Flight(c.CacheKey(), 0, Running, 2, false);
  }

  lemma ExtendRun(states: seq<State>, steps: seq<Step>, step: Step)
    requires IsRun(states, steps) && RegistrationsExist(states[|steps|]) && Enabled(states[|steps|], step)
    ensures IsRun(states + [Apply(states[|steps|], step)], steps + [step])
  {
    var states', steps' := states + [Apply(states[|steps|], step)], steps + [step];
    forall i | 0 <= i < |steps'|
      ensures NextAt(states', steps', i)
    {
      if i < |steps| { RunStep(states, steps, i); }
    }
  }

  lemma BothShare(first: Descriptor, second: Descriptor) returns (states: seq<State>, steps: seq<Step>)
    ensures IsRun(states, steps) && |steps| == 6
    ensures var c := Sharer(first, second, Waiting(0));
      var b := Bytes(0, "", 0, second);
      states[6] == State(map[0 := c.(started := Some(0), routed := Some(second)), 1 := c],
                         map[0 := Flight(c.CacheKey(), 0, Completed(Shared(b, Origin(b))), 2, false)],
                         map[c.CacheKey() := 0], false, map[], false)
  {
    states, steps := BothJoin(first, second);
    ExtendRun(states, steps, Route(0, second, 0));
    states, steps := states + [Apply(states[4], Route(0, second, 0))], steps + [Route(0, second, 0)];
    ExtendRun(states, steps, Store(0, false));
    states, steps := states + [Apply(states[5], Store(0, false))], steps + [Store(0, false)];
  }

  // So there is a run in which a waiter is about to check bytes of another key, with nothing
  // routed of its own: crediting its first candidate there would be false.
  lemma RecheckIsReached(first: Descriptor, second: Descriptor) returns (states: seq<State>, steps: seq<Step>)
    requires KeyOf("", 0, first) != KeyOf("", 0, second)
    ensures IsRun(states, steps) && |steps| == 8 && 1 in states[8].callers
    ensures var me := states[8].callers[1];
      me.Wellformed() && me.phase.Checking? && me.routed.None? && me.phase.shared.producedKey != me.CacheKey()
  {
    states, steps := BothShare(first, second);
    ExtendRun(states, steps, Wake(1));
    states, steps := states + [Apply(states[6], Wake(1))], steps + [Wake(1)];
    ExtendRun(states, steps, Release(1, true));
    states, steps := states + [Apply(states[7], Release(1, true))], steps + [Release(1, true)];
  }
}
