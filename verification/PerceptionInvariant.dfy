// Every step of the perception protocol keeps its invariant.
module PerceptionInvariant {
  import opened JsonValues
  import opened PerceptionProtocol

  function WithCaller(s: State, c: CallerId, me: Caller): (r: State)
  {
    s.(callers := s.callers[c := me])
  }

  predicate SameIdentity(a: Caller, b: Caller)
  {
    a.digest == b.digest && a.request == b.request && a.candidates == b.candidates
  }

  // A caller may move on as long as it holds the same flight and its first route, if any,
  // comes after every flight it owns.
  ghost predicate MayMove(s: State, c: CallerId, me: Caller)
  {
    && c in s.callers && SameIdentity(me, s.callers[c]) && !s.callers[c].phase.Failed?
    && me.started == s.callers[c].started
    && (forall f :: Holding(me.phase, f) <==> Holding(s.callers[c].phase, f))
    && (me.routed == s.callers[c].routed || (s.callers[c].phase.Repopulating? && s.callers[c].routed.None?))
    && CallerIsTrue(WithCaller(s, c, me), c)
  }

  lemma MoveKeepsCallers(s: State, c: CallerId, me: Caller)
    requires Inv(s) && MayMove(s, c, me)
    ensures forall d :: d in s.callers ==> CallerIsTrue(WithCaller(s, c, me), d)
  {
    forall d | d in s.callers
      ensures CallerIsTrue(WithCaller(s, c, me), d)
    {
      assert CallerIsTrue(s, d);
    }
  }

  lemma MoveKeepsFlights(s: State, c: CallerId, me: Caller)
    requires Inv(s) && MayMove(s, c, me)
    ensures forall f :: f in s.flights ==> FlightIsTrue(WithCaller(s, c, me), f) && OwnerWaits(WithCaller(s, c, me), f)
  {
    var s' := WithCaller(s, c, me);
    assert CallerIsTrue(s', c);
    forall f | f in s.flights
      ensures FlightIsTrue(s', f) && OwnerWaits(s', f)
    {
      assert FlightIsTrue(s, f) && OwnerWaits(s, f);
      assert Holding(me.phase, f) <==> Holding(s.callers[c].phase, f);
    }
  }

  lemma MoveKeepsInv(s: State, c: CallerId, me: Caller)
    requires Inv(s) && MayMove(s, c, me)
    ensures Inv(WithCaller(s, c, me))
  {
    MoveKeepsCallers(s, c, me);
    MoveKeepsFlights(s, c, me);
    assert forall f :: f in s.flights ==> Holders(WithCaller(s, c, me).callers, f) == Holders(s.callers, f);
  }

  // Nothing but waiter counts, cancellations, registrations and the cache differ.
  predicate SameCore(s: State, s': State)
  {
    && s'.callers == s.callers && s'.flights.Keys == s.flights.Keys
    && forall g :: g in s.flights ==>
         && s'.flights[g].key == s.flights[g].key
         && s'.flights[g].owner == s.flights[g].owner
         && s'.flights[g].population == s.flights[g].population
  }

  lemma CoreKeepsFlight(s: State, s': State, g: FlightId)
    requires SameCore(s, s') && g in s.flights && FlightIsTrue(s, g) && OwnerWaits(s, g)
    ensures FlightIsTrue(s', g) && OwnerWaits(s', g)
  {}

  lemma CoreKeepsCaller(s: State, s': State, d: CallerId)
    requires SameCore(s, s') && d in s.callers && CallerIsTrue(s, d)
    ensures CallerIsTrue(s', d)
  {}

  lemma RememberKeepsInv(s: State, kept: bool, b: Bytes)
    requires Inv(s)
    ensures Inv(Remember(s, kept, b))
  {
    var s' := Remember(s, kept, b);
    assert CacheIsTrue(s');
    SameButCache(s, s');
  }

  // The cache is no part of what flights and callers are held to.
  lemma SameButCache(s: State, s': State)
    requires Inv(s) && CacheIsTrue(s') && s' == s.(cache := s'.cache)
    ensures Inv(s')
  {
    forall f | f in s.flights { CoreKeepsFlight(s, s', f); }
    forall c | c in s.callers { CoreKeepsCaller(s, s', c); }
    SameRegistry(s, s');
  }

  lemma SameRegistry(s: State, s': State)
    requires RegistryIsTrue(s) && s' == s.(cache := s'.cache)
    ensures RegistryIsTrue(s')
  {
    forall k | k in s.registered ensures RegistrationIsTrue(s', k) { assert RegistrationIsTrue(s, k); }
    forall f | f in s.flights ensures LiveIsRegistered(s', f) { assert LiveIsRegistered(s, f); }
  }

  function WithPopulation(s: State, f: FlightId, p: Population): (r: State)
    requires f in s.flights
  {
    s.(flights := s.flights[f := s.flights[f].(population := p)])
  }

  // A population moves forward: it never runs again and a completed one never changes.
  predicate MayAdvance(s: State, f: FlightId, p: Population)
  {
    && f in s.flights && s.flights[f].Pending() && !p.Running?
    && FlightIsTrue(WithPopulation(s, f, p), f)
  }

  lemma PopulationKeepsFlights(s: State, f: FlightId, p: Population)
    requires Inv(s) && MayAdvance(s, f, p)
    ensures forall g :: g in s.flights ==>
      FlightIsTrue(WithPopulation(s, f, p), g) && OwnerWaits(WithPopulation(s, f, p), g)
  {
    var s' := WithPopulation(s, f, p);
    forall g | g in s.flights
      ensures FlightIsTrue(s', g) && OwnerWaits(s', g)
    {
      assert FlightIsTrue(s, g) && OwnerWaits(s, g);
    }
  }

  lemma PopulationKeepsCallers(s: State, f: FlightId, p: Population)
    requires Inv(s) && MayAdvance(s, f, p)
    ensures forall c :: c in s.callers ==> CallerIsTrue(WithPopulation(s, f, p), c)
  {
    forall c | c in s.callers
      ensures CallerIsTrue(WithPopulation(s, f, p), c)
    {
      assert CallerIsTrue(s, c);
    }
  }

  lemma PopulationKeepsRegistry(s: State, f: FlightId, p: Population)
    requires RegistryIsTrue(s) && MayAdvance(s, f, p)
    ensures RegistryIsTrue(WithPopulation(s, f, p))
  {}

  lemma PopulationKeepsInv(s: State, f: FlightId, p: Population)
    requires Inv(s) && MayAdvance(s, f, p)
    ensures Inv(WithPopulation(s, f, p))
  {
    PopulationKeepsFlights(s, f, p);
    PopulationKeepsCallers(s, f, p);
    PopulationKeepsRegistry(s, f, p);
  }

  lemma CacheHitMayMove(s: State, c: CallerId)
    requires RegistrationsExist(s) && Enabled(s, CacheHit(c)) && CallerIsTrue(s, c) && CacheIsTrue(s)
    ensures var s' := Apply(s, CacheHit(c));
      c in s'.callers && MayMove(s, c, s'.callers[c]) && s' == WithCaller(s, c, s'.callers[c])
  {}

  lemma CacheMissMayMove(s: State, c: CallerId)
    requires RegistrationsExist(s) && Enabled(s, CacheMiss(c)) && CallerIsTrue(s, c)
    ensures var s' := Apply(s, CacheMiss(c));
      c in s'.callers && MayMove(s, c, s'.callers[c]) && s' == WithCaller(s, c, s'.callers[c])
  {}

  lemma WokenMayMove(s: State, c: CallerId)
    requires Enabled(s, Wake(c)) && CallerIsTrue(s, c)
    ensures var f := s.callers[c].phase.f;
      var p := s.flights[f].population;
      MayMove(s, c, s.callers[c].(phase := Releasing(f, if p.Completed? then Some(p.shared) else None)))
  {}

  lemma CancelWaitMayMove(s: State, c: CallerId)
    requires RegistrationsExist(s) && Enabled(s, CancelWait(c)) && CallerIsTrue(s, c)
    ensures var s' := Apply(s, CancelWait(c));
      c in s'.callers && MayMove(s, c, s'.callers[c]) && s' == WithCaller(s, c, s'.callers[c])
  {}

  // The re-check is what makes the next phase true: a waiter goes on to credit its first
  // candidate only with bytes of that candidate's key.
  lemma CheckedMayMove(s: State, c: CallerId)
    requires Enabled(s, Check(c)) && CallerIsTrue(s, c)
    requires s.callers[c].phase.f in s.flights && FlightIsTrue(s, s.callers[c].phase.f)
    ensures var me := s.callers[c];
      MayMove(s, c, me.(phase := if me.routed.None? && me.phase.shared.producedKey != me.CacheKey()
                                 then Repopulating else Finishing(me.phase.shared)))
  {}

  lemma RouteAgainMayMove(s: State, c: CallerId, d: Descriptor, content: nat)
    requires RegistrationsExist(s) && Enabled(s, RouteAgain(c, d, content)) && CallerIsTrue(s, c)
    ensures var s' := Apply(s, RouteAgain(c, d, content));
      c in s'.callers && MayMove(s, c, s'.callers[c]) && s' == WithCaller(s, c, s'.callers[c])
  {}

  lemma FinishMayMove(s: State, c: CallerId)
    requires RegistrationsExist(s) && Enabled(s, Finish(c)) && CallerIsTrue(s, c)
    ensures var s' := Apply(s, Finish(c));
      c in s'.callers && MayMove(s, c, s'.callers[c]) && s' == WithCaller(s, c, s'.callers[c])
  {}

  lemma AbandonMayMove(s: State, c: CallerId)
    requires RegistrationsExist(s) && Enabled(s, Abandon(c)) && CallerIsTrue(s, c)
    ensures var s' := Apply(s, Abandon(c));
      c in s'.callers && MayMove(s, c, s'.callers[c]) && s' == WithCaller(s, c, s'.callers[c])
  {}

  // Steps in which one caller moves on and nothing else changes.
  predicate Moves(step: Step, c: CallerId)
  {
    match step
    case CacheHit(d) => c == d
    case CacheMiss(d) => c == d
    case Wake(d) => c == d
    case CancelWait(d) => c == d
    case Check(d) => c == d
    case RouteAgain(d, _, _) => c == d
    case Finish(d) => c == d
    case Abandon(d) => c == d
    case _ => false
  }

  lemma MovesAlone(s: State, step: Step, c: CallerId)
    requires Inv(s) && Enabled(s, step) && Moves(step, c)
    ensures c in Apply(s, step).callers
    ensures MayMove(s, c, Apply(s, step).callers[c]) && Apply(s, step) == WithCaller(s, c, Apply(s, step).callers[c])
  {
    assert CallerIsTrue(s, c);
    match step
    case CacheHit(_) => CacheHitMayMove(s, c);
    case CacheMiss(_) => CacheMissMayMove(s, c);
    case Wake(_) => WokenMayMove(s, c);
    case CancelWait(_) => CancelWaitMayMove(s, c);
    case _ => LaterMovesAlone(s, step, c);
  }

  lemma LaterMovesAlone(s: State, step: Step, c: CallerId)
    requires Inv(s) && Enabled(s, step) && Moves(step, c)
    requires step.Check? || step.RouteAgain? || step.Finish? || step.Abandon?
    ensures c in Apply(s, step).callers
    ensures MayMove(s, c, Apply(s, step).callers[c]) && Apply(s, step) == WithCaller(s, c, Apply(s, step).callers[c])
  {
    assert CallerIsTrue(s, c);
    match step
    case Check(_) => CheckedMayMove(s, c);
    case RouteAgain(_, d, content) => RouteAgainMayMove(s, c, d, content);
    case Finish(_) => FinishMayMove(s, c);
    case Abandon(_) => AbandonMayMove(s, c);
  }

  lemma MovingStepKeepsInv(s: State, step: Step, c: CallerId)
    requires Inv(s) && Enabled(s, step) && Moves(step, c)
    ensures Inv(Apply(s, step))
  {
    MovesAlone(s, step, c);
    MoveKeepsInv(s, c, Apply(s, step).callers[c]);
  }

  lemma StoreAgainKeepsInv(s: State, c: CallerId, kept: bool)
    requires Inv(s) && Enabled(s, StoreAgain(c, kept))
    ensures Inv(Apply(s, StoreAgain(c, kept)))
  {
    var me := s.callers[c];
    var b := me.phase.bytes;
    RememberKeepsInv(s, kept, b);
    StoredMayMove(Remember(s, kept, b), c);
    MoveKeepsInv(Remember(s, kept, b), c, me.(phase := Finishing(Shared(b, Origin(b)))));
  }

  lemma StoredMayMove(s: State, c: CallerId)
    requires Inv(s) && c in s.callers && s.callers[c].phase.Storing?
    ensures var b := s.callers[c].phase.bytes;
      MayMove(s, c, s.callers[c].(phase := Finishing(Shared(b, Origin(b)))))
  {
    assert CallerIsTrue(s, c);
  }

  lemma RoutedMayComplete(s: State, f: FlightId)
    requires f in s.flights && s.flights[f].population.Routed? && FlightIsTrue(s, f)
    ensures var b := s.flights[f].population.bytes; MayAdvance(s, f, Completed(Shared(b, Origin(b))))
  {}

  lemma StoreKeepsInv(s: State, f: FlightId, kept: bool)
    requires Inv(s) && Enabled(s, Store(f, kept))
    ensures Inv(Apply(s, Store(f, kept)))
  {
    var b := s.flights[f].population.bytes;
    RememberKeepsInv(s, kept, b);
    RoutedMayComplete(Remember(s, kept, b), f);
    PopulationKeepsInv(Remember(s, kept, b), f, Completed(Shared(b, Origin(b))));
  }

  lemma BreakKeepsInv(s: State, f: FlightId)
    requires Inv(s) && Enabled(s, Break(f))
    ensures Inv(Apply(s, Break(f)))
  {
    assert FlightIsTrue(s, f);
    PopulationKeepsInv(s, f, Broken);
  }

  // Routing touches no caller but the flight's owner, who still waits.
  lemma RouteKeepsOther(s: State, f: FlightId, d: Descriptor, content: nat, c: CallerId)
    requires RegistrationsExist(s) && Enabled(s, Route(f, d, content)) && c in s.callers && c != s.flights[f].owner
    requires CallerIsTrue(s, c)
    ensures CallerIsTrue(Apply(s, Route(f, d, content)), c)
  {}

  lemma RouteKeepsOwner(s: State, f: FlightId, d: Descriptor, content: nat)
    requires RegistrationsExist(s) && Enabled(s, Route(f, d, content))
    requires FlightIsTrue(s, f) && OwnerWaits(s, f) && CallerIsTrue(s, s.flights[f].owner)
    ensures CallerIsTrue(Apply(s, Route(f, d, content)), s.flights[f].owner)
  {}

  lemma RouteKeepsCallers(s: State, f: FlightId, d: Descriptor, content: nat, c: CallerId)
    requires Inv(s) && Enabled(s, Route(f, d, content)) && c in s.callers
    ensures CallerIsTrue(Apply(s, Route(f, d, content)), c)
  {
    assert OwnerWaits(s, f) && FlightIsTrue(s, f) && CallerIsTrue(s, c);
    if c == s.flights[f].owner { RouteKeepsOwner(s, f, d, content); } else { RouteKeepsOther(s, f, d, content, c); }
  }

  lemma RouteKeepsHolders(s: State, f: FlightId, d: Descriptor, content: nat, g: FlightId)
    requires RegistrationsExist(s) && Enabled(s, Route(f, d, content))
    ensures Holders(Apply(s, Route(f, d, content)).callers, g) == Holders(s.callers, g)
  {}

  lemma RouteKeepsRegistry(s: State, f: FlightId, d: Descriptor, content: nat)
    requires RegistryIsTrue(s) && Enabled(s, Route(f, d, content))
    ensures RegistryIsTrue(Apply(s, Route(f, d, content)))
  {
    var s' := Apply(s, Route(f, d, content));
    forall k | k in s'.registered
      ensures RegistrationIsTrue(s', k)
    {
      assert RegistrationIsTrue(s, k);
      RouteKeepsHolders(s, f, d, content, s.registered[k]);
    }
    forall g | g in s'.flights
      ensures LiveIsRegistered(s', g)
    {
      assert LiveIsRegistered(s, g);
    }
  }

  lemma RouteKeepsInv(s: State, f: FlightId, d: Descriptor, content: nat)
    requires Inv(s) && Enabled(s, Route(f, d, content))
    ensures Inv(Apply(s, Route(f, d, content)))
  {
    assert forall g :: g in s.flights ==> FlightIsTrue(s, g) && OwnerWaits(s, g);
    forall c | c in s.callers { RouteKeepsCallers(s, f, d, content, c); }
    RouteKeepsRegistry(s, f, d, content);
  }

  lemma EvictKeepsInv(s: State, k: Key)
    requires Inv(s)
    ensures Inv(Apply(s, Evict(k)))
  {}

  lemma CloseIsCore(s: State)
    requires Enabled(s, Close) && RegistrationsExist(s)
    ensures SameCore(s, Apply(s, Close))
  {}

  lemma CloseKeepsRegistry(s: State)
    requires RegistryIsTrue(s) && Enabled(s, Close)
    ensures RegistryIsTrue(Apply(s, Close))
  {
    forall f | f in s.flights
      ensures LiveIsRegistered(Apply(s, Close), f)
    {
      assert LiveIsRegistered(s, f);
    }
  }

  lemma CloseKeepsInv(s: State)
    requires Inv(s) && Enabled(s, Close)
    ensures Inv(Apply(s, Close))
  {
    CloseIsCore(s);
    forall f | f in s.flights { CoreKeepsFlight(s, Apply(s, Close), f); }
    forall c | c in s.callers { CoreKeepsCaller(s, Apply(s, Close), c); }
    CloseKeepsRegistry(s);
  }

  /******* Joining and releasing a flight *******/

  lemma HeldFlightsExist(s: State, f: FlightId)
    requires Inv(s) && f !in s.flights
    ensures Holders(s.callers, f) == {}
  {
    forall c | c in s.callers
      ensures !Holding(s.callers[c].phase, f)
    {
      assert CallerIsTrue(s, c);
    }
  }

  lemma JoinKeepsFlight(s: State, c: CallerId, newFlight: FlightId, g: FlightId)
    requires RegistrationsExist(s) && MayJoin(s, c, newFlight) && CallerIsTrue(s, c)
    requires g in s.flights && FlightIsTrue(s, g) && OwnerWaits(s, g)
    ensures FlightIsTrue(JoinFlight(s, c, newFlight), g) && OwnerWaits(JoinFlight(s, c, newFlight), g)
  {}

  lemma NewFlightIsTrue(s: State, c: CallerId, newFlight: FlightId)
    requires RegistrationsExist(s) && MayJoin(s, c, newFlight) && CallerIsTrue(s, c)
    requires newFlight in JoinFlight(s, c, newFlight).flights
    ensures FlightIsTrue(JoinFlight(s, c, newFlight), newFlight)
    ensures OwnerWaits(JoinFlight(s, c, newFlight), newFlight)
  {}

  lemma JoinMovesCaller(s: State, c: CallerId, newFlight: FlightId)
    requires RegistrationsExist(s) && MayJoin(s, c, newFlight) && CallerIsTrue(s, c)
    requires forall k :: k in s.registered ==> s.flights[s.registered[k]].key == k
    ensures CallerIsTrue(JoinFlight(s, c, newFlight), c)
  {}

  lemma JoinKeepsOther(s: State, c: CallerId, newFlight: FlightId, d: CallerId)
    requires RegistrationsExist(s) && MayJoin(s, c, newFlight) && c != d
    requires d in s.callers && CallerIsTrue(s, d)
    ensures CallerIsTrue(JoinFlight(s, c, newFlight), d)
  {
    var s' := JoinFlight(s, c, newFlight);
    assert s'.callers[d] == s.callers[d];
  }

  lemma JoinKeepsCaller(s: State, c: CallerId, newFlight: FlightId, d: CallerId)
    requires RegistrationsExist(s) && MayJoin(s, c, newFlight) && CallerIsTrue(s, c)
    requires forall k :: k in s.registered ==> s.flights[s.registered[k]].key == k
    requires d in s.callers && CallerIsTrue(s, d)
    ensures d in JoinFlight(s, c, newFlight).callers && CallerIsTrue(JoinFlight(s, c, newFlight), d)
  {
    if c == d { JoinMovesCaller(s, c, newFlight); } else { JoinKeepsOther(s, c, newFlight, d); }
  }

  lemma JoinKeepsHolders(s: State, c: CallerId, newFlight: FlightId, g: FlightId)
    requires RegistrationsExist(s) && MayJoin(s, c, newFlight)
    ensures var s' := JoinFlight(s, c, newFlight);
      && Holders(s'.callers, g)
        == (if Holding(s'.callers[c].phase, g) then Holders(s.callers, g) + {c} else Holders(s.callers, g))
      && c !in Holders(s.callers, g)
  {}

  lemma JoinKeepsRegistration(s: State, c: CallerId, newFlight: FlightId, k: Key)
    requires RegistrationsExist(s) && MayJoin(s, c, newFlight) && Holders(s.callers, newFlight) == {}
    requires k in JoinFlight(s, c, newFlight).registered
    requires k in s.registered ==> RegistrationIsTrue(s, k)
    requires s.callers[c].CacheKey() in s.registered ==> RegistrationIsTrue(s, s.callers[c].CacheKey())
    ensures RegistrationIsTrue(JoinFlight(s, c, newFlight), k)
  {
    JoinKeepsHolders(s, c, newFlight, JoinFlight(s, c, newFlight).registered[k]);
  }

  lemma JoinKeepsRegistry(s: State, c: CallerId, newFlight: FlightId)
    requires RegistryIsTrue(s) && MayJoin(s, c, newFlight) && Holders(s.callers, newFlight) == {}
    ensures RegistryIsTrue(JoinFlight(s, c, newFlight))
  {
    var s' := JoinFlight(s, c, newFlight);
    forall k | k in s'.registered { JoinKeepsRegistration(s, c, newFlight, k); }
    forall f | f in s'.flights ensures LiveIsRegistered(s', f)
    {
      if f in s.flights { assert LiveIsRegistered(s, f); }
    }
  }

  lemma JoinKeepsInv(s: State, c: CallerId, newFlight: FlightId)
    requires Inv(s) && MayJoin(s, c, newFlight)
    ensures Inv(JoinFlight(s, c, newFlight))
  {
    var s' := JoinFlight(s, c, newFlight);
    forall g | g in s'.flights
      ensures FlightIsTrue(s', g) && OwnerWaits(s', g)
    {
      if g in s.flights { JoinKeepsFlight(s, c, newFlight, g); } else { NewFlightIsTrue(s, c, newFlight); }
    }
    forall d | d in s.callers
      ensures CallerIsTrue(s', d)
    {
      JoinKeepsCaller(s, c, newFlight, d);
    }
    HeldFlightsExist(s, newFlight);
    JoinKeepsRegistry(s, c, newFlight);
  }

  // Where a caller goes when it lets go of its flight.
  predicate LeavesFor(s: State, c: CallerId, p: Phase)
  {
    && MayLeave(s, c)
    && (p.Failed?
        || (s.callers[c].phase.got.Some? && p == Checking(s.callers[c].phase.f, s.callers[c].phase.got.value)))
  }

  lemma ReleaseKeepsHolders(s: State, c: CallerId, survives: bool, g: FlightId)
    requires MayLeave(s, c)
    ensures Holders(LeaveFlight(s, c, survives).callers, g)
         == if g == s.callers[c].phase.f then Holders(s.callers, g) - {c} else Holders(s.callers, g)
    ensures c in Holders(s.callers, s.callers[c].phase.f)
  {}

  lemma OneFewer<T>(a: set<T>, x: T)
    requires x in a
    ensures |a - {x}| == |a| - 1
  {}

  lemma ReleaseKeepsRegistration(s: State, c: CallerId, survives: bool, k: Key)
    requires MayLeave(s, c) && RegistryIsTrue(s) && k in LeaveFlight(s, c, survives).registered
    ensures RegistrationIsTrue(LeaveFlight(s, c, survives), k)
  {
    var f, g := s.callers[c].phase.f, s.registered[k];
    assert RegistrationIsTrue(s, k);
    ReleaseKeepsHolders(s, c, survives, g);
    if g == f {
      OneFewer(Holders(s.callers, f), c);
      ReleasedOnce(s, f);
    } else if s.flights[f].key in s.registered && s.registered[s.flights[f].key] == f {
      assert RegistrationIsTrue(s, s.flights[f].key);
    }
  }

  lemma ReleasedOnce(s: State, f: FlightId)
    requires f in s.flights && s.flights[f].key in ReleaseFlight(s, f).registered
    requires s.flights[f].key in s.registered && s.registered[s.flights[f].key] == f
    ensures ReleaseFlight(s, f) == s.(flights := s.flights[f := s.flights[f].(waiters := s.flights[f].waiters - 1)])
    ensures s.flights[f].waiters != 1
  {}

  lemma ReleaseKeepsLive(s: State, c: CallerId, survives: bool, f: FlightId)
    requires MayLeave(s, c) && RegistryIsTrue(s) && f in s.flights
    ensures LiveIsRegistered(LeaveFlight(s, c, survives), f)
  {
    assert LiveIsRegistered(s, f);
  }

  lemma ReleaseKeepsRegistry(s: State, c: CallerId, survives: bool)
    requires MayLeave(s, c) && RegistryIsTrue(s)
    ensures RegistryIsTrue(LeaveFlight(s, c, survives))
  {
    var s' := LeaveFlight(s, c, survives);
    forall k | k in s'.registered { ReleaseKeepsRegistration(s, c, survives, k); }
    forall f | f in s'.flights { ReleaseKeepsLive(s, c, survives, f); }
  }

  lemma ReleaseIsCore(s: State, f: FlightId)
    requires f in s.flights
    ensures SameCore(s, ReleaseFlight(s, f))
  {}

  lemma LeavingSplits(s: State, c: CallerId, survives: bool)
    requires MayLeave(s, c)
    ensures var s1, s' := ReleaseFlight(s, s.callers[c].phase.f), LeaveFlight(s, c, survives);
      && SameCore(s, s1) && s' == Move(s1, c, s'.callers[c].phase) && LeavesFor(s1, c, s'.callers[c].phase)
  {
    ReleaseIsCore(s, s.callers[c].phase.f);
  }

  lemma ReleaseKeepsFlight(s: State, c: CallerId, survives: bool, g: FlightId)
    requires MayLeave(s, c) && CallerIsTrue(s, c)
    requires g in s.flights && FlightIsTrue(s, g) && OwnerWaits(s, g)
    ensures FlightIsTrue(LeaveFlight(s, c, survives), g) && OwnerWaits(LeaveFlight(s, c, survives), g)
  {
    var s1 := ReleaseFlight(s, s.callers[c].phase.f);
    LeavingSplits(s, c, survives);
    CoreKeepsCaller(s, s1, c);
    CoreKeepsFlight(s, s1, g);
  }

  lemma ReleaseKeepsCaller(s: State, c: CallerId, survives: bool, d: CallerId)
    requires MayLeave(s, c) && CallerIsTrue(s, c)
    requires d in s.callers && CallerIsTrue(s, d)
    ensures CallerIsTrue(LeaveFlight(s, c, survives), d)
  {
    var s1 := ReleaseFlight(s, s.callers[c].phase.f);
    LeavingSplits(s, c, survives);
    CoreKeepsCaller(s, s1, c);
    CoreKeepsCaller(s, s1, d);
  }

  lemma ReleaseKeepsInv(s: State, c: CallerId, survives: bool)
    requires Inv(s) && MayLeave(s, c)
    ensures Inv(LeaveFlight(s, c, survives))
  {
    forall g | g in s.flights { ReleaseKeepsFlight(s, c, survives, g); }
    forall d | d in s.callers { ReleaseKeepsCaller(s, c, survives, d); }
    ReleaseKeepsRegistry(s, c, survives);
    ReleaseKeepsCache(s, c, survives);
  }

  lemma ReleaseKeepsCache(s: State, c: CallerId, survives: bool)
    requires MayLeave(s, c) && CacheIsTrue(s)
    ensures var s' := LeaveFlight(s, c, survives);
      CacheIsTrue(s') && s'.callers.Keys == s.callers.Keys && s'.flights.Keys == s.flights.Keys
  {}

  // The steps of a population, those of a caller with the coordinator or the cache, and the
  // rest.
  lemma StepKeepsInv(s: State, step: Step)
    requires Inv(s) && Enabled(s, step)
    ensures Inv(Apply(s, step))
  {
    match step
    case Route(f, d, content) => RouteKeepsInv(s, f, d, content);
    case Store(f, kept) => StoreKeepsInv(s, f, kept);
    case Break(f) => BreakKeepsInv(s, f);
    case _ => CallerStepKeepsInv(s, step);
  }

  lemma CallerStepKeepsInv(s: State, step: Step)
    requires Inv(s) && Enabled(s, step) && !step.Route? && !step.Store? && !step.Break?
    ensures Inv(Apply(s, step))
  {
    match step
    case Join(c, newFlight) => JoinKeepsInv(s, c, newFlight);
    case Release(c, survives) => ReleaseKeepsInv(s, c, survives);
    case StoreAgain(c, kept) => StoreAgainKeepsInv(s, c, kept);
    case _ => OtherStepKeepsInv(s, step);
  }

  lemma OtherStepKeepsInv(s: State, step: Step)
    requires Inv(s) && Enabled(s, step) && !step.Route? && !step.Store? && !step.Break?
    requires !step.Join? && !step.Release? && !step.StoreAgain?
    ensures Inv(Apply(s, step))
  {
    match step
    case Close => CloseKeepsInv(s);
    case Evict(k) => EvictKeepsInv(s, k);
    case _ => MovingStepKeepsInv(s, step, step.c);
  }
}
