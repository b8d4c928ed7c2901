// Concurrent perception: callers that want the same observation share one population, which
// may have fallen back to another backend, and a cache outlives them all. Every atomic
// section between two suspension points is one step; any caller may be cancelled at any
// suspension point, any cache operation may fail and any backend may be the one to answer.
module PerceptionProtocol {
  import opened JsonValues

  type CallerId = nat
  type FlightId = nat

  // `rest` stands for what the key does not cover: capabilities and concurrency.
  datatype Descriptor = Descriptor(name: string, version: string, modelId: Option<string>,
                                   modelRevision: Option<string>, rest: nat)

  // The perception key; hashing its dimensions is taken to be injective.
  datatype Key = Key(digest: string, request: nat, name: string, version: string,
                     modelId: Option<string>, modelRevision: Option<string>)

  function KeyOf(digest: string, request: nat, d: Descriptor): (r: Key)
  {
    Key(digest, request, d.name, d.version, d.modelId, d.modelRevision)
  }

  predicate DurableEligible(d: Descriptor)
  {
    d.modelId.None? || d.modelRevision.Some?
  }

  predicate CacheAllowed(durable: bool, d: Descriptor)
  {
    !durable || DurableEligible(d)
  }

  // Encoded observations. The program sees `content` alone; the other fields record the
  // run that produced it.
  datatype Bytes = Bytes(content: nat, digest: string, request: nat, producer: Descriptor)

  function Origin(b: Bytes): (r: Key)
  {
    KeyOf(b.digest, b.request, b.producer)
  }

  datatype Shared = Shared(encoded: Bytes, producedKey: Key)

  datatype Outcome = Outcome(encoded: Bytes, credited: Descriptor, cacheHit: bool)

  datatype Phase =
    | Arriving
    | Joining
    | Waiting(f: FlightId)
    | Releasing(f: FlightId, got: Option<Shared>)
    | Checking(f: FlightId, shared: Shared)
    | Repopulating
    | Storing(bytes: Bytes)
    | Finishing(shared: Shared)
    | Done(outcome: Outcome)
    | Failed

  // `routed` is the variable the caller's populate closure assigns; `started` names the
  // flight the caller began, if it was the one to begin it.
  datatype Caller = Caller(digest: string, request: nat, candidates: seq<Descriptor>,
                           phase: Phase, routed: Option<Descriptor>, started: Option<FlightId>)
  {
    predicate Wellformed() {
      candidates != []
    }

    function First(): (r: Descriptor)
      requires Wellformed()
    {
      candidates[0]
    }

    function CacheKey(): (r: Key)
      requires Wellformed()
    {
      KeyOf(digest, request, First())
    }
  }

  datatype Population = Running | Routed(bytes: Bytes) | Completed(shared: Shared) | Broken

  datatype Flight = Flight(key: Key, owner: CallerId, population: Population, waiters: int, cancelled: bool)
  {
    predicate Pending() {
      population.Running? || population.Routed?
    }
  }

  datatype State = State(callers: map<CallerId, Caller>, flights: map<FlightId, Flight>,
                         registered: map<Key, FlightId>, closed: bool,
                         cache: map<Key, Bytes>, durable: bool)

  datatype Step =
    | CacheHit(c: CallerId)
    | CacheMiss(c: CallerId)
    | Join(c: CallerId, newFlight: FlightId)
    | Route(f: FlightId, d: Descriptor, content: nat)
    | Store(f: FlightId, kept: bool)
    | Break(f: FlightId)
    | Wake(c: CallerId)
    | CancelWait(c: CallerId)
    | Release(c: CallerId, survives: bool)
    | Check(c: CallerId)
    | RouteAgain(c: CallerId, d: Descriptor, content: nat)
    | StoreAgain(c: CallerId, kept: bool)
    | Finish(c: CallerId)
    | Abandon(c: CallerId)
    | Close
    | Evict(k: Key)

  predicate MayJoin(s: State, c: CallerId, newFlight: FlightId)
  {
    c in s.callers && s.callers[c].Wellformed() && s.callers[c].phase.Joining? && newFlight !in s.flights
  }

  predicate Enabled(s: State, step: Step)
  {
    match step
    case CacheHit(c) =>
      c in s.callers && s.callers[c].Wellformed() && s.callers[c].phase.Arriving?
      && CacheAllowed(s.durable, s.callers[c].First()) && s.callers[c].CacheKey() in s.cache
    case CacheMiss(c) => c in s.callers && s.callers[c].Wellformed() && s.callers[c].phase.Arriving?
    case Join(c, newFlight) => MayJoin(s, c, newFlight)
    case Route(f, d, _) =>
      f in s.flights && s.flights[f].population.Running?
      && s.flights[f].owner in s.callers && d in s.callers[s.flights[f].owner].candidates
    case Store(f, _) => f in s.flights && s.flights[f].population.Routed?
    case Break(f) => f in s.flights && s.flights[f].Pending()
    case Wake(c) =>
      c in s.callers && s.callers[c].phase.Waiting? && s.callers[c].phase.f in s.flights
      && !s.flights[s.callers[c].phase.f].Pending()
    case CancelWait(c) => c in s.callers && s.callers[c].phase.Waiting?
    case Release(c, _) => MayLeave(s, c)
    case Check(c) => c in s.callers && s.callers[c].Wellformed() && s.callers[c].phase.Checking?
    case RouteAgain(c, d, _) =>
      c in s.callers && s.callers[c].phase.Repopulating? && d in s.callers[c].candidates
    case StoreAgain(c, _) => c in s.callers && s.callers[c].phase.Storing?
    case Finish(c) => c in s.callers && s.callers[c].Wellformed() && s.callers[c].phase.Finishing?
    case Abandon(c) =>
      c in s.callers && (var p := s.callers[c].phase;
        p.Arriving? || p.Joining? || p.Checking? || p.Repopulating? || p.Storing? || p.Finishing?)
    case Close => !s.closed
    case Evict(_) => true
  }

  function Move(s: State, c: CallerId, phase: Phase): (r: State)
    requires c in s.callers
  {
    s.(callers := s.callers[c := s.callers[c].(phase := phase)])
  }

  function Remember(s: State, kept: bool, b: Bytes): (r: State)
  {
    if kept && CacheAllowed(s.durable, b.producer) then s.(cache := s.cache[Origin(b) := b]) else s
  }

  // Under the coordinator's lock.
  function ReleaseFlight(s: State, f: FlightId): (r: State)
    requires f in s.flights
  {
    var flight := s.flights[f];
    if flight.key !in s.registered || s.registered[flight.key] != f then s
    else if flight.waiters - 1 != 0 then
      s.(flights := s.flights[f := flight.(waiters := flight.waiters - 1)])
    else
      s.(flights := s.flights[f := flight.(waiters := 0, cancelled := flight.cancelled || flight.Pending())],
         registered := s.registered - {flight.key})
  }

  function JoinFlight(s: State, c: CallerId, newFlight: FlightId): (r: State)
    requires c in s.callers && s.callers[c].Wellformed()
    requires forall k :: k in s.registered ==> s.registered[k] in s.flights
  {
    var key := s.callers[c].CacheKey();
    if s.closed then Move(s, c, Failed)
    else if key in s.registered then
      var f := s.registered[key];
      Move(s.(flights := s.flights[f := s.flights[f].(waiters := s.flights[f].waiters + 1)]), c, Waiting(f))
    else
      s.(flights := s.flights[newFlight := Flight(key, c, Running, 1, false)],
         registered := s.registered[key := newFlight],
         callers := s.callers[c := s.callers[c].(phase := Waiting(newFlight), started := Some(newFlight))])
  }

  predicate MayLeave(s: State, c: CallerId)
  {
    c in s.callers && s.callers[c].phase.Releasing? && s.callers[c].phase.f in s.flights
  }

  function LeaveFlight(s: State, c: CallerId, survives: bool): (r: State)
    requires MayLeave(s, c)
  {
    var p := s.callers[c].phase;
    Move(ReleaseFlight(s, p.f), c, if p.got.Some? && survives then Checking(p.f, p.got.value) else Failed)
  }

  predicate RegistrationsExist(s: State)
  {
    forall k :: k in s.registered ==> s.registered[k] in s.flights
  }

  function Apply(s: State, step: Step): (r: State)
    requires Enabled(s, step) && RegistrationsExist(s)
  {
    match step
    case CacheHit(c) =>
      Move(s, c, Done(Outcome(s.cache[s.callers[c].CacheKey()], s.callers[c].First(), true)))
    case CacheMiss(c) => Move(s, c, Joining)
    case Join(c, newFlight) => JoinFlight(s, c, newFlight)
    case Route(f, d, content) =>
      var flight := s.flights[f];
      var owner := s.callers[flight.owner];
      s.(flights := s.flights[f := flight.(population := Routed(Bytes(content, owner.digest, owner.request, d)))],
         callers := s.callers[flight.owner := owner.(routed := Some(d))])
    case Store(f, kept) =>
      var b := s.flights[f].population.bytes;
      Remember(s, kept, b).(
        flights := s.flights[f := s.flights[f].(population := Completed(Shared(b, Origin(b))))])
    case Break(f) => s.(flights := s.flights[f := s.flights[f].(population := Broken)])
    case Wake(c) =>
      var f := s.callers[c].phase.f;
      var p := s.flights[f].population;
      Move(s, c, Releasing(f, if p.Completed? then Some(p.shared) else None))
    case CancelWait(c) => Move(s, c, Releasing(s.callers[c].phase.f, None))
    case Release(c, survives) => LeaveFlight(s, c, survives)
    case Check(c) =>
      var me := s.callers[c];
      Move(s, c, if me.routed.None? && me.phase.shared.producedKey != me.CacheKey()
                 then Repopulating else Finishing(me.phase.shared))
    case RouteAgain(c, d, content) =>
      var me := s.callers[c];
      s.(callers := s.callers[c := me.(phase := Storing(Bytes(content, me.digest, me.request, d)), routed := Some(d))])
    case StoreAgain(c, kept) =>
      var b := s.callers[c].phase.bytes;
      Move(Remember(s, kept, b), c, Finishing(Shared(b, Origin(b))))
    case Finish(c) =>
      var me := s.callers[c];
      Move(s, c, Done(Outcome(me.phase.shared.encoded,
                              if me.routed.Some? then me.routed.value else me.First(),
                              me.routed.None?)))
    case Abandon(c) => Move(s, c, Failed)
    case Close =>
      s.(closed := true, registered := map[],
         flights := map f | f in s.flights ::
           if s.flights[f].key in s.registered && s.registered[s.flights[f].key] == f
           then s.flights[f].(cancelled := s.flights[f].cancelled || s.flights[f].Pending())
           else s.flights[f])
    case Evict(k) => s.(cache := s.cache - {k})
  }

  // Callers that joined `f` and have not released it.
  function Holders(callers: map<CallerId, Caller>, f: FlightId): (r: set<CallerId>)
  {
    set c | c in callers && Holding(callers[c].phase, f)
  }

  predicate Holding(p: Phase, f: FlightId)
  {
    (p.Waiting? || p.Releasing?) && p.f == f
  }

  /******* Invariant *******/

  predicate CacheIsTrue(s: State)
  {
    forall k :: k in s.cache ==> Origin(s.cache[k]) == k && CacheAllowed(s.durable, s.cache[k].producer)
  }

  // A flight's bytes come from its owner's route, for the asset and request of its key.
  predicate FlightIsTrue(s: State, f: FlightId)
    requires f in s.flights
  {
    var flight := s.flights[f];
    && flight.owner in s.callers
    && s.callers[flight.owner].Wellformed()
    && flight.key == s.callers[flight.owner].CacheKey()
    && s.callers[flight.owner].started == Some(f)
    && (flight.population.Routed? ==> RoutedBy(s, flight.owner, flight.population.bytes))
    && (flight.population.Completed? ==>
          && RoutedBy(s, flight.owner, flight.population.shared.encoded)
          && flight.population.shared.producedKey == Origin(flight.population.shared.encoded))
  }

  predicate RoutedBy(s: State, c: CallerId, b: Bytes)
    requires c in s.callers
  {
    s.callers[c].routed == Some(b.producer) && b.digest == s.callers[c].digest && b.request == s.callers[c].request
  }

  // The flight a caller is concerned with, once it has one.
  function Joined(p: Phase): (r: Option<FlightId>)
  {
    match p
    case Waiting(f) => Some(f)
    case Releasing(f, _) => Some(f)
    case Checking(f, _) => Some(f)
    case _ => None
  }

  function Received(p: Phase): (r: Option<Shared>)
  {
    match p
    case Releasing(_, got) => got
    case Checking(_, shared) => Some(shared)
    case _ => None
  }

  predicate CallerIsTrue(s: State, c: CallerId)
    requires c in s.callers
  {
    var me := s.callers[c];
    && me.Wellformed()
    && (me.phase.Arriving? || me.phase.Joining? || me.phase.Repopulating? ==> me.routed.None?)
    && (me.phase.Arriving? || me.phase.Joining? ==> me.started.None?)
    && (Joined(me.phase).Some? ==>
          && Joined(me.phase).value in s.flights
          && s.flights[Joined(me.phase).value].key == me.CacheKey()
          && (me.routed.Some? ==> s.flights[Joined(me.phase).value].owner == c)
          && (Received(me.phase).Some? ==>
                s.flights[Joined(me.phase).value].population == Completed(Received(me.phase).value)))
    && (me.phase.Storing? ==> RoutedBy(s, c, me.phase.bytes))
    && (me.phase.Finishing? ==>
          if me.routed.Some? then RoutedBy(s, c, me.phase.shared.encoded)
          else Origin(me.phase.shared.encoded) == me.CacheKey())
    && (me.phase.Done? ==>
          && KeyOf(me.digest, me.request, me.phase.outcome.credited) == Origin(me.phase.outcome.encoded)
          && (!me.phase.outcome.cacheHit ==> me.phase.outcome.credited == me.phase.outcome.encoded.producer)
          && (me.phase.outcome.cacheHit <==> me.routed.None?)
          && me.phase.outcome.credited == (if me.routed.Some? then me.routed.value else me.First()))
  }

  // A caller whose own flight is still running has nothing routed and has not got past it.
  predicate OwnerWaits(s: State, f: FlightId)
    requires f in s.flights
  {
    var flight := s.flights[f];
    flight.owner in s.callers && (flight.population.Running? ==>
      var me := s.callers[flight.owner];
      me.routed.None? && (me.phase == Failed || (Holding(me.phase, f) && Received(me.phase).None?)))
  }

  predicate RegistrationIsTrue(s: State, k: Key)
    requires k in s.registered
  {
    var f := s.registered[k];
    && f in s.flights && s.flights[f].key == k && !s.flights[f].cancelled
    && s.flights[f].waiters == |Holders(s.callers, f)|
    && 0 < s.flights[f].waiters
  }

  // A population that is running and not being cancelled is the registered one of its key.
  predicate LiveIsRegistered(s: State, f: FlightId)
    requires f in s.flights
  {
    s.flights[f].Pending() && !s.flights[f].cancelled ==>
      s.flights[f].key in s.registered && s.registered[s.flights[f].key] == f
  }

  predicate RegistryIsTrue(s: State)
  {
    && (forall k :: k in s.registered ==> RegistrationIsTrue(s, k))
    && (forall f :: f in s.flights ==> LiveIsRegistered(s, f))
  }

  predicate Inv(s: State)
  {
    && CacheIsTrue(s)
    && RegistryIsTrue(s)
    && (forall f :: f in s.flights ==> FlightIsTrue(s, f) && OwnerWaits(s, f))
    && (forall c :: c in s.callers ==> CallerIsTrue(s, c))
  }
}
