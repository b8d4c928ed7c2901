// Routing one request to the backends that support it, and falling back along them.
module BackendRouters {
  import opened JsonValues
  import opened Sequences

  type Name = string

  // What the registered backends and the configuration say of one request.
  datatype Query = Query(declaring: set<Name>, supporting: set<Name>, preferred: seq<Name>, authoritative: Option<Name>)

  datatype Refusal = OverrideUnavailable | OverrideIncompatible | OptionUnavailable | CapabilityUnavailable

  datatype Route = Candidates(names: seq<Name>) | Refused(refusal: Refusal)

  // How a backend answers one attempt.
  datatype Reply<R> =
    | Succeeds(result: R)
    | TimesOut
    | Fails(unavailable: bool, retryable: bool)
    | Breaks
    | CallerCancels

  datatype Outcome = Success | Timeout | Unavailable | RetryableError | Error | Cancelled

  datatype Attempt = Attempt(backend: Name, outcome: Outcome)

  datatype RouteResult<R> =
    | Routed(result: R, backend: Name, attempts: seq<Attempt>, warnings: seq<Attempt>)
    | Failed(attempts: seq<Attempt>, warnings: seq<Attempt>)
    | CancelledRoute(attempts: seq<Attempt>, last: Attempt)
    | Unroutable(refusal: Refusal)
    | SessionClosed

  predicate Distinct(s: seq<Name>)
  {
    forall i, j :: 0 <= i < j < |s| ==> s[i] != s[j]
  }

  // The first occurrence of every name, in order.
  function Deduped(s: seq<Name>): (r: seq<Name>)
    ensures forall n :: n in r <==> n in s
  {
    if s == [] then []
    else if s[|s| - 1] in Front(s) then Deduped(Front(s))
    else Deduped(Front(s)) + [s[|s| - 1]]
  }

  function Among(s: seq<Name>, keep: set<Name>): (r: seq<Name>)
    ensures forall n :: n in r <==> n in s && n in keep
  {
    if s == [] then [] else Among(Front(s), keep) + if s[|s| - 1] in keep then [s[|s| - 1]] else []
  }

  // The override, then the preferred backends, then all others as registered.
  function Pool(entries: seq<Name>, q: Query, override: Option<Name>): (r: seq<Name>)
  {
    Forced(override) + Among(q.preferred, q.supporting) + Among(entries, q.declaring * q.supporting)
  }

  predicate ValidQuery(entries: seq<Name>, q: Query)
  {
    && q.declaring <= (set n | n in entries)
    && (forall n :: n in q.preferred ==> n in q.declaring)
    && (q.authoritative.Some? ==> q.authoritative.value in q.declaring)
  }

  function OverrideError(entries: seq<Name>, q: Query, name: Name): (r: Option<Refusal>)
  {
    if name !in entries then Some(OverrideUnavailable)
    else if name !in q.declaring then Some(OverrideIncompatible)
    else if name !in q.supporting then Some(OptionUnavailable)
    else None
  }

  lemma {:induction false} DedupedIsDistinct(s: seq<Name>)
    ensures Distinct(Deduped(s))
  {
    if s != [] { DedupedIsDistinct(Front(s)); }
  }

  // Deduplicating a pool keeps its sections in order.
  lemma {:induction false} DedupedConcat(a: seq<Name>, b: seq<Name>)
    ensures Deduped(a) <= Deduped(a + b)
    decreases |b|
  {
    if b == [] {
      assert a + b == a;
    } else {
      DedupedConcat(a, Front(b));
      assert a + b == (a + Front(b)) + [b[|b| - 1]];
    }
  }

  function Forced(override: Option<Name>): (r: seq<Name>)
  {
    if override.Some? then [override.value] else []
  }

  lemma PoolMembers(entries: seq<Name>, q: Query, override: Option<Name>, n: Name)
    requires ValidQuery(entries, q) && (override.Some? ==> OverrideError(entries, q, override.value).None?)
    ensures n in Deduped(Pool(entries, q, override)) <==> n in q.declaring && n in q.supporting
  {
    assert n in Pool(entries, q, override) <==>
      n in Forced(override) || n in Among(q.preferred, q.supporting) || n in Among(entries, q.declaring * q.supporting);
  }

  lemma PoolSections(entries: seq<Name>, q: Query, override: Option<Name>)
    ensures Forced(override) <= Deduped(Pool(entries, q, override))
    ensures Deduped(Forced(override) + Among(q.preferred, q.supporting)) <= Deduped(Pool(entries, q, override))
  {
    var preferred, registered := Among(q.preferred, q.supporting), Among(entries, q.declaring * q.supporting);
    assert Pool(entries, q, override) == Forced(override) + (preferred + registered);
    DedupedConcat(Forced(override) + preferred, registered);
    DedupedConcat(Forced(override), preferred + registered);
    ForcedIsDeduped(override);
  }

  lemma ForcedIsDeduped(override: Option<Name>)
    ensures Deduped(Forced(override)) == Forced(override)
  {
    if override.Some? {
      assert Front(Forced(override)) == [];
      assert Deduped(Forced(override)) == Deduped([]) + [override.value];
    }
  }

  // The candidates are the backends that declare and support the request, each once; an
  // override comes first, and the supporting preferred ones come before all that are left.
  lemma CandidatesAreTheSupporting(entries: seq<Name>, q: Query, override: Option<Name>)
    requires ValidQuery(entries, q) && (override.Some? ==> OverrideError(entries, q, override.value).None?)
    ensures var c := Deduped(Pool(entries, q, override));
      && Distinct(c)
      && (forall n :: n in c <==> n in q.declaring && n in q.supporting)
      && Forced(override) <= c
      && Deduped(Forced(override) + Among(q.preferred, q.supporting)) <= c
  {
    DedupedIsDistinct(Pool(entries, q, override));
    PoolSections(entries, q, override);
    forall n
      ensures n in Deduped(Pool(entries, q, override)) <==> n in q.declaring && n in q.supporting
    {
      PoolMembers(entries, q, override, n);
    }
  }

  // What a request resolves to: the authoritative backend alone, or the pool.
  function Resolution(entries: seq<Name>, q: Query, override: Option<Name>): (r: Route)
  {
    if q.authoritative.Some? then
      if override.Some? && override != q.authoritative then Refused(OverrideIncompatible)
      else if q.authoritative.value !in q.supporting then Refused(OptionUnavailable)
      else Candidates([q.authoritative.value])
    else if override.Some? && OverrideError(entries, q, override.value).Some? then
      Refused(OverrideError(entries, q, override.value).value)
    else if Deduped(Pool(entries, q, override)) == [] then
      Refused(if q.declaring != {} then OptionUnavailable else CapabilityUnavailable)
    else Candidates(Deduped(Pool(entries, q, override)))
  }

  // A request is refused without an override exactly when no backend, or not the
  // authoritative one, supports it; otherwise every candidate does. Each refusal says why:
  // no backend declares the capability, the override is not registered, or does not declare
  // it or contradicts the authoritative backend; any other means that the options asked for
  // are not supported.
  lemma ResolutionExact(entries: seq<Name>, q: Query, override: Option<Name>)
    requires ValidQuery(entries, q)
    ensures override.None? ==>
      (Resolution(entries, q, override).Candidates? <==>
        if q.authoritative.Some? then q.authoritative.value in q.supporting else q.declaring * q.supporting != {})
    ensures override.Some? ==>
      (Resolution(entries, q, override).Candidates? <==>
        override.value in q.declaring * q.supporting && (q.authoritative.Some? ==> override == q.authoritative))
    ensures Resolution(entries, q, override) == Refused(CapabilityUnavailable) <==>
      override.None? && q.authoritative.None? && q.declaring == {}
    ensures Resolution(entries, q, override) == Refused(OverrideUnavailable) <==>
      override.Some? && q.authoritative.None? && override.value !in entries
    ensures Resolution(entries, q, override) == Refused(OverrideIncompatible) <==>
      override.Some? && if q.authoritative.Some? then override != q.authoritative
                        else override.value in entries && override.value !in q.declaring
    ensures Resolution(entries, q, override).Candidates? ==>
      var c := Resolution(entries, q, override).names;
      c != [] && forall n :: n in c ==> n in q.declaring && n in q.supporting
  {
    if q.authoritative.None? && (override.Some? ==> OverrideError(entries, q, override.value).None?) {
      CandidatesAreTheSupporting(entries, q, override);
      var c := Deduped(Pool(entries, q, override));
      if c != [] { assert c[0] in q.declaring * q.supporting; }
      if n :| n in q.declaring * q.supporting { assert n in c; }
    }
  }

  /******* Falling back *******/

  function OutcomeOf<R>(reply: Reply<R>): (r: Outcome)
  {
    match reply
    case Succeeds(_) => Success
    case TimesOut => Timeout
    case Fails(unavailable, retryable) =>
      if unavailable then Unavailable else if retryable then RetryableError else Error
    case Breaks => Error
    case CallerCancels => Cancelled
  }

  // The failures another backend may make good.
  predicate Recoverable<R>(reply: Reply<R>)
  {
    reply.TimesOut? || (reply.Fails? && (reply.unavailable || reply.retryable))
  }

  predicate CanFallBack<R>(fallback: bool, reply: Reply<R>, attempts: nat, candidates: nat)
  {
    fallback && attempts < candidates && Recoverable(reply)
  }

  function AttemptsTo<R>(names: seq<Name>, replies: nat -> Reply<R>, n: nat): (r: seq<Attempt>)
    requires n <= |names|
    ensures |r| == n
  {
    if n == 0 then [] else AttemptsTo(names, replies, n - 1) + [Attempt(names[n - 1], OutcomeOf(replies(n - 1)))]
  }

  // Attempt `n` is the last: every earlier one failed in a way that may fall back, and this
  // one did not, or there was nowhere left to go.
  predicate StopsAt<R>(fallback: bool, names: seq<Name>, replies: nat -> Reply<R>, n: nat)
  {
    && n < |names| && !CanFallBack(fallback, replies(n), n + 1, |names|)
    && forall i :: 0 <= i < n ==> CanFallBack(fallback, replies(i), i + 1, |names|)
  }

  // What the last attempt makes of the route: only its own backend is credited.
  function RouteOf<R>(names: seq<Name>, replies: nat -> Reply<R>, n: nat): (r: RouteResult<R>)
    requires n < |names|
  {
    match replies(n)
    case Succeeds(result) => Routed(result, names[n], AttemptsTo(names, replies, n + 1), AttemptsTo(names, replies, n))
    case CallerCancels => CancelledRoute(AttemptsTo(names, replies, n), Attempt(names[n], Cancelled))
    case _ => Failed(AttemptsTo(names, replies, n + 1), AttemptsTo(names, replies, n + 1))
  }

  // The backend gave this result itself.
  ghost predicate Credited<R>(names: seq<Name>, replies: nat -> Reply<R>, backend: Name, result: R)
  {
    exists i :: 0 <= i < |names| && names[i] == backend && replies(i) == Succeeds(result)
  }

  lemma StopIsUnique<R>(fallback: bool, names: seq<Name>, replies: nat -> Reply<R>, n: nat, m: nat)
    requires StopsAt(fallback, names, replies, n) && StopsAt(fallback, names, replies, m)
    ensures n == m
  {}

  // What a recorded outcome says of the backend's reply.
  lemma OutcomeExact<R>(reply: Reply<R>)
    ensures OutcomeOf(reply) == Success <==> reply.Succeeds?
    ensures OutcomeOf(reply) == Timeout <==> reply.TimesOut?
    ensures OutcomeOf(reply) == Unavailable <==> reply.Fails? && reply.unavailable
    ensures OutcomeOf(reply) == RetryableError <==> reply.Fails? && !reply.unavailable && reply.retryable
    ensures OutcomeOf(reply) == Error <==> reply.Breaks? || (reply.Fails? && !reply.unavailable && !reply.retryable)
    ensures OutcomeOf(reply) == Cancelled <==> reply.CallerCancels?
  {}

  // The attempts recorded are the candidates in order, each with the outcome of its reply.
  lemma {:induction false} AttemptsAreInOrder<R>(names: seq<Name>, replies: nat -> Reply<R>, n: nat, i: nat)
    requires i < n <= |names|
    ensures AttemptsTo(names, replies, n)[i] == Attempt(names[i], OutcomeOf(replies(i)))
  {
    if i < n - 1 { AttemptsAreInOrder(names, replies, n - 1, i); }
  }

  function AttemptsOf<R>(route: RouteResult<R>): (r: seq<Attempt>)
  {
    match route
    case Routed(_, _, attempts, _) => attempts
    case Failed(attempts, _) => attempts
    case CancelledRoute(attempts, last) => attempts + [last]
    case _ => []
  }

  // A route in terms of its record: the candidates up to the last one tried, in order. Every
  // attempt but the last timed out, was unavailable or could be retried, and then falling
  // back was allowed; the last one decides what the route is, and it is final for its own
  // outcome, or because falling back is not allowed, or for want of candidates.
  lemma RouteExact<R>(fallback: bool, names: seq<Name>, replies: nat -> Reply<R>, n: nat)
    requires StopsAt(fallback, names, replies, n)
    ensures var route := RouteOf(names, replies, n);
      var attempts := AttemptsOf(route);
      && |attempts| == n + 1
      && (forall i :: 0 <= i <= n ==> attempts[i] == Attempt(names[i], OutcomeOf(replies(i))))
      && (forall i :: 0 <= i < n ==> attempts[i].outcome in {Timeout, Unavailable, RetryableError})
      && (0 < n ==> fallback)
      && (route.Routed? <==> attempts[n].outcome == Success)
      && (route.Routed? ==> replies(n) == Succeeds(route.result) && route.backend == names[n]
                            && route.warnings == attempts[..n])
      && (route.CancelledRoute? <==> attempts[n].outcome == Cancelled)
      && (route.Failed? <==> attempts[n].outcome in {Timeout, Unavailable, RetryableError, Error})
      && (route.Failed? ==> route.warnings == attempts)
      && (route.Failed? && attempts[n].outcome != Error ==> !fallback || n + 1 == |names|)
  {
    if 0 < n { assert CanFallBack(fallback, replies(0), 1, |names|); }
    forall i | 0 <= i <= n
      ensures AttemptsOf(RouteOf(names, replies, n))[i] == Attempt(names[i], OutcomeOf(replies(i)))
      ensures i < n ==> OutcomeOf(replies(i)) in {Timeout, Unavailable, RetryableError} && fallback
    {
      AttemptsAreInOrder(names, replies, n + 1, i);
      if i < n {
        AttemptsAreInOrder(names, replies, n, i);
        assert CanFallBack(fallback, replies(i), i + 1, |names|);
      }
      OutcomeExact(replies(i));
    }
  }

  class BackendRouter {
    const entries: seq<Name>
    const fallback: bool
    var activeCalls: nat
    var closing: bool

    constructor (entries: seq<Name>, fallback: bool)
      ensures this.entries == entries && this.fallback == fallback && activeCalls == 0 && !closing
    {
      this.entries, this.fallback := entries, fallback;
      activeCalls, closing := 0, false;
    }

    // The loops over preferences and registrations, with the names already selected.
    method Resolve(q: Query, override: Option<Name>) returns (route: Route)
      requires ValidQuery(entries, q)
      ensures route == Resolution(entries, q, override)
    {
      if q.authoritative.Some? {
        if override.Some? && override != q.authoritative {
          return Refused(OverrideIncompatible);
        }
        if q.authoritative.value !in q.supporting {
          return Refused(OptionUnavailable);
        }
        return Candidates([q.authoritative.value]);
      }
      var ordered: seq<Name> := [];
      if override.Some? {
        var error := OverrideError(entries, q, override.value);
        if error.Some? {
          return Refused(error.value);
        }
        ordered := [override.value];
      }
      ForcedIsDeduped(override);
      ordered := SelectPreferred(q, ordered, Forced(override));
      ordered := SelectRegistered(q, ordered, Forced(override) + Among(q.preferred, q.supporting));
      if ordered == [] {
        return Refused(if q.declaring != {} then OptionUnavailable else CapabilityUnavailable);
      }
      route := Candidates(ordered);
    }

    method SelectPreferred(q: Query, start: seq<Name>, ghost pool: seq<Name>) returns (ordered: seq<Name>)
      requires start == Deduped(pool)
      ensures ordered == Deduped(pool + Among(q.preferred, q.supporting))
    {
      ordered := start;
      assert pool + Among(q.preferred[..0], q.supporting) == pool;
      for i := 0 to |q.preferred|
        invariant ordered == Deduped(pool + Among(q.preferred[..i], q.supporting))
      {
        AmongOneMore(q.preferred, q.supporting, i);
        if q.preferred[i] !in ordered && q.preferred[i] in q.supporting {
          ordered := ordered + [q.preferred[i]];
        }
        DedupedNext(pool, Among(q.preferred[..i], q.supporting), q.preferred[i]);
      }
      assert q.preferred[..|q.preferred|] == q.preferred;
    }

    method SelectRegistered(q: Query, start: seq<Name>, ghost pool: seq<Name>) returns (ordered: seq<Name>)
      requires start == Deduped(pool)
      ensures ordered == Deduped(pool + Among(entries, q.declaring * q.supporting))
    {
      ordered := start;
      assert pool + Among(entries[..0], q.declaring * q.supporting) == pool;
      for i := 0 to |entries|
        invariant ordered == Deduped(pool + Among(entries[..i], q.declaring * q.supporting))
      {
        AmongOneMore(entries, q.declaring * q.supporting, i);
        DedupedNext(pool, Among(entries[..i], q.declaring * q.supporting), entries[i]);
        if entries[i] in ordered {
          continue;
        }
        if entries[i] in q.declaring && entries[i] in q.supporting {
          ordered := ordered + [entries[i]];
        }
      }
      assert entries[..|entries|] == entries;
    }

    // Tries the candidates a request resolves to, in order, until one answers or a failure
    // ends the route. The loop never runs out of candidates without a result.
    method Analyze<R>(q: Query, override: Option<Name>, replies: nat -> Reply<R>)
      returns (result: RouteResult<R>, ghost last: nat)
      requires ValidQuery(entries, q)
      modifies this`activeCalls
      ensures activeCalls == old(activeCalls)
      ensures closing <==> result.SessionClosed?
      ensures !closing ==>
        match Resolution(entries, q, override)
        case Refused(refusal) => result == Unroutable(refusal)
        case Candidates(names) =>
          && StopsAt(fallback, names, replies, last) && result == RouteOf(names, replies, last)
          && (forall n :: n in names ==> n in q.declaring && n in q.supporting)
    {
      last := 0;
      if closing {
        return SessionClosed, 0;
      }
      activeCalls := activeCalls + 1;
      var route := Resolve(q, override);
      if route.Refused? {
        activeCalls := activeCalls - 1;
        return Unroutable(route.refusal), 0;
      }
      ResolutionExact(entries, q, override);
      result, last := FallBack(route.names, replies);
      activeCalls := activeCalls - 1;
    }

    method FallBack<R>(names: seq<Name>, replies: nat -> Reply<R>) returns (result: RouteResult<R>, ghost last: nat)
      requires names != []
      ensures result.Routed? ==> Credited(names, replies, result.backend, result.result)
      ensures StopsAt(fallback, names, replies, last) && result == RouteOf(names, replies, last)
    {
      var attempts, warnings: seq<Attempt> := [], [];
      var i := 0;
      while true
        invariant i < |names| && attempts == AttemptsTo(names, replies, i) && warnings == attempts
        invariant forall j :: 0 <= j < i ==> CanFallBack(fallback, replies(j), j + 1, |names|)
        decreases |names| - i
      {
        var reply := replies(i);
        var attempt := Attempt(names[i], OutcomeOf(reply));
        if reply.CallerCancels? {
          return CancelledRoute(attempts, attempt), i;
        }
        attempts := attempts + [attempt];
        if reply.Succeeds? {
          return Routed(reply.result, names[i], attempts, warnings), i;
        }
        warnings := warnings + [attempt];
        if !CanFallBack(fallback, reply, |attempts|, |names|) {
          return Failed(attempts, warnings), i;
        }
        i := i + 1;
      }
    }
  }

  lemma AmongOneMore(s: seq<Name>, keep: set<Name>, i: nat)
    requires i < |s|
    ensures Among(s[..i + 1], keep) == Among(s[..i], keep) + if s[i] in keep then [s[i]] else []
  {
    assert Front(s[..i + 1]) == s[..i];
  }

  lemma DedupedNext(pool: seq<Name>, chosen: seq<Name>, n: Name)
    ensures Deduped(pool + (chosen + [n])) == if n in Deduped(pool + chosen) then Deduped(pool + chosen)
                                              else Deduped(pool + chosen) + [n]
    ensures pool + (chosen + []) == pool + chosen
  {
    assert pool + (chosen + [n]) == (pool + chosen) + [n];
  }
}
