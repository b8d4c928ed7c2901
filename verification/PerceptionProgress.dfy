// What a caller can rely on to happen: a waiter is handed the shared result, one that is
// handed bytes of another identity gets its own, and a closed coordinator starts nothing.
module PerceptionProgress {
  import opened JsonValues
  import opened PerceptionProtocol
  import opened PerceptionInvariant
  import opened PerceptionSharing

  // A waiter whose flight is done. Either what was produced has the identity the caller
  // asked for, or the caller routed it itself.
  predicate CanTake(s: State, c: CallerId, shared: Shared)
  {
    && Handed(s, c, shared)
    && (s.callers[c].routed.Some? || shared.producedKey == s.callers[c].CacheKey())
  }

  predicate Handed(s: State, c: CallerId, shared: Shared)
  {
    && c in s.callers && s.callers[c].Wellformed() && s.callers[c].phase.Waiting?
    && s.callers[c].phase.f in s.flights && s.flights[s.callers[c].phase.f].population == Completed(shared)
  }

  // States that steps lead through, one after the other, the invariant holding in the last.
  predicate Path(states: seq<State>, steps: seq<Step>)
  {
    && |states| == |steps| + 1 && Inv(states[|steps|])
    && forall i :: 0 <= i < |steps| ==> NextAt(states, steps, i)
  }

  // The last state, and the caller in it.
  function Now(states: seq<State>): (s: State)
    requires states != []
  {
    states[|states| - 1]
  }

  predicate Is(states: seq<State>, c: CallerId, me: Caller)
  {
    states != [] && c in Now(states).callers && Now(states).callers[c] == me
  }

  lemma PathExtends(states: seq<State>, steps: seq<Step>, step: Step, s: State)
    requires Path(states, steps) && Inv(s) && Next(Now(states), step, s)
    ensures Path(states + [s], steps + [step])
  {
    var longer, more := states + [s], steps + [step];
    forall i | 0 <= i < |more|
      ensures NextAt(longer, more, i)
    {
      if i < |steps| { assert NextAt(states, steps, i); }
    }
  }

  lemma RegistrationsAreTrue(s: State)
    requires Inv(s)
    ensures RegistrationsExist(s)
  {
    assert forall k :: k in s.registered ==> RegistrationIsTrue(s, k);
  }

  // Taking an enabled step makes the path longer.
  lemma PathGrows(states: seq<State>, steps: seq<Step>, step: Step)
    requires Path(states, steps) && Enabled(Now(states), step)
    ensures RegistrationsExist(Now(states)) && Path(states + [Apply(Now(states), step)], steps + [step])
  {
    RegistrationsAreTrue(Now(states));
    StepKeepsInv(Now(states), step);
    PathExtends(states, steps, step, Apply(Now(states), step));
  }

  lemma Wakes(states: seq<State>, steps: seq<Step>, c: CallerId, me: Caller, shared: Shared) returns (s: State)
    requires Path(states, steps) && Is(states, c, me) && Handed(Now(states), c, shared)
    ensures Path(states + [s], steps + [Wake(c)]) && me.phase.f in s.flights
    ensures Is(states + [s], c, me.(phase := Releasing(me.phase.f, Some(shared))))
  {
    PathGrows(states, steps, Wake(c));
    s := Apply(Now(states), Wake(c));
  }

  lemma Leaves(states: seq<State>, steps: seq<Step>, c: CallerId, me: Caller, shared: Shared) returns (s: State)
    requires Path(states, steps) && Is(states, c, me)
    requires me.phase.Releasing? && me.phase.got == Some(shared) && me.phase.f in Now(states).flights
    ensures Path(states + [s], steps + [Release(c, true)])
    ensures Is(states + [s], c, me.(phase := Checking(me.phase.f, shared)))
  {
    PathGrows(states, steps, Release(c, true));
    s := Apply(Now(states), Release(c, true));
  }

  lemma Checks(states: seq<State>, steps: seq<Step>, c: CallerId, me: Caller) returns (s: State)
    requires Path(states, steps) && Is(states, c, me) && me.phase.Checking? && me.Wellformed()
    ensures Path(states + [s], steps + [Check(c)])
    ensures Is(states + [s], c, me.(phase :=
      if me.routed.Some? || me.phase.shared.producedKey == me.CacheKey() then Finishing(me.phase.shared)
      else Repopulating))
  {
    PathGrows(states, steps, Check(c));
    s := Apply(Now(states), Check(c));
  }

  lemma Finishes(states: seq<State>, steps: seq<Step>, c: CallerId, me: Caller) returns (s: State, outcome: Outcome)
    requires Path(states, steps) && Is(states, c, me) && me.phase.Finishing? && me.Wellformed()
    ensures Path(states + [s], steps + [Finish(c)]) && Is(states + [s], c, me.(phase := Done(outcome)))
    ensures outcome.encoded == me.phase.shared.encoded && (outcome.cacheHit <==> me.routed.None?)
    ensures me.routed.Some? ==> outcome.credited == me.routed.value
  {
    PathGrows(states, steps, Finish(c));
    s := Apply(Now(states), Finish(c));
    outcome := s.callers[c].phase.outcome;
  }

  lemma RoutesAgain(states: seq<State>, steps: seq<Step>, c: CallerId, me: Caller, d: Descriptor, content: nat)
    returns (s: State)
    requires Path(states, steps) && Is(states, c, me) && me.phase.Repopulating? && d in me.candidates
    ensures Path(states + [s], steps + [RouteAgain(c, d, content)])
    ensures Is(states + [s], c,
               me.(phase := Storing(Bytes(content, me.digest, me.request, d)), routed := Some(d)))
  {
    PathGrows(states, steps, RouteAgain(c, d, content));
    s := Apply(Now(states), RouteAgain(c, d, content));
  }

  lemma StoresAgain(states: seq<State>, steps: seq<Step>, c: CallerId, me: Caller, kept: bool) returns (s: State)
    requires Path(states, steps) && Is(states, c, me) && me.phase.Storing?
    ensures Path(states + [s], steps + [StoreAgain(c, kept)])
    ensures Is(states + [s], c, me.(phase := Finishing(Shared(me.phase.bytes, Origin(me.phase.bytes)))))
  {
    PathGrows(states, steps, StoreAgain(c, kept));
    s := Apply(Now(states), StoreAgain(c, kept));
  }

  // A waiter that nobody cancels comes to hold what its flight produced.
  lemma ComesToHold(s: State, c: CallerId, shared: Shared) returns (states: seq<State>)
    requires Inv(s) && Handed(s, c, shared)
    ensures Path(states, [Wake(c)] + [Release(c, true)]) && states[0] == s
    ensures Is(states, c, s.callers[c].(phase := Checking(s.callers[c].phase.f, shared)))
  {
    var me := s.callers[c];
    var woken := Wakes([s], [], c, me, shared);
    assert [] + [Wake(c)] == [Wake(c)] && [s] + [woken] == [s, woken];
    var left := Leaves([s, woken], [Wake(c)], c, me.(phase := Releasing(me.phase.f, Some(shared))), shared);
    states := [s, woken] + [left];
  }

  // Then it gets these bytes, if they have the identity it asked for or it routed them.
  lemma SharedIsDelivered(s: State, c: CallerId, shared: Shared) returns (states: seq<State>, outcome: Outcome)
    requires Inv(s) && CanTake(s, c, shared)
    ensures Path(states, [Wake(c)] + [Release(c, true)] + [Check(c)] + [Finish(c)]) && states[0] == s
    ensures Is(states, c, s.callers[c].(phase := Done(outcome)))
    ensures outcome.encoded == shared.encoded && (outcome.cacheHit <==> s.callers[c].routed.None?)
  {
    states := ComesToHold(s, c, shared);
    var steps, me := [Wake(c)] + [Release(c, true)], s.callers[c].(phase := Checking(s.callers[c].phase.f, shared));
    var t := Checks(states, steps, c, me);
    states, steps, me := states + [t], steps + [Check(c)], me.(phase := Finishing(shared));
    t, outcome := Finishes(states, steps, c, me);
    states := states + [t];
  }

  // A waiter that is handed bytes of another identity, and routed none itself, gets those of
  // whichever of its own candidates answers, for its own asset and request, as fresh ones.
  lemma AnotherIsReplaced(s: State, c: CallerId, shared: Shared, d: Descriptor, content: nat, kept: bool)
    returns (states: seq<State>)
    requires Inv(s) && Handed(s, c, shared) && !CanTake(s, c, shared) && d in s.callers[c].candidates
    ensures Path(states, [Wake(c)] + [Release(c, true)] + [Check(c)] + [RouteAgain(c, d, content)]
                         + [StoreAgain(c, kept)] + [Finish(c)])
    ensures states[0] == s
    ensures var bytes := Bytes(content, s.callers[c].digest, s.callers[c].request, d);
      Is(states, c, s.callers[c].(phase := Done(Outcome(bytes, d, false)), routed := Some(d)))
  {
    states := ComesToHold(s, c, shared);
    var steps, me := [Wake(c)] + [Release(c, true)], s.callers[c].(phase := Checking(s.callers[c].phase.f, shared));
    var t := Checks(states, steps, c, me);
    states, steps, me := states + [t], steps + [Check(c)], me.(phase := Repopulating);
    t := RoutesAgain(states, steps, c, me, d, content);
    var bytes := Bytes(content, me.digest, me.request, d);
    states, steps := states + [t], steps + [RouteAgain(c, d, content)];
    me := me.(phase := Storing(bytes), routed := Some(d));
    t := StoresAgain(states, steps, c, me, kept);
    states, steps := states + [t], steps + [StoreAgain(c, kept)];
    me := me.(phase := Finishing(Shared(bytes, Origin(bytes))));
    var outcome;
    t, outcome := Finishes(states, steps, c, me);
    states := states + [t];
  }

  lemma ClosedStepStartsNothing(s: State, step: Step)
    requires Enabled(s, step) && RegistrationsExist(s) && (s.closed || step.Close?)
    ensures Apply(s, step).closed && Apply(s, step).flights.Keys == s.flights.Keys
  {}

  // Once closed, the coordinator stays closed and starts no population.
  lemma {:induction false} ClosedStartsNothing(states: seq<State>, steps: seq<Step>, j: nat, i: nat)
    requires IsRun(states, steps) && j < i < |states| && steps[j].Close?
    ensures states[i].closed && states[i].flights.Keys == states[j].flights.Keys
    decreases i
  {
    RunStep(states, steps, i - 1);
    if j < i - 1 { ClosedStartsNothing(states, steps, j, i - 1); }
    ClosedStepStartsNothing(states[i - 1], steps[i - 1]);
  }
}
