// Builds the trace of one run. Delivery to sinks is taken never to raise.
module TraceBuilders {
  import opened JsonValues
  import opened Sequences
  import opened TraceLogs

  datatype StopReason = Cancelled | TimedOut | Errored | Stopped(name: string)

  datatype RunTrace = RunTrace(counters: Counters, stop: StopReason, events: seq<Event>)

  // What a caller asks to emit. Lifecycle events belong to the builder alone.
  datatype Request = Lifecycle | Note(point: Point)

  const RUN_INVOCATION: Id := 0

  predicate NumberedAt(events: seq<Event>, i: nat)
    requires i < |events|
  {
    events[i].sequence == i
  }

  // Sequence numbers are positions.
  ghost predicate Positions(events: seq<Event>)
  {
    forall i :: 0 <= i < |events| ==> NumberedAt(events, i)
  }

  // The start comes first and only first; an end comes last and only when finalized.
  predicate FramedAt(events: seq<Event>, finalized: bool, i: nat)
    requires i < |events|
  {
    && (events[i].kind == RunStarted <==> i == 0)
    && (Terminal(events[i].kind) <==> finalized && i == |events| - 1)
  }

  ghost predicate Framed(events: seq<Event>, finalized: bool)
  {
    && (forall i :: 0 <= i < |events| ==> FramedAt(events, finalized, i))
    && (finalized ==> events != [])
  }

  lemma NumberedOneMore(events: seq<Event>, e: Event)
    requires Positions(events) && e.sequence == |events|
    ensures Positions(events + [e])
  {
    forall i | 0 <= i < |events|
      ensures NumberedAt(events + [e], i)
    {
      assert NumberedAt(events, i);
    }
  }

  lemma FramedOneMore(events: seq<Event>, e: Event)
    requires Framed(events, false) && (events == [] <==> e.kind == RunStarted)
    ensures Framed(events + [e], Terminal(e.kind))
  {
    forall i | 0 <= i < |events|
      ensures FramedAt(events + [e], Terminal(e.kind), i)
    {
      assert FramedAt(events, false, i);
    }
  }

  // How the invocations that still run are ended when the run stops.
  function EndingOf(stop: StopReason): (r: Ending)
  {
    match stop
    case Cancelled => EndedCancelled
    case TimedOut => EndedTimeout
    case _ => EndedError
  }

  // The finishes of running invocations, the innermost first.
  function FinishEvents(active: seq<Invocation>, sequence: nat, ending: Ending): (r: seq<Event>)
    ensures |r| == |active|
    decreases |active|
  {
    if active == [] then []
    else
      [FinishOf(Last(active), sequence, ending)] + FinishEvents(Front(active), sequence + 1, ending)
  }

  lemma WithoutLast(active: seq<Invocation>)
    requires active != [] && DistinctIds(active)
    ensures Without(active, Last(active).id) == Front(active) && DistinctIds(Front(active))
  {
    WithoutAbsent(Front(active), Last(active).id);
  }

  lemma {:induction false} WithoutAbsent(active: seq<Invocation>, id: Id)
    requires forall v :: v in active ==> v.id != id
    ensures Without(active, id) == active
    decreases |active|
  {
    if active != [] {
      assert active == Front(active) + [Last(active)];
      WithoutAbsent(Front(active), id);
    }
  }

  function FinishOf(v: Invocation, sequence: nat, ending: Ending): (r: Event)
  {
    Event(sequence, Finished(v.op, ending), Some(v.id), Some(v.parent))
  }

  lemma FinishInOrder(done: seq<Event>, active: seq<Invocation>, sequence: nat, ending: Ending)
    requires active != []
    ensures done + FinishEvents(active, sequence, ending)
         == done + [FinishOf(Last(active), sequence, ending)] + FinishEvents(Front(active), sequence + 1, ending)
  {}

  function Wound(events: seq<Event>, active: seq<Invocation>, ending: Ending): (r: seq<Event>)
    ensures |r| == |events| + |active|
  {
    events + FinishEvents(active, |events|, ending)
  }

  // A whole run's log: begun, its running invocations finished, and ended.
  function Concluded(events: seq<Event>, active: seq<Invocation>, ending: Ending, kind: Kind): (r: seq<Event>)
  {
    Wound(Begun(events), active, ending) + [Event(|Begun(events)| + |active|, kind, Some(RUN_INVOCATION), None)]
  }

  class TraceBuilder {
    var events: seq<Event>
    var sequence: nat
    var started: bool
    var final: Option<RunTrace>
    var counters: Counters
    var active: seq<Invocation>
    var finishes: map<Id, Event>
    var issued: Id

    function Snapshot(): (r: Log)
      reads this
    {
      Log(events, active, finishes, issued)
    }

    ghost predicate Consistent()
      reads this
    {
      && Coherent(Snapshot()) && Positions(events) && CountersAgree(counters, events)
      && RUN_INVOCATION < issued
      && sequence == |events| && (started <==> events != [])
    }

    ghost predicate Valid()
      reads this
    {
      && Consistent() && Framed(events, final.Some?)
      && (final.Some? ==> active == [] && final.value.events == events && final.value.counters == counters)
    }

    constructor ()
      ensures Valid() && events == [] && final.None? && active == []
    {
      events, sequence, started, final := [], 0, false, None;
      counters, active, finishes, issued := NO_COUNTS, [], map[], RUN_INVOCATION + 1;
    }

    // Appends one numbered event and counts it.
    method NewEvent(kind: Kind, invocation: Option<Id>, parent: Option<Id>) returns (e: Event)
      requires Positions(events) && CountersAgree(counters, events) && sequence == |events|
      modifies this`events, this`sequence, this`counters
      ensures e == Event(|old(events)|, kind, invocation, parent)
      ensures events == old(events) + [e] && sequence == |events| && counters == Counted(old(counters), kind)
      ensures Positions(events) && CountersAgree(counters, events)
    {
      e := Event(sequence, kind, invocation, parent);
      CountingKeepsAgreement(counters, events, e);
      NumberedOneMore(events, e);
      sequence := sequence + 1;
      events := events + [e];
      counters := Counted(counters, kind);
    }

    // Appends an event that concerns no invocation's duration.
    method Append(kind: Kind, invocation: Option<Id>, parent: Option<Id>) returns (e: Event)
      requires Consistent() && Framed(events, false) && !kind.Started? && !kind.Finished?
      requires started <==> kind != RunStarted
      modifies this`events, this`sequence, this`counters, this`started
      ensures Consistent() && Framed(events, Terminal(kind)) && started
        && e == Event(|old(events)|, kind, invocation, parent)
      ensures events == old(events) + [e] && counters == Counted(old(counters), kind)
    {
      NotingKeepsCoherent(Snapshot(), Event(sequence, kind, invocation, parent));
      FramedOneMore(events, Event(sequence, kind, invocation, parent));
      started := true;
      e := NewEvent(kind, invocation, parent);
    }

    method EnsureStarted()
      requires Valid() && final.None?
      modifies this`events, this`sequence, this`counters, this`started
      ensures Valid() && started && active == old(active)
      ensures events == Begun(old(events)) && counters == old(counters)
    {
      if started {
        return;
      }
      var _ := Append(RunStarted, Some(RUN_INVOCATION), None);
    }

    // Starting again, or after the end, changes nothing.
    method Start() returns (first: Event)
      requires Valid()
      modifies this`events, this`sequence, this`counters, this`started
      ensures Valid() && events == Begun(old(events)) && first == events[0]
    {
      if final.Some? {
        return events[0];
      }
      EnsureStarted();
      first := events[0];
    }

    // Refused after the end; a lifecycle request is refused too, once the run has started.
    method Emit(request: Request, invocation: Option<Id>, parent: Option<Id>) returns (e: Option<Event>)
      requires Valid()
      modifies this`events, this`sequence, this`counters, this`started
      ensures Valid() && active == old(active)
      ensures e.Some? <==> final.None? && request.Note?
      ensures final.Some? ==> events == old(events)
      ensures final.None? && request.Lifecycle? ==> events == Begun(old(events)) && counters == old(counters)
      ensures e.Some? ==> events == Begun(old(events)) + [e.value] && e.value.kind == Noted(request.point)
                          && e.value.invocation == invocation && e.value.parent == parent
      ensures e.Some? ==> counters == Counted(old(counters), e.value.kind)
    {
      if final.Some? {
        return None;
      }
      EnsureStarted();
      if request.Lifecycle? {
        return None;
      }
      var noted := Record(request.point, invocation, parent);
      e := Some(noted);
    }

    method Record(point: Point, invocation: Option<Id>, parent: Option<Id>) returns (e: Event)
      requires Valid() && final.None? && started
      modifies this`events, this`sequence, this`counters, this`started
      ensures Valid() && started && events == old(events) + [e]
        && e == Event(|old(events)|, Noted(point), invocation, parent)
      ensures counters == Counted(old(counters), Noted(point))
    {
      e := Append(Noted(point), invocation, parent);
    }

    // Refused after the end; otherwise a fresh identifier is started and runs.
    method StartInvocation(op: Operation, parent: Id) returns (v: Option<Invocation>)
      requires Valid()
      modifies this`events, this`sequence, this`counters, this`started, this`active, this`issued
      ensures Valid()
      ensures v.Some? <==> final.None?
      ensures v.None? ==> events == old(events) && active == old(active)
      ensures v.Some? ==>
        && v.value.op == op && v.value.parent == parent && v.value.id == old(issued) < issued
        && active == old(active) + [v.value]
        && events == Begun(old(events)) + [Event(|Begun(old(events))|, Started(op), Some(v.value.id), Some(parent))]
    {
      if final.Some? {
        return None;
      }
      EnsureStarted();
      var invocation := Activate(op, parent);
      v := Some(invocation);
    }

    method Activate(op: Operation, parent: Id) returns (v: Invocation)
      requires Valid() && final.None? && started
      modifies this`events, this`sequence, this`counters, this`active, this`issued
      ensures Valid() && v == Invocation(old(issued), op, parent) && issued == old(issued) + 1
      ensures active == old(active) + [v]
      ensures events == old(events) + [Event(|old(events)|, Started(op), Some(v.id), Some(parent))]
    {
      FramedOneMore(events, Event(sequence, Started(op), Some(issued), Some(parent)));
      v := StartRunning(op, parent);
    }

    method StartRunning(op: Operation, parent: Id) returns (v: Invocation)
      requires Consistent() && started
      modifies this`events, this`sequence, this`counters, this`active, this`issued
      ensures Consistent() && v == Invocation(old(issued), op, parent) && issued == old(issued) + 1
      ensures active == old(active) + [v]
      ensures events == old(events) + [Event(|old(events)|, Started(op), Some(v.id), Some(parent))]
    {
      v := Invocation(issued, op, parent);
      StartingKeepsCoherent(Snapshot(), Event(sequence, Started(op), Some(issued), Some(parent)), v);
      var _ := NewEvent(Started(op), Some(issued), Some(parent));
      active := active + [v];
      issued := issued + 1;
    }

    method FinishActive(v: Invocation, ending: Ending) returns (e: Event)
      requires Consistent() && v in active
      modifies this`events, this`sequence, this`counters, this`active, this`finishes
      ensures Consistent() && e == FinishOf(v, |old(events)|, ending)
      ensures events == old(events) + [e] && active == Without(old(active), v.id)
      ensures finishes == old(finishes)[v.id := e] && counters == old(counters)
    {
      FinishingKeepsCoherent(Snapshot(), FinishOf(v, sequence, ending), v);
      e := NewEvent(Finished(v.op, ending), Some(v.id), Some(v.parent));
      active := Without(active, v.id);
      finishes := finishes[v.id := e];
    }

    // Finishing again returns the first finish. An invocation that this builder started is
    // still running or already finished, so there is always an event to return.
    method FinishInvocation(v: Invocation, ending: Ending) returns (e: Event)
      requires Valid() && WasStarted(events, v)
      modifies this`events, this`sequence, this`counters, this`active, this`finishes
      ensures Valid() && v.id in finishes && finishes[v.id] == e && Closes(e, v.id)
      ensures v.id in old(finishes) ==> e == old(finishes)[v.id] && events == old(events) && active == old(active)
      ensures v.id !in old(finishes) ==>
        events == old(events) + [e] && e.kind == Finished(v.op, ending) && active == Without(old(active), v.id)
    {
      StartedIsActiveOrFinished(Snapshot(), v);
      if v.id in finishes {
        assert FinishRecorded(Snapshot(), v.id);
        return finishes[v.id];
      }
      assert final.None?;
      e := FinishRunning(v, ending);
    }

    method FinishRunning(v: Invocation, ending: Ending) returns (e: Event)
      requires Valid() && final.None? && v in active
      modifies this`events, this`sequence, this`counters, this`active, this`finishes
      ensures Valid() && FinishesIt(e, v) && e.kind.ending == ending
      ensures events == old(events) + [e] && active == Without(old(active), v.id)
      ensures finishes == old(finishes)[v.id := e]
    {
      FramedOneMore(events, FinishOf(v, sequence, ending));
      assert WasStarted(events, v);
      e := FinishActive(v, ending);
    }

    method FinishInnermost(ending: Ending)
      requires Valid() && final.None? && started && active != []
      modifies this`events, this`sequence, this`counters, this`active, this`finishes
      ensures Valid() && active == Front(old(active)) && counters == old(counters)
      ensures events == old(events) + [FinishOf(Last(old(active)), |old(events)|, ending)]
    {
      WithoutLast(active);
      FramedOneMore(events, FinishOf(Last(active), sequence, ending));
      var _ := FinishActive(Last(active), ending);
    }

    // Everything that still runs is finished, the innermost first.
    method FinishAllActive(ending: Ending)
      requires Valid() && final.None? && started
      modifies this`events, this`sequence, this`counters, this`active, this`finishes
      ensures Valid() && active == [] && started && counters == old(counters)
      ensures events == Wound(old(events), old(active), ending)
    {
      while active != []
        invariant Valid() && final.None? && started && counters == old(counters)
        invariant Wound(events, active, ending) == Wound(old(events), old(active), ending)
        decreases |active|
      {
        FinishInOrder(events, active, |events|, ending);
        FinishInnermost(ending);
      }
    }

    // The one terminal event; the summary is taken before it.
    method Conclude(stop: StopReason, kind: Kind) returns (trace: RunTrace)
      requires Valid() && final.None? && started && active == [] && Terminal(kind)
      modifies this`events, this`sequence, this`counters, this`started, this`final
      ensures Valid() && final == Some(trace) && trace.stop == stop && trace.counters == old(counters)
      ensures events == old(events) + [Event(|old(events)|, kind, Some(RUN_INVOCATION), None)]
    {
      var summary := counters;
      var e := Append(kind, Some(RUN_INVOCATION), None);
      trace := RunTrace(summary, stop, events);
      final := Some(trace);
    }

    method EndRun(stop: StopReason, kind: Kind) returns (trace: RunTrace)
      requires Valid() && final.None? && started && Terminal(kind)
      modifies this`events, this`sequence, this`counters, this`started, this`active, this`finishes, this`final
      ensures Valid() && final == Some(trace) && trace.stop == stop && trace.counters == old(counters)
      ensures events == Wound(old(events), old(active), EndingOf(stop))
                        + [Event(|old(events)| + |old(active)|, kind, Some(RUN_INVOCATION), None)]
    {
      FinishAllActive(EndingOf(stop));
      trace := Conclude(stop, kind);
    }

    // Finalizing again returns the first trace.
    method Finalize(stop: StopReason, failed: bool) returns (trace: RunTrace)
      requires Valid()
      modifies this`events, this`sequence, this`counters, this`started, this`active, this`finishes, this`final
      ensures Valid() && final == Some(trace)
      ensures old(final).Some? ==> trace == old(final).value && events == old(events)
      ensures old(final).None? ==>
        && trace.stop == stop && trace.counters == old(counters)
        && events == Concluded(old(events), old(active), EndingOf(stop), if failed then RunFailed else RunFinished)
    {
      if final.Some? {
        return final.value;
      }
      EnsureStarted();
      trace := EndRun(stop, if failed then RunFailed else RunFinished);
    }

    // The finalized trace, whatever calls led to it.
    lemma FinalTraceIsWellFormed(i: nat)
      requires Valid() && final.Some? && i < |final.value.events|
      ensures var t := final.value.events;
        && t[i].sequence == i
        && (t[i].kind == RunStarted <==> i == 0)
        && (Terminal(t[i].kind) <==> i == |t| - 1)
        && CountersAgree(final.value.counters, t)
      ensures var t := final.value.events;
        t[i].kind.Started? ==>
          && t[i].invocation.Some?
          && Opened(t, t[i].invocation.value) == 1 && Closed(t, t[i].invocation.value) == 1
          && exists j :: i < j < |t| && Closes(t[j], t[i].invocation.value)
                         && t[j].kind.op == t[i].kind.op && t[j].parent == t[i].parent
    {
      assert NumberedAt(events, i) && FramedAt(events, true, i);
      if events[i].kind.Started? {
        EveryStartIsFinishedOnce(Snapshot(), i);
      }
    }
  }

  // The log once the run has started.
  function Begun(events: seq<Event>): (r: seq<Event>)
    ensures r != []
  {
    if events == [] then [Event(0, RunStarted, Some(RUN_INVOCATION), None)] else events
  }
}
