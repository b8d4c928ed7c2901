// The event log of one run and what keeps it coherent: positions, one terminal event, one
// finish for every started invocation, and counters that count.
module TraceLogs {
  import opened JsonValues
  import opened Sequences

  // Invocation identifiers are drawn afresh; 0 stands for the run's own.
  type Id = nat

  datatype Operation = PolicyCall | ToolCall | BackendCall | Verification

  datatype Point = CacheHit | CacheOperationFailed | AssetCreated | Other(name: string)

  datatype Ending = EndedOk | EndedError | EndedCancelled | EndedTimeout | EndedRefused | EndedOther(name: string)

  datatype Kind = RunStarted | RunFinished | RunFailed | Noted(point: Point) | Started(op: Operation)
                | Finished(op: Operation, ending: Ending)

  datatype Event = Event(sequence: nat, kind: Kind, invocation: Option<Id>, parent: Option<Id>)

  datatype Invocation = Invocation(id: Id, op: Operation, parent: Id)

  datatype Counters = Counters(llmCalls: nat, toolCalls: nat, backendCalls: nat, cacheHits: nat, cacheFailures: nat,
                               derivedAssets: nat)

  const NO_COUNTS := Counters(0, 0, 0, 0, 0, 0)

  predicate Terminal(k: Kind)
  {
    k.RunFinished? || k.RunFailed?
  }

  function Counted(c: Counters, k: Kind): (r: Counters)
  {
    match k
    case Started(PolicyCall) => c.(llmCalls := c.llmCalls + 1)
    case Started(ToolCall) => c.(toolCalls := c.toolCalls + 1)
    case Started(BackendCall) => c.(backendCalls := c.backendCalls + 1)
    case Noted(CacheHit) => c.(cacheHits := c.cacheHits + 1)
    case Noted(CacheOperationFailed) => c.(cacheFailures := c.cacheFailures + 1)
    case Noted(AssetCreated) => c.(derivedAssets := c.derivedAssets + 1)
    case _ => c
  }

  // How many events of a kind a log holds.
  function Tally(events: seq<Event>, kind: Kind): (r: nat)
  {
    if events == [] then 0 else Tally(Front(events), kind) + if Last(events).kind == kind then 1 else 0
  }

  // Every counter is the number of its events.
  ghost predicate CountersAgree(c: Counters, events: seq<Event>)
  {
    && c.llmCalls == Tally(events, Started(PolicyCall))
    && c.toolCalls == Tally(events, Started(ToolCall))
    && c.backendCalls == Tally(events, Started(BackendCall))
    && c.cacheHits == Tally(events, Noted(CacheHit))
    && c.cacheFailures == Tally(events, Noted(CacheOperationFailed))
    && c.derivedAssets == Tally(events, Noted(AssetCreated))
  }

  lemma CountingKeepsAgreement(c: Counters, events: seq<Event>, e: Event)
    requires CountersAgree(c, events)
    ensures CountersAgree(Counted(c, e.kind), events + [e])
  {}

  /******* Invocations *******/

  predicate Opens(e: Event, id: Id)
  {
    e.kind.Started? && e.invocation == Some(id)
  }

  predicate Closes(e: Event, id: Id)
  {
    e.kind.Finished? && e.invocation == Some(id)
  }

  function Opened(events: seq<Event>, id: Id): (r: nat)
  {
    if events == [] then 0 else Opened(Front(events), id) + if Opens(Last(events), id) then 1 else 0
  }

  function Closed(events: seq<Event>, id: Id): (r: nat)
  {
    if events == [] then 0 else Closed(Front(events), id) + if Closes(Last(events), id) then 1 else 0
  }

  // An event that starts this invocation, and one that finishes it.
  predicate StartsIt(e: Event, v: Invocation)
  {
    e.kind == Started(v.op) && e.invocation == Some(v.id) && e.parent == Some(v.parent)
  }

  predicate FinishesIt(e: Event, v: Invocation)
  {
    e.kind.Finished? && e.kind.op == v.op && e.invocation == Some(v.id) && e.parent == Some(v.parent)
  }

  // The invocation was started and finished later.
  ghost predicate RanThrough(events: seq<Event>, v: Invocation)
  {
    exists i, j :: 0 <= i < j < |events| && StartsIt(events[i], v) && FinishesIt(events[j], v)
  }

  ghost predicate WasStarted(events: seq<Event>, v: Invocation)
  {
    exists i :: 0 <= i < |events| && StartsIt(events[i], v)
  }

  datatype Log = Log(events: seq<Event>, active: seq<Invocation>, finishes: map<Id, Event>, issued: Id)

  function Ids(active: seq<Invocation>): (r: set<Id>)
  {
    set v | v in active :: v.id
  }

  function Without(active: seq<Invocation>, id: Id): (r: seq<Invocation>)
  {
    if active == [] then []
    else Without(Front(active), id) + if Last(active).id == id then [] else [Last(active)]
  }

  lemma {:induction false} WithoutHolds(active: seq<Invocation>, id: Id)
    ensures forall v :: v in Without(active, id) <==> v in active && v.id != id
    decreases |active|
  {
    if active != [] {
      WithoutHolds(Front(active), id);
      assert active == Front(active) + [Last(active)];
    }
  }

  ghost predicate DistinctIds(active: seq<Invocation>)
  {
    forall i, j :: 0 <= i < j < |active| ==> active[i].id != active[j].id
  }

  lemma {:induction false} WithoutKeepsDistinct(active: seq<Invocation>, id: Id)
    requires DistinctIds(active)
    ensures DistinctIds(Without(active, id))
    decreases |active|
  {
    if active != [] {
      WithoutKeepsDistinct(Front(active), id);
      WithoutHolds(Front(active), id);
      var front := Without(Front(active), id);
      forall i | 0 <= i < |front|
        ensures front[i].id != Last(active).id
      {
        assert front[i] in Front(active);
      }
    }
  }

  // What the log says of one identifier: never used, running, or finished.
  ghost predicate Tracked(l: Log, id: Id)
  {
    && (l.issued <= id ==> id !in Ids(l.active) && id !in l.finishes)
    && (id in Ids(l.active) ==> id !in l.finishes)
    && Opened(l.events, id) == (if id in Ids(l.active) || id in l.finishes then 1 else 0)
    && Closed(l.events, id) == (if id in l.finishes then 1 else 0)
  }

  ghost predicate FinishRecorded(l: Log, id: Id)
    requires id in l.finishes
  {
    l.finishes[id] in l.events && Closes(l.finishes[id], id)
  }

  // Every start belongs to an invocation that is running or has finished.
  ghost predicate StartAccounted(l: Log, i: nat)
    requires i < |l.events|
  {
    l.events[i].kind.Started? ==>
      && l.events[i].invocation.Some? && l.events[i].parent.Some?
      && var v := Invocation(l.events[i].invocation.value, l.events[i].kind.op, l.events[i].parent.value);
         v in l.active || (v.id in l.finishes && RanThrough(l.events, v))
  }

  ghost predicate Coherent(l: Log)
  {
    && (forall id: Id :: Tracked(l, id))
    && (forall id :: id in l.finishes ==> FinishRecorded(l, id))
    && (forall v :: v in l.active ==> WasStarted(l.events, v))
    && (forall i :: 0 <= i < |l.events| ==> StartAccounted(l, i))
    && DistinctIds(l.active)
  }

  /******* Steps *******/

  // A point or lifecycle event.
  function Noting(l: Log, e: Event): (r: Log)
  {
    l.(events := l.events + [e])
  }

  function Starting(l: Log, e: Event, v: Invocation): (r: Log)
  {
    Log(l.events + [e], l.active + [v], l.finishes, v.id + 1)
  }

  function Finishing(l: Log, e: Event, v: Invocation): (r: Log)
  {
    Log(l.events + [e], Without(l.active, v.id), l.finishes[v.id := e], l.issued)
  }

  lemma StillStarted(events: seq<Event>, e: Event, v: Invocation)
    ensures WasStarted(events, v) ==> WasStarted(events + [e], v)
    ensures RanThrough(events, v) ==> RanThrough(events + [e], v)
  {
    if WasStarted(events, v) {
      var i :| 0 <= i < |events| && StartsIt(events[i], v);
      assert StartsIt((events + [e])[i], v);
    }
    if RanThrough(events, v) {
      var i, j :| 0 <= i < j < |events| && StartsIt(events[i], v) && FinishesIt(events[j], v);
      assert StartsIt((events + [e])[i], v) && FinishesIt((events + [e])[j], v);
    }
  }

  lemma FinishRunsThrough(events: seq<Event>, e: Event, v: Invocation)
    requires WasStarted(events, v) && FinishesIt(e, v)
    ensures RanThrough(events + [e], v)
  {
    var i :| 0 <= i < |events| && StartsIt(events[i], v);
    assert StartsIt((events + [e])[i], v) && FinishesIt((events + [e])[|events|], v);
  }

  // The start at a position, once an event follows the log.
  lemma StartStaysAccounted(l: Log, r: Log, e: Event, i: nat)
    requires i < |l.events| && StartAccounted(l, i) && r.events == l.events + [e]
    requires forall v :: v in l.active ==> v in r.active || (v.id in r.finishes && RanThrough(r.events, v))
    requires forall id :: id in l.finishes ==> id in r.finishes
    ensures StartAccounted(r, i)
  {
    if l.events[i].kind.Started? {
      var v := Invocation(l.events[i].invocation.value, l.events[i].kind.op, l.events[i].parent.value);
      StillStarted(l.events, e, v);
    }
  }

  lemma NotingKeepsCoherent(l: Log, e: Event)
    requires Coherent(l) && !e.kind.Started? && !e.kind.Finished?
    ensures Coherent(Noting(l, e))
  {
    var r := Noting(l, e);
    forall id: Id
      ensures Tracked(r, id)
    {
      assert Tracked(l, id);
    }
    forall v | v in l.active
      ensures WasStarted(r.events, v)
    {
      StillStarted(l.events, e, v);
    }
    forall i | 0 <= i < |r.events|
      ensures StartAccounted(r, i)
    {
      if i < |l.events| { StartStaysAccounted(l, r, e, i); }
    }
    forall id | id in l.finishes
      ensures FinishRecorded(r, id)
    {
      assert FinishRecorded(l, id);
    }
  }

  lemma IdsWithout(active: seq<Invocation>, id: Id)
    ensures Ids(Without(active, id)) == Ids(active) - {id}
  {
    WithoutHolds(active, id);
  }

  lemma StartingKeepsCoherent(l: Log, e: Event, v: Invocation)
    requires Coherent(l) && StartsIt(e, v) && l.issued <= v.id
    ensures Coherent(Starting(l, e, v))
  {
    var r := Starting(l, e, v);
    assert Tracked(l, v.id);
    forall id: Id
      ensures Tracked(r, id)
    {
      assert Tracked(l, id);
    }
    forall w | w in r.active
      ensures WasStarted(r.events, w)
    {
      StillStarted(l.events, e, w);
      if w !in l.active { assert StartsIt(r.events[|l.events|], v); }
    }
    forall i | 0 <= i < |r.events|
      ensures StartAccounted(r, i)
    {
      if i < |l.events| { StartStaysAccounted(l, r, e, i); }
    }
    forall id | id in l.finishes
      ensures FinishRecorded(r, id)
    {
      assert FinishRecorded(l, id);
    }
  }

  lemma FinishingKeepsCoherent(l: Log, e: Event, v: Invocation)
    requires Coherent(l) && FinishesIt(e, v) && v in l.active
    ensures Coherent(Finishing(l, e, v))
  {
    var r := Finishing(l, e, v);
    WithoutHolds(l.active, v.id);
    IdsWithout(l.active, v.id);
    WithoutKeepsDistinct(l.active, v.id);
    assert v.id in Ids(l.active);
    FinishRunsThrough(l.events, e, v);
    forall id: Id
      ensures Tracked(r, id)
    {
      assert Tracked(l, id);
    }
    forall w | w in r.active
      ensures WasStarted(r.events, w)
    {
      StillStarted(l.events, e, w);
    }
    forall i | 0 <= i < |r.events|
      ensures StartAccounted(r, i)
    {
      if i < |l.events| { StartStaysAccounted(l, r, e, i); }
    }
    forall id | id in r.finishes
      ensures FinishRecorded(r, id)
    {
      if id != v.id { assert FinishRecorded(l, id); } else { assert r.events[|l.events|] == e; }
    }
  }

  // A started invocation of a coherent log that is not running has its finish on record.
  lemma StartedIsActiveOrFinished(l: Log, v: Invocation)
    requires Coherent(l) && WasStarted(l.events, v)
    ensures v in l.active || v.id in l.finishes
  {
    var i :| 0 <= i < |l.events| && StartsIt(l.events[i], v);
    assert StartAccounted(l, i);
  }

  // Once nothing runs, every start has exactly one finish: later, of the same operation
  // and of the same invocation, which was started once.
  lemma EveryStartIsFinishedOnce(l: Log, i: nat)
    requires Coherent(l) && l.active == [] && i < |l.events| && l.events[i].kind.Started?
    ensures l.events[i].invocation.Some?
    ensures var id := l.events[i].invocation.value;
      Opened(l.events, id) == 1 && Closed(l.events, id) == 1
    ensures exists j :: i < j < |l.events| && Closes(l.events[j], l.events[i].invocation.value)
                        && l.events[j].kind.op == l.events[i].kind.op && l.events[j].parent == l.events[i].parent
  {
    assert StartAccounted(l, i);
    var v := Invocation(l.events[i].invocation.value, l.events[i].kind.op, l.events[i].parent.value);
    assert Tracked(l, v.id);
    var k, j :| 0 <= k < j < |l.events| && StartsIt(l.events[k], v) && FinishesIt(l.events[j], v);
    OpenedOnce(l.events, v.id, i, k);
  }

  // Two positions that open the same identifier are one when it was opened once.
  lemma {:induction false} OpenedOnce(events: seq<Event>, id: Id, i: nat, k: nat)
    requires i < |events| && k < |events| && Opens(events[i], id) && Opens(events[k], id)
    requires Opened(events, id) <= 1
    ensures i == k
    decreases |events|
  {
    var n := |events| - 1;
    if i < n && k < n {
      OpenedOnce(Front(events), id, i, k);
    } else if i < n {
      OpenedAtLeastOnce(Front(events), id, i);
    } else if k < n {
      OpenedAtLeastOnce(Front(events), id, k);
    }
  }

  lemma {:induction false} OpenedAtLeastOnce(events: seq<Event>, id: Id, i: nat)
    requires i < |events| && Opens(events[i], id)
    ensures 1 <= Opened(events, id)
    decreases |events|
  {
    if i < |events| - 1 { OpenedAtLeastOnce(Front(events), id, i); }
  }
}
