// The bounded question run. The policy and the tools are adversaries: whatever they reply,
// the loop ends, its reservations hold and its final decision stays affordable. The run's
// deadline is taken not to expire.
module AskRuns {
  import opened JsonValues
  import opened RunBudgets
  import opened AssetStores
  import opened TraceLogs
  import opened TraceBuilders

  // The hash of a tool name with its arguments.
  type Call = string

  // What the policy returns for one language-model call. An answer's evidence either
  // validates or does not.
  datatype Reply = UseTool(call: Call) | Answer(supported: bool) | Unparsable | PolicyFails

  // What one perception of an image comes to: the backends it would try before it ends, and
  // whether it then fails.
  datatype Perception = Perception(attempts: nat, fails: bool)

  // What becomes of one tool action. `reserved` is the number of assets its arguments ask
  // for; `prepared` is None when a rendered image is not valid; `recorded` says whether the
  // observations it led to could be recorded.
  datatype ToolResult = Renders(prepared: Option<seq<string>>, recorded: bool) | Observes(recorded: bool)

  datatype ToolReply =
    | InvalidArguments
    | AssetHidden
    | Runs(asset: string, reserved: nat, perception: Perception, result: ToolResult)

  // What becomes of one capability of the initial plan.
  datatype InitialReply = Present | Unavailable | Perceives(perception: Perception, recorded: bool)

  datatype Outcome =
    | Answered(finalCall: bool)
    | InvalidModelAction
    | EvidenceRejected
    | FinalMustAnswer
    | PolicyError
    | PerceptionFailed
    | RecordingFailed
    | Refused(refusal: Refusal)
    | CommitFailed(error: CommitError)

  datatype PolicyResult = Chosen(reply: Reply) | Undecided(outcome: Outcome)

  datatype ExecuteResult = Executed | BudgetStopped(refusal: Refusal) | Failed(outcome: Outcome)

  // How one turn of the loop ends.
  datatype StepEnd = Continues | Breaks | Ended(outcome: Outcome)

  // Rendered images are encoded to digests of full length.
  predicate GoodDigests(r: ToolReply)
  {
    r.Runs? && r.result.Renders? && r.result.prepared.Some? ==>
      r.result.prepared.value != [] && forall d :: d in r.result.prepared.value ==> IsDigest(d)
  }

  // Tools render exactly what their arguments reserve.
  predicate KeepsCount(r: ToolReply)
  {
    r.Runs? ==>
      match r.result
      case Renders(Some(digests), _) => |digests| == r.reserved
      case Observes(_) => r.reserved == 0
      case _ => true
  }

  // The reservation a tool that succeeds leaves behind beyond what it rendered.
  function Leak(r: ToolReply): (n: int)
  {
    if !r.Runs? then 0
    else match r.result
      case Renders(Some(digests), _) => r.reserved - |digests|
      case Observes(_) => r.reserved
      case _ => 0
  }

  // The backend reservations a perception ends with, and whether it succeeds: it fails at
  // the first reservation that is refused.
  function Attempted(p: Perception, backendCalls: nat, max: nat): (r: nat)
  {
    if backendCalls + p.attempts <= max then backendCalls + p.attempts
    else if backendCalls <= max then max
    else backendCalls
  }

  predicate Succeeds(p: Perception, backendCalls: nat, max: nat)
  {
    backendCalls + p.attempts <= max && !p.fails
  }

  /******* The initial plan *******/

  datatype Initial = Initial(toolCalls: nat, backendCalls: nat, outcome: Option<Outcome>)

  // What the initial plan reserves and whether it ends the run. A tool call that cannot be
  // reserved truncates the plan; a perception that fails ends the run.
  function InitialPlan(plan: seq<InitialReply>, toolCalls: nat, backendCalls: nat, limits: RunLimits): (r: Initial)
  {
    if plan == [] then Initial(toolCalls, backendCalls, None)
    else match plan[0]
      case Perceives(perception, recorded) =>
        if limits.maxToolCalls <= toolCalls then Initial(toolCalls, backendCalls, None)
        else
          var attempted := Attempted(perception, backendCalls, limits.maxBackendCalls);
          if !Succeeds(perception, backendCalls, limits.maxBackendCalls) then
            Initial(toolCalls + 1, attempted, Some(PerceptionFailed))
          else if !recorded then Initial(toolCalls + 1, attempted, Some(RecordingFailed))
          else InitialPlan(plan[1..], toolCalls + 1, attempted, limits)
      case _ => InitialPlan(plan[1..], toolCalls, backendCalls, limits)
  }

  // The capabilities that are perceived, and the backends they try.
  function Perceived(plan: seq<InitialReply>): (r: nat)
  {
    if plan == [] then 0 else (if plan[0].Perceives? then 1 else 0) + Perceived(plan[1..])
  }

  function PlannedAttempts(plan: seq<InitialReply>): (r: nat)
  {
    if plan == [] then 0
    else (if plan[0].Perceives? then plan[0].perception.attempts else 0) + PlannedAttempts(plan[1..])
  }

  // A plan that ends the run ran into a capability that could not be perceived or recorded;
  // one that does not end it perceived and recorded all it came to.
  lemma {:induction false} InitialPlanEnds(plan: seq<InitialReply>, toolCalls: nat, backendCalls: nat,
                                           limits: RunLimits)
    ensures InitialPlan(plan, toolCalls, backendCalls, limits).outcome == Some(PerceptionFailed) ==>
      exists i :: 0 <= i < |plan| && plan[i].Perceives?
                  && (plan[i].perception.fails || limits.maxBackendCalls < backendCalls + PlannedAttempts(plan))
    ensures InitialPlan(plan, toolCalls, backendCalls, limits).outcome == Some(RecordingFailed) ==>
      exists i :: 0 <= i < |plan| && plan[i].Perceives? && !plan[i].recorded
    ensures InitialPlan(plan, toolCalls, backendCalls, limits).outcome.None?
            && toolCalls + Perceived(plan) <= limits.maxToolCalls ==>
      && (forall i :: 0 <= i < |plan| && plan[i].Perceives? ==> !plan[i].perception.fails && plan[i].recorded)
      && InitialPlan(plan, toolCalls, backendCalls, limits).backendCalls == backendCalls + PlannedAttempts(plan)
  {
    if plan != [] {
      var rest := plan[1..];
      match plan[0] {
        case Perceives(perception, recorded) =>
          if toolCalls < limits.maxToolCalls && Succeeds(perception, backendCalls, limits.maxBackendCalls) && recorded {
            InitialPlanEnds(rest, toolCalls + 1, backendCalls + perception.attempts, limits);
          }
        case _ => InitialPlanEnds(rest, toolCalls, backendCalls, limits);
      }
      assert forall i :: 1 <= i < |plan| ==> plan[i] == rest[i - 1];
      assert forall i :: 0 <= i < |rest| ==> rest[i] == plan[i + 1];
    }
  }

  // A plan stays within both limits, and one that does not end the run has reserved a tool
  // call for every perceived capability, or all there are.
  lemma {:induction false} InitialPlanIsBounded(plan: seq<InitialReply>, toolCalls: nat, backendCalls: nat,
                                                limits: RunLimits)
    requires toolCalls <= limits.maxToolCalls && backendCalls <= limits.maxBackendCalls
    ensures var r := InitialPlan(plan, toolCalls, backendCalls, limits);
      && toolCalls <= r.toolCalls <= limits.maxToolCalls && backendCalls <= r.backendCalls <= limits.maxBackendCalls
      && r.backendCalls <= backendCalls + PlannedAttempts(plan)
      && (r.outcome.None? ==>
            r.toolCalls == if toolCalls + Perceived(plan) <= limits.maxToolCalls then toolCalls + Perceived(plan)
                           else limits.maxToolCalls)
      && (r.outcome.Some? ==> r.outcome.value in {PerceptionFailed, RecordingFailed})
  {
    if plan != [] {
      match plan[0]
      case Perceives(perception, recorded) =>
        if toolCalls < limits.maxToolCalls && Succeeds(perception, backendCalls, limits.maxBackendCalls) {
          InitialPlanIsBounded(plan[1..], toolCalls + 1, backendCalls + perception.attempts, limits);
        }
      case _ => InitialPlanIsBounded(plan[1..], toolCalls, backendCalls, limits);
    }
  }

  function CountIn(counts: map<Call, nat>, call: Call): (r: nat)
  {
    if call in counts then counts[call] else 0
  }

  // How often the first `n` replies ask for a call.
  ghost function TimesAsked(policy: nat -> Reply, n: nat, call: Call): (r: nat)
  {
    if n == 0 then 0 else TimesAsked(policy, n - 1, call) + if policy(n - 1) == UseTool(call) then 1 else 0
  }

  // Every call was executed as often as the first `n` replies ask for it, up to `most` times.
  ghost predicate Capped(policy: nat -> Reply, most: nat, executed: multiset<Call>, n: nat)
  {
    forall call :: executed[call] == AtMost(TimesAsked(policy, n, call), most)
  }

  function AtMost(times: nat, most: nat): (r: nat)
  {
    if times <= most then times else most
  }

  predicate NoneAsked(policy: nat -> Reply, n: nat, m: nat)
  {
    forall i: nat :: n <= i < m ==> !policy(i).UseTool?
  }

  lemma {:induction false} TimesAskedStays(policy: nat -> Reply, n: nat, m: nat, call: Call)
    requires n <= m && NoneAsked(policy, n, m)
    ensures TimesAsked(policy, m, call) == TimesAsked(policy, n, call)
    decreases m
  {
    if n < m { TimesAskedStays(policy, n, m - 1, call); }
  }

  lemma CappedStays(policy: nat -> Reply, most: nat, executed: multiset<Call>, n: nat, m: nat)
    requires Capped(policy, most, executed, n) && n <= m && NoneAsked(policy, n, m)
    ensures Capped(policy, most, executed, m)
  {
    forall call
      ensures executed[call] == AtMost(TimesAsked(policy, m, call), most)
    {
      TimesAskedStays(policy, n, m, call);
    }
  }

  // What executing a call once more comes to.
  function Executing(executed: multiset<Call>, call: Call, most: nat): (r: multiset<Call>)
  {
    executed + if executed[call] < most then multiset{call} else multiset{}
  }

  lemma CappedGrows(policy: nat -> Reply, most: nat, executed: multiset<Call>, n: nat, m: nat)
    requires Capped(policy, most, executed, n) && n < m && NoneAsked(policy, n, m - 1) && policy(m - 1).UseTool?
    ensures Capped(policy, most, Executing(executed, policy(m - 1).call, most), m)
  {
    var after := Executing(executed, policy(m - 1).call, most);
    forall call
      ensures after[call] == AtMost(TimesAsked(policy, m, call), most)
    {
      TimesAskedStays(policy, n, m - 1, call);
    }
  }

  // A commit error of the budget family stops the loop; any other ends the run.
  function AfterCommitError(e: CommitError): (r: ExecuteResult)
  {
    match e
    case DepthLimitExceeded => BudgetStopped(DepthLimit)
    case AssetLimitExceeded => BudgetStopped(AssetLimit)
    case _ => Failed(CommitFailed(e))
  }

  // One decision made with call `k` onwards while fewer than `limit` calls are used: an
  // unparsable reply is repaired once.
  function Decision(policy: nat -> Reply, k: nat, limit: nat): (r: PolicyResult)
    ensures r.Chosen? ==> r.reply.UseTool? || r.reply.Answer?
    ensures r.Undecided? ==> r.outcome in {Refused(LlmCallLimit), InvalidModelAction, PolicyError}
  {
    if limit <= k then Undecided(Refused(LlmCallLimit))
    else match policy(k)
      case Unparsable =>
        if limit <= k + 1 || policy(k + 1).Unparsable? then Undecided(InvalidModelAction)
        else if policy(k + 1).PolicyFails? then Undecided(PolicyError) else Chosen(policy(k + 1))
      case PolicyFails => Undecided(PolicyError)
      case _ => Chosen(policy(k))
  }

  // The calls one decision takes.
  function DecisionCalls(policy: nat -> Reply, k: nat, limit: nat): (r: nat)
  {
    if limit <= k then 0 else if policy(k).Unparsable? && k + 1 < limit then 2 else 1
  }

  // An answer whose evidence fails gets one repair call.
  function Completion(policy: nat -> Reply, supported: bool, finalCall: bool, k: nat, limit: nat): (r: Outcome)
    ensures r in {Answered(finalCall), EvidenceRejected, PolicyError}
  {
    if supported then Answered(finalCall)
    else if limit <= k then EvidenceRejected
    else match policy(k)
      case PolicyFails => PolicyError
      case Answer(true) => Answered(finalCall)
      case _ => EvidenceRejected
  }

  // Completing an answer acts on no call that comes instead.
  lemma CompletionAsks(policy: nat -> Reply, supported: bool, k: nat, limit: nat)
    requires 0 < k && policy(k - 1) == Answer(supported)
    ensures var n := k + CompletionCalls(supported, k, limit);
      && (policy(n - 1).UseTool? ==> Completion(policy, supported, false, k, limit).EvidenceRejected? && n == k + 1)
      && (!policy(n - 1).UseTool? ==> NoneAsked(policy, k, n))
  {}

  // The last reply that was asked for is what the outcome rests on.
  predicate RestsOn(outcome: Outcome, last: Reply)
  {
    match outcome
    case Answered(_) => last == Answer(true)
    case InvalidModelAction => last.Unparsable?
    case PolicyError => last.PolicyFails?
    case FinalMustAnswer => last.UseTool?
    case EvidenceRejected => last != Answer(true) && !last.PolicyFails?
    case _ => last.UseTool?
  }

  // So a supported answer is answered, and nothing else is.
  lemma AnsweredExact(outcome: Outcome, last: Reply)
    requires RestsOn(outcome, last)
    ensures outcome.Answered? <==> last == Answer(true)
  {}

  // A decision is the last reply asked for, and a failure to decide says which.
  lemma DecisionRestsOnLast(policy: nat -> Reply, k: nat, limit: nat)
    ensures var d, calls := Decision(policy, k, limit), DecisionCalls(policy, k, limit);
      && (d.Chosen? ==> 0 < calls && d.reply == policy(k + calls - 1))
      && (d.Undecided? && d.outcome != Refused(LlmCallLimit) ==> 0 < calls && RestsOn(d.outcome, policy(k + calls - 1)))
      && (d == Undecided(Refused(LlmCallLimit)) <==> calls == 0)
  {}

  // Only the last reply of a decision can ask for a tool, and that of a failed one does not.
  lemma DecisionAsks(policy: nat -> Reply, k: nat, limit: nat)
    ensures var n := k + DecisionCalls(policy, k, limit);
      && (k < n ==> NoneAsked(policy, k, n - 1))
      && (Decision(policy, k, limit).Undecided? ==> NoneAsked(policy, k, n))
  {}

  // One reply decides unless it cannot be parsed; then one more does if a call is left.
  lemma DecisionRepairsOnce(policy: nat -> Reply, k: nat, limit: nat)
    requires k < limit
    ensures DecisionCalls(policy, k, limit) == 2 <==> policy(k).Unparsable? && k + 1 < limit
    ensures policy(k).UseTool? || policy(k).Answer? <==> DecisionCalls(policy, k, limit) == 1
                                                          && Decision(policy, k, limit).Chosen?
  {}

  // The final decision rests on its last reply, and answers only on supported evidence.
  lemma FinalRestsOnLast(policy: nat -> Reply, k: nat, limit: nat)
    requires k < limit
    ensures RestsOn(FinalOutcome(policy, k, limit), policy(k + FinalCalls(policy, k, limit) - 1))
  {
    DecisionRestsOnLast(policy, k, limit);
  }

  // The calls an answer's repair takes, and those of the final decision with it.
  function CompletionCalls(supported: bool, k: nat, limit: nat): (r: nat)
  {
    if !supported && k < limit then 1 else 0
  }

  function FinalCalls(policy: nat -> Reply, k: nat, limit: nat): (r: nat)
  {
    var calls := DecisionCalls(policy, k, limit);
    match Decision(policy, k, limit)
    case Undecided(_) => calls
    case Chosen(reply) => if reply.Answer? then calls + CompletionCalls(reply.supported, k + calls, limit) else calls
  }

  // What the final answer-only decision comes to when its first call has index `k`.
  function FinalOutcome(policy: nat -> Reply, k: nat, maxLlmCalls: nat): (r: Outcome)
  {
    match Decision(policy, k, maxLlmCalls)
    case Undecided(outcome) => outcome
    case Chosen(reply) =>
      if reply.Answer? then
        Completion(policy, reply.supported, true, k + DecisionCalls(policy, k, maxLlmCalls), maxLlmCalls)
      else FinalMustAnswer
  }

  // The final call is always affordable, and so is one repair of it when none was used
  // before: an answer given on the first or the repaired reply is the run's answer.
  lemma FinalDecisionIsAffordable(policy: nat -> Reply, limits: RunLimits, steps: nat, repairs: nat)
    requires limits.Valid() && steps < limits.maxSteps && steps + repairs < limits.maxLlmCalls
    ensures !FinalOutcome(policy, steps + repairs, limits.maxLlmCalls).Refused?
    ensures policy(steps + repairs) == Answer(true) ==>
      FinalOutcome(policy, steps + repairs, limits.maxLlmCalls) == Answered(true)
    ensures repairs == 0 && policy(steps) in {Unparsable, Answer(false)} && policy(steps + 1) == Answer(true) ==>
      FinalOutcome(policy, steps, limits.maxLlmCalls) == Answered(true)
  {}

  function ReusedCount(commits: seq<Commit>): (r: nat)
  {
    |commits| - NewCount(commits)
  }

  // The outcomes that leave a commit half recorded.
  predicate Interrupts(outcome: Outcome)
  {
    outcome == Refused(BadCount) || outcome == RecordingFailed
  }

  // The run of one question. Of its trace, the created assets are followed.
  class AskRun {
    const budget: RunBudget
    const store: AssetStore
    const trace: TraceBuilder
    const initial: seq<InitialReply>
    const maxIdentical: nat
    const policy: nat -> Reply
    const tools: nat -> ToolReply

    var actionCounts: map<Call, nat>

    // The calls executed, what tools over-reserved, the repairs spent on decisions, and
    // where the store was when the run began.
    ghost var executed: multiset<Call>
    ghost var leaked: int
    ghost var repairs: nat
    ghost var storeStart: int

    constructor (budget: RunBudget, store: AssetStore, trace: TraceBuilder, initial: seq<InitialReply>,
                 maxIdentical: nat, policy: nat -> Reply, tools: nat -> ToolReply)
      ensures this.budget == budget && this.store == store && this.trace == trace
      ensures this.initial == initial && this.maxIdentical == maxIdentical
      ensures this.policy == policy && this.tools == tools
      ensures actionCounts == map[] && executed == multiset{} && leaked == 0 && repairs == 0
      ensures storeStart == store.DerivedCount()
    {
      this.budget, this.store, this.trace, this.initial, this.maxIdentical :=
        budget, store, trace, initial, maxIdentical;
      this.policy, this.tools := policy, tools;
      actionCounts := map[];
      executed, leaked, repairs := multiset{}, 0, 0;
      storeStart := store.DerivedCount();
    }

    // The assets the trace counts as created.
    function TraceDerived(): (r: nat)
      reads trace
    {
      trace.counters.derivedAssets
    }

    ghost predicate Tracing()
      reads trace
    {
      trace.Valid() && trace.final.None?
    }

    // The budget and the store agree up to what tools over-reserved.
    ghost predicate StoreAccounted()
      reads this`leaked, this`storeStart, budget, store
    {
      budget.derivedAssets == store.DerivedCount() - storeStart + leaked
    }

    // So does the trace.
    ghost predicate Accounted()
      reads this`leaked, this`storeStart, budget, store, trace
    {
      StoreAccounted() && TraceDerived() == store.DerivedCount() - storeStart
    }

    // No call was executed too often.
    ghost predicate CallsBounded()
      reads this`executed, this`actionCounts
    {
      forall call :: executed[call] == CountIn(actionCounts, call) <= maxIdentical
    }

    // Every call that the first `n` replies ask for was executed, up to the number of times
    // that one may be.
    ghost predicate AskedAreExecuted(n: nat)
      reads this`executed
    {
      Capped(policy, maxIdentical, executed, n)
    }

    // What holds between any two actions.
    ghost predicate AtBoundary()
      reads this, budget, store, trace
    {
      budget.Valid() && store.Valid() && !store.closed && Tracing() && Accounted() && CallsBounded()
    }

    /******* The policy *******/

    // The outcome rests on the last reply the run asked for, which there is.
    ghost predicate RestsOnLast(outcome: Outcome)
      reads budget
    {
      0 < budget.llmCalls && RestsOn(outcome, policy(budget.llmCalls - 1))
    }

    // The replies that were to be acted on: not a tool call that came instead of a repaired
    // answer.
    ghost function ActedUpTo(outcome: Outcome): (r: nat)
      reads budget
    {
      if outcome.EvidenceRejected? && 0 < budget.llmCalls && policy(budget.llmCalls - 1).UseTool?
      then budget.llmCalls - 1
      else budget.llmCalls
    }

    // Calls before the last one are for decisions that may still use a tool.
    function CallLimit(final: bool): (r: nat)
      requires budget.limits.Valid()
    {
      if final then budget.limits.maxLlmCalls else budget.limits.maxLlmCalls - 1
    }

    method ReserveAndAsk(final: bool, repair: bool) returns (result: Option<Reply>)
      requires budget.Valid()
      modifies budget
      ensures budget.Valid()
      ensures result.None? <==> CallLimit(final) <= old(budget.llmCalls)
      ensures result.Some? ==> result.value == policy(old(budget.llmCalls))
      ensures budget.Used() == if result.Some? then old(budget.Used()).(llmCalls := old(budget.llmCalls) + 1)
                               else old(budget.Used())
    {
      var index := budget.llmCalls;
      var refused := budget.ReserveLlmCall(true, final, repair);
      result := if refused.Some? then None else Some(policy(index));
    }

    // One decision, with one repair of an unparsable reply.
    method PolicyAction(final: bool) returns (result: PolicyResult)
      requires budget.Valid()
      modifies budget
      ensures budget.Valid()
      ensures result == Decision(policy, old(budget.llmCalls), CallLimit(final))
      ensures result.Chosen? ==> 0 < budget.llmCalls && policy(budget.llmCalls - 1) == result.reply
      ensures result.Undecided? && old(budget.llmCalls) < CallLimit(final) ==> RestsOnLast(result.outcome)
      ensures budget.Used() == old(budget.Used()).(llmCalls :=
        old(budget.llmCalls) + DecisionCalls(policy, old(budget.llmCalls), CallLimit(final)))
    {
      DecisionRestsOnLast(policy, budget.llmCalls, CallLimit(final));
      var reply := ReserveAndAsk(final, false);
      if reply.None? {
        return Undecided(Refused(LlmCallLimit));
      }
      if reply.value.Unparsable? {
        reply := ReserveAndAsk(final, true);
        if reply.None? || reply.value.Unparsable? {
          return Undecided(InvalidModelAction);
        }
      }
      result := if reply.value.PolicyFails? then Undecided(PolicyError) else Chosen(reply.value);
    }

    method CompleteAnswer(supported: bool, finalCall: bool) returns (outcome: Outcome)
      requires budget.Valid()
      modifies budget
      ensures budget.Valid()
      ensures outcome == Completion(policy, supported, finalCall, old(budget.llmCalls), CallLimit(finalCall))
      ensures 0 < old(budget.llmCalls) && policy(old(budget.llmCalls) - 1) == Answer(supported) ==>
        RestsOnLast(outcome)
      ensures budget.Used() == old(budget.Used()).(llmCalls :=
        old(budget.llmCalls) + CompletionCalls(supported, old(budget.llmCalls), CallLimit(finalCall)))
    {
      if supported {
        return Answered(finalCall);
      }
      var reply := ReserveAndAsk(finalCall, true);
      if reply.None? {
        return EvidenceRejected;
      }
      match reply.value
      case PolicyFails => return PolicyError;
      case Answer(true) => return Answered(finalCall);
      case _ => return EvidenceRejected;
    }

    /******* The tools *******/

    // One backend reservation per attempt, up to the first that is refused.
    method Perceive(perception: Perception) returns (ok: bool)
      requires budget.Valid()
      modifies budget
      ensures budget.Valid()
      ensures ok == Succeeds(perception, old(budget.backendCalls), budget.limits.maxBackendCalls)
      ensures ok <==>
        !perception.fails && old(budget.backendCalls) + perception.attempts <= budget.limits.maxBackendCalls
      ensures budget.backendCalls == if old(budget.backendCalls) + perception.attempts <= budget.limits.maxBackendCalls
                                     then old(budget.backendCalls) + perception.attempts
                                     else budget.limits.maxBackendCalls
      ensures budget.Used() == old(budget.Used()).(backendCalls :=
        Attempted(perception, old(budget.backendCalls), budget.limits.maxBackendCalls))
    {
      for i := 0 to perception.attempts
        invariant budget.Valid()
        invariant budget.Used() == old(budget.Used()).(backendCalls := old(budget.backendCalls) + i)
      {
        var refused := budget.ReserveBackendCall(true, 1);
        if refused.Some? {
          return false;
        }
      }
      ok := !perception.fails;
    }

    // The initial observations, before the first decision.
    method EnsureInitialObservations() returns (failed: Option<Outcome>)
      requires budget.Valid()
      modifies budget
      ensures budget.Valid()
      ensures var r := InitialPlan(initial, old(budget.toolCalls), old(budget.backendCalls), budget.limits);
        && failed == r.outcome
        && budget.Used() == old(budget.Used()).(toolCalls := r.toolCalls, backendCalls := r.backendCalls)
    {
      assert initial[0..] == initial;
      for i := 0 to |initial|
        invariant budget.Valid()
        invariant budget.Used()
          == old(budget.Used()).(toolCalls := budget.toolCalls, backendCalls := budget.backendCalls)
        invariant InitialPlan(initial, old(budget.toolCalls), old(budget.backendCalls), budget.limits)
               == InitialPlan(initial[i..], budget.toolCalls, budget.backendCalls, budget.limits)
      {
        assert initial[i..][0] == initial[i] && initial[i..][1..] == initial[i + 1..];
        match initial[i] {
          case Perceives(perception, recorded) =>
            var refused := budget.ReserveToolCall(true, 1);
            if refused.Some? {
              return None;
            }
            var ok := Perceive(perception);
            if !ok {
              return Some(PerceptionFailed);
            }
            if !recorded {
              return Some(RecordingFailed);
            }
          case _ =>
        }
      }
      failed := None;
    }

    // One event per commit that is not a reuse.
    method EmitCreated(commits: seq<Commit>)
      requires Tracing()
      modifies trace
      ensures Tracing() && TraceDerived() == old(TraceDerived()) + NewCount(commits)
    {
      for i := 0 to |commits|
        invariant Tracing() && TraceDerived() == old(TraceDerived()) + NewCount(commits[..i])
      {
        assert commits[..i + 1][..i] == commits[..i];
        if !commits[i].reused {
          var _ := trace.Emit(Note(AssetCreated), None, Some(RUN_INVOCATION));
        }
      }
      assert commits[..|commits|] == commits;
    }

    // Reserves the whole fan-out of a transform one level below its parent.
    method ReserveFanOut(asset: string, reserved: nat) returns (stopped: Option<ExecuteResult>)
      requires budget.Valid()
      modifies budget
      ensures budget.Valid()
      ensures stopped.None? <==>
        reserved == 0
        || (asset in store.contents.records
            && store.contents.records[asset].depth + 1 <= budget.limits.maxDerivationDepth
            && old(budget.derivedAssets) + reserved <= budget.limits.maxDerivedAssets)
      ensures stopped.Some? && stopped.value.BudgetStopped? ==>
        && asset in store.contents.records
        && (budget.limits.maxDerivationDepth < store.contents.records[asset].depth + 1
            || budget.limits.maxDerivedAssets < budget.derivedAssets + reserved)
      ensures stopped.Some? ==>
        stopped.value in {Failed(CommitFailed(AssetNotFound)), BudgetStopped(DepthLimit), BudgetStopped(AssetLimit)}
      ensures budget.Used()
        == if stopped.None? then old(budget.Used()).(derivedAssets := old(budget.derivedAssets) + reserved)
           else old(budget.Used())
    {
      stopped := None;
      if 0 < reserved {
        if asset !in store.contents.records {
          return Some(Failed(CommitFailed(AssetNotFound)));
        }
        var refused := budget.ReserveDerivedAssets(true, reserved, store.contents.records[asset].depth);
        if refused.Some? {
          return Some(BudgetStopped(refused.value));
        }
      }
    }

    // Gives back what was reserved but not created.
    method Refund(count: nat) returns (refused: bool)
      requires budget.Valid()
      modifies budget
      ensures budget.Valid()
      ensures refused <==> old(budget.derivedAssets) < count
      ensures budget.Used() == if refused then old(budget.Used())
                               else old(budget.Used()).(derivedAssets := old(budget.derivedAssets) - count)
    {
      refused := false;
      if 0 < count {
        var refusal := budget.RefundReusedAssets(count);
        refused := refusal.Some?;
      }
    }

    // The batch is refused for the depth or the number of the session's assets.
    predicate StoreIsFull(asset: string, prepared: Option<seq<string>>)
      reads store
    {
      store.BatchError(asset, prepared) in {Some(DepthLimitExceeded), Some(AssetLimitExceeded)}
    }

    // Commits rendered images under their reservation. What cannot be recorded ends the run
    // after the refund and before the trace hears of it.
    method CommitRendered(asset: string, reserved: nat, prepared: Option<seq<string>>, recorded: bool)
      returns (result: ExecuteResult)
      requires budget.Valid() && store.Valid() && !store.closed && Tracing()
      requires prepared.Some? ==> forall d :: d in prepared.value ==> IsDigest(d)
      requires reserved <= budget.derivedAssets
      requires TraceDerived() == store.DerivedCount() - storeStart
      requires budget.derivedAssets == TraceDerived() + leaked + reserved
      modifies this`leaked, budget, store, trace
      ensures budget.Valid() && store.Valid() && !store.closed && Tracing()
      ensures budget.Used() == old(budget.Used()).(derivedAssets := budget.derivedAssets)
      ensures result != Failed(Refused(BadCount)) ==> StoreAccounted()
      ensures result.Failed? && Interrupts(result.outcome) ==> TraceDerived() == old(TraceDerived())
      ensures !(result.Failed? && Interrupts(result.outcome)) ==> Accounted()
      ensures prepared.Some? && |prepared.value| == reserved ==> leaked == old(leaked)
      ensures result == Failed(Refused(BadCount)) ==> prepared.Some? && reserved < |prepared.value|
      ensures result == Failed(RecordingFailed) ==> prepared.Some? && !recorded
      ensures result.Failed? ==> result.outcome.CommitFailed? || Interrupts(result.outcome)
      ensures result.BudgetStopped? ==> StoreIsFull(asset, prepared)
      ensures result.BudgetStopped? || (result.Failed? && result.outcome.CommitFailed?) ==>
        && store.contents == old(store.contents) && TraceDerived() == old(TraceDerived()) && leaked == old(leaked)
        && budget.derivedAssets == old(budget.derivedAssets) - reserved
      ensures result.Executed? || result == Failed(RecordingFailed) ==>
        && prepared.Some? && leaked == old(leaked) + reserved - |prepared.value|
        && store.contents.digestIds.Keys
          == old(store.contents.digestIds.Keys) + NewDigests(old(store.contents), prepared.value)
      ensures result.Executed? ==> recorded
    {
      var commit := store.Commit(asset, prepared);
      if commit.Rejected? {
        var _ := Refund(reserved);
        return AfterCommitError(commit.error);
      }
      leaked := leaked + reserved - |prepared.value|;
      var refused := Refund(ReusedCount(commit.commits));
      if refused {
        return Failed(Refused(BadCount));
      }
      if !recorded {
        return Failed(RecordingFailed);
      }
      EmitCreated(commit.commits);
      result := Executed;
    }

    // The tool runs and its backends can be paid.
    predicate ToolSucceeds(reply: ToolReply, backendCalls: nat)
    {
      reply.Runs? && Succeeds(reply.perception, backendCalls, budget.limits.maxBackendCalls)
    }

    // What follows the two reservations: the tool's own work, and what it leaves.
    method RunTool(reply: ToolReply) returns (result: ExecuteResult)
      requires reply.Runs? && GoodDigests(reply)
      requires budget.Valid() && store.Valid() && !store.closed && Tracing() && CallsBounded()
      requires reply.reserved <= budget.derivedAssets && TraceDerived() == store.DerivedCount() - storeStart
      requires budget.derivedAssets == TraceDerived() + leaked + reply.reserved
      modifies this`leaked, budget, store, trace
      ensures budget.Valid() && store.Valid() && !store.closed && Tracing()
      ensures budget.Used() == old(budget.Used()).(derivedAssets := budget.derivedAssets, backendCalls :=
        Attempted(reply.perception, old(budget.backendCalls), budget.limits.maxBackendCalls))
      ensures result != Failed(Refused(BadCount)) ==> StoreAccounted()
      ensures !(result.Failed? && Interrupts(result.outcome)) ==> Accounted()
      ensures KeepsCount(reply) ==> leaked == old(leaked) && result != Failed(Refused(BadCount))
      ensures result.Failed? ==> result.outcome.CommitFailed? || Interrupts(result.outcome)
      ensures result == Failed(RecordingFailed) ==>
        ToolSucceeds(reply, old(budget.backendCalls)) && !reply.result.recorded
      ensures !ToolSucceeds(reply, old(budget.backendCalls)) ==>
        result == Executed && leaked == old(leaked)
          && budget.derivedAssets == old(budget.derivedAssets) - reply.reserved
      ensures result.BudgetStopped? || !ToolSucceeds(reply, old(budget.backendCalls)) || !reply.result.Renders? ==>
        store.contents == old(store.contents) && TraceDerived() == old(TraceDerived())
      ensures result.BudgetStopped? ==> budget.derivedAssets == old(budget.derivedAssets) - reply.reserved
      ensures result.BudgetStopped? ==> leaked == old(leaked)
      ensures result.BudgetStopped? ==> reply.result.Renders? && StoreIsFull(reply.asset, reply.result.prepared)
      ensures result.Executed? && ToolSucceeds(reply, old(budget.backendCalls)) ==>
        reply.result.recorded && leaked == old(leaked) + Leak(reply)
      ensures result.Executed? && ToolSucceeds(reply, old(budget.backendCalls)) && reply.result.Renders? ==>
        && reply.result.prepared.Some?
        && store.contents.digestIds.Keys
             == old(store.contents.digestIds.Keys) + NewDigests(old(store.contents), reply.result.prepared.value)
    {
      var ok := Perceive(reply.perception);
      if !ok {
        var _ := Refund(reply.reserved);
        return Executed;
      }
      match reply.result
      case Observes(recorded) =>
        leaked := leaked + reply.reserved;
        result := if recorded then Executed else Failed(RecordingFailed);
      case Renders(prepared, recorded) =>
        result := CommitRendered(reply.asset, reply.reserved, prepared, recorded);
    }

    // The two reservations a tool needs before it runs.
    predicate ToolAffordable(reply: ToolReply)
      reads budget, store
    {
      && budget.toolCalls < budget.limits.maxToolCalls
      && (reply.Runs? && 0 < reply.reserved ==>
            && reply.asset in store.contents.records
            && store.contents.records[reply.asset].depth + 1 <= budget.limits.maxDerivationDepth
            && budget.derivedAssets + reply.reserved <= budget.limits.maxDerivedAssets)
    }

    // The run has no tool call left, or not the assets this tool would need.
    predicate StoppedBy(reply: ToolReply)
      reads budget, store
    {
      reply.Runs? && (
        || budget.limits.maxToolCalls <= budget.toolCalls
        || (0 < reply.reserved && reply.asset in store.contents.records
            && budget.limits.maxDerivationDepth < store.contents.records[reply.asset].depth + 1)
        || (0 < reply.reserved && budget.limits.maxDerivedAssets < budget.derivedAssets + reply.reserved)
        || (reply.result.Renders? && StoreIsFull(reply.asset, reply.result.prepared)))
    }

    // One tool action: the reservations come first, and whatever is not created is given
    // back.
    method ExecuteAction(reply: ToolReply) returns (result: ExecuteResult)
      requires AtBoundary() && GoodDigests(reply)
      modifies this`leaked, budget, store, trace
      ensures budget.Valid() && budget.steps == old(budget.steps) && budget.llmCalls == old(budget.llmCalls)
      ensures budget.toolCalls == old(budget.toolCalls)
        + if reply.Runs? && old(budget.toolCalls) < budget.limits.maxToolCalls then 1 else 0
      ensures budget.backendCalls == if reply.Runs? && old(ToolAffordable(reply))
        then Attempted(reply.perception, old(budget.backendCalls), budget.limits.maxBackendCalls)
        else old(budget.backendCalls)
      ensures CallsBounded() && (result != Failed(Refused(BadCount)) ==> StoreAccounted())
      ensures !(result.Failed? && Interrupts(result.outcome)) ==> AtBoundary()
      ensures KeepsCount(reply) ==> leaked == old(leaked) && result != Failed(Refused(BadCount))
      ensures result.Failed? ==> result.outcome.CommitFailed? || Interrupts(result.outcome)
      ensures result.BudgetStopped? ==> StoppedBy(reply)
      ensures !reply.Runs? ==> result == Executed && leaked == old(leaked)
      ensures reply.Runs? && old(budget.toolCalls) == budget.limits.maxToolCalls ==> result == BudgetStopped(ToolLimit)
      ensures result == Failed(RecordingFailed) ==>
        ToolSucceeds(reply, old(budget.backendCalls)) && !reply.result.recorded
      ensures result.BudgetStopped? || !ToolSucceeds(reply, old(budget.backendCalls)) ==>
        && store.contents == old(store.contents) && TraceDerived() == old(TraceDerived())
        && budget.derivedAssets == old(budget.derivedAssets) && leaked == old(leaked)
      ensures reply.Runs? && !reply.result.Renders? ==>
        store.contents == old(store.contents) && TraceDerived() == old(TraceDerived())
      ensures result.Executed? && ToolSucceeds(reply, old(budget.backendCalls)) ==>
        reply.result.recorded && leaked == old(leaked) + Leak(reply)
      ensures result.Executed? && ToolSucceeds(reply, old(budget.backendCalls)) && reply.result.Renders? ==>
        && reply.result.prepared.Some?
        && store.contents.digestIds.Keys
             == old(store.contents.digestIds.Keys) + NewDigests(old(store.contents), reply.result.prepared.value)
    {
      if !reply.Runs? {
        return Executed;
      }
      var refused := budget.ReserveToolCall(true, 1);
      if refused.Some? {
        return BudgetStopped(refused.value);
      }
      var stopped := ReserveFanOut(reply.asset, reply.reserved);
      if stopped.Some? {
        return stopped.value;
      }
      result := RunTool(reply);
    }

    /******* The loop *******/

    // The steps and the calls taken so far; every call beyond one a step was a repair.
    ghost predicate Paced()
      reads this`repairs, budget
    {
      budget.steps < budget.limits.maxSteps && budget.steps + repairs == budget.llmCalls < budget.limits.maxLlmCalls
    }

    // Counts a call that is about to be executed.
    method CountCall(call: Call)
      requires CallsBounded() && CountIn(actionCounts, call) < maxIdentical
      modifies this`actionCounts, this`executed
      ensures CallsBounded()
      ensures executed == old(executed) + multiset{call}
    {
      actionCounts := actionCounts[call := CountIn(actionCounts, call) + 1];
      executed := executed + multiset{call};
    }

    // The tool calls that executing a reply takes.
    function Paid(reply: ToolReply, toolCalls: nat): (r: nat)
    {
      if reply.Runs? && toolCalls < budget.limits.maxToolCalls then 1 else 0
    }

    // A tool decision: blocked as a repetition, or executed.
    method TakeTool(call: Call) returns (end: StepEnd)
      requires AtBoundary() && GoodDigests(tools(budget.steps))
      modifies this`actionCounts, this`executed, this`leaked, budget, store, trace
      ensures budget.Valid() && CallsBounded()
      ensures budget.steps == old(budget.steps) && budget.llmCalls == old(budget.llmCalls)
      ensures end != Ended(Refused(BadCount)) ==> StoreAccounted()
      ensures !(end.Ended? && Interrupts(end.outcome)) ==> AtBoundary()
      ensures end.Ended? ==> end.outcome.CommitFailed? || Interrupts(end.outcome)
      ensures end.Breaks? ==> StoppedBy(tools(budget.steps))
      ensures KeepsCount(tools(budget.steps)) ==> leaked == old(leaked) && end != Ended(Refused(BadCount))
      ensures executed == Executing(old(executed), call, maxIdentical)
      ensures executed != old(executed) ==>
        budget.toolCalls == old(budget.toolCalls) + Paid(tools(budget.steps), old(budget.toolCalls))
      ensures end.Continues? && executed != old(executed) && tools(budget.steps).Runs?
              && ToolSucceeds(tools(budget.steps), old(budget.backendCalls)) && tools(budget.steps).result.Renders? ==>
        && tools(budget.steps).result.prepared.Some?
        && store.contents.digestIds.Keys == old(store.contents.digestIds.Keys)
          + NewDigests(old(store.contents), tools(budget.steps).result.prepared.value)
      ensures maxIdentical <= CountIn(old(actionCounts), call) ==>
        end == Continues && budget.Used() == old(budget.Used()) && store.contents == old(store.contents)
    {
      if maxIdentical <= CountIn(actionCounts, call) {
        return Continues;
      }
      CountCall(call);
      var result := ExecuteAction(tools(budget.steps));
      match result
      case Failed(failure) => end := Ended(failure);
      case BudgetStopped(_) => end := Breaks;
      case Executed => end := Continues;
    }

    // A decision before the final one.
    method DecideOnce() returns (result: PolicyResult)
      requires budget.Valid() && budget.llmCalls < CallLimit(false)
      modifies budget
      ensures budget.Valid() && old(budget.llmCalls) < budget.llmCalls <= CallLimit(false)
      ensures budget.Used() == old(budget.Used()).(llmCalls := budget.llmCalls)
      ensures NoneAsked(policy, old(budget.llmCalls), budget.llmCalls - 1)
      ensures result.Chosen? ==>
        policy(budget.llmCalls - 1) == result.reply && (result.reply.UseTool? || result.reply.Answer?)
      ensures result.Undecided? ==> NoneAsked(policy, old(budget.llmCalls), budget.llmCalls)
      ensures result.Undecided? ==> RestsOnLast(result.outcome) && result.outcome in {InvalidModelAction, PolicyError}
    {
      DecisionAsks(policy, budget.llmCalls, CallLimit(false));
      result := PolicyAction(false);
    }

    // An answer before the final decision ends the run.
    method AnswerNow(supported: bool) returns (outcome: Outcome)
      requires budget.Valid() && 0 < budget.llmCalls && policy(budget.llmCalls - 1) == Answer(supported)
      modifies budget
      ensures budget.Valid() && RestsOnLast(outcome)
      ensures old(budget.llmCalls) <= ActedUpTo(outcome) && NoneAsked(policy, old(budget.llmCalls), ActedUpTo(outcome))
      ensures outcome in {Answered(false), EvidenceRejected, PolicyError}
      ensures budget.Used() == old(budget.Used()).(llmCalls := budget.llmCalls)
    {
      CompletionAsks(policy, supported, budget.llmCalls, CallLimit(false));
      outcome := CompleteAnswer(supported, false);
    }

    // What a reply comes to before the final decision.
    method Follow(reply: Reply, ghost n: nat) returns (end: StepEnd)
      requires AskedAreExecuted(n) && n < budget.llmCalls && NoneAsked(policy, n, budget.llmCalls - 1)
      requires AtBoundary() && GoodDigests(tools(budget.steps)) && (reply.UseTool? || reply.Answer?)
      requires 0 < budget.llmCalls && policy(budget.llmCalls - 1) == reply
      modifies this`actionCounts, this`executed, this`leaked, budget, store, trace
      ensures budget.Valid() && CallsBounded() && budget.steps == old(budget.steps)
      ensures !end.Ended? ==> budget.llmCalls == old(budget.llmCalls)
      ensures AskedAreExecuted(if end.Ended? then ActedUpTo(end.outcome) else budget.llmCalls)
      ensures executed != old(executed) ==>
        budget.toolCalls == old(budget.toolCalls) + Paid(tools(budget.steps), old(budget.toolCalls))
      ensures end.Breaks? ==> StoppedBy(tools(budget.steps))
      ensures end.Ended? ==> RestsOnLast(end.outcome) && (end.outcome.Answered? ==> !end.outcome.finalCall)
      ensures end.Ended? && end.outcome.Refused? ==> end == Ended(Refused(BadCount))
      ensures end != Ended(Refused(BadCount)) ==> StoreAccounted()
      ensures !(end.Ended? && Interrupts(end.outcome)) ==> AtBoundary()
      ensures KeepsCount(tools(budget.steps)) ==> leaked == old(leaked) && end != Ended(Refused(BadCount))
    {
      if reply.Answer? {
        CappedStays(policy, maxIdentical, executed, n, budget.llmCalls);
        ghost var k := budget.llmCalls;
        var outcome := AnswerNow(reply.supported);
        CappedStays(policy, maxIdentical, executed, k, ActedUpTo(outcome));
        return Ended(outcome);
      }
      CappedGrows(policy, maxIdentical, executed, n, budget.llmCalls);
      end := TakeTool(reply.call);
    }

    // The decision of one turn, with its step. Calls beyond one a step are repairs.
    method DecideStep() returns (result: PolicyResult)
      requires AtBoundary() && Paced() && budget.CanStartInteractiveStep(true)
      modifies this`repairs, budget
      ensures AtBoundary() && old(budget.llmCalls) < budget.llmCalls
      ensures budget.Used() == old(budget.Used()).(llmCalls := budget.llmCalls, steps := budget.steps)
      ensures budget.steps == old(budget.steps) + if result.Chosen? then 1 else 0
      ensures budget.steps < budget.limits.maxSteps && NoneAsked(policy, old(budget.llmCalls), budget.llmCalls - 1)
      ensures result.Chosen? ==>
        Paced() && policy(budget.llmCalls - 1) == result.reply && (result.reply.UseTool? || result.reply.Answer?)
      ensures result.Undecided? ==> NoneAsked(policy, old(budget.llmCalls), budget.llmCalls)
      ensures result.Undecided? ==> RestsOnLast(result.outcome) && result.outcome in {InvalidModelAction, PolicyError}
    {
      result := DecideOnce();
      if result.Chosen? {
        repairs := budget.llmCalls - budget.steps - 1;
        var refused := budget.ReserveStep(true, false);
        assert refused.None?;
      }
    }

    // One turn of the loop.
    method InteractiveStep() returns (end: StepEnd)
      requires AtBoundary() && Paced() && budget.CanStartInteractiveStep(true)
      requires GoodDigests(tools(budget.steps + 1)) && AskedAreExecuted(budget.llmCalls)
      modifies this, budget, store, trace
      ensures AskedAreExecuted(if end.Ended? then ActedUpTo(end.outcome) else budget.llmCalls)
      ensures budget.Valid() && CallsBounded() && storeStart == old(storeStart)
      ensures executed != old(executed) ==>
        budget.toolCalls == old(budget.toolCalls) + Paid(tools(budget.steps), old(budget.toolCalls))
      ensures budget.steps < budget.limits.maxSteps
      ensures !end.Ended? ==> Paced() && budget.steps == old(budget.steps) + 1
      ensures end.Breaks? ==> StoppedBy(tools(budget.steps))
      ensures end.Ended? ==> RestsOnLast(end.outcome) && (end.outcome.Answered? ==> !end.outcome.finalCall)
      ensures end.Ended? && end.outcome.Refused? ==> end == Ended(Refused(BadCount))
      ensures end != Ended(Refused(BadCount)) ==> StoreAccounted()
      ensures !(end.Ended? && Interrupts(end.outcome)) ==> AtBoundary()
      ensures KeepsCount(tools(old(budget.steps) + 1)) ==> leaked == old(leaked) && end != Ended(Refused(BadCount))
    {
      ghost var n := budget.llmCalls;
      var decision := DecideStep();
      if decision.Undecided? {
        CappedStays(policy, maxIdentical, executed, n, budget.llmCalls);
        return Ended(decision.outcome);
      }
      end := Follow(decision.reply, n);
    }

    // A final decision whose first call has index `at`: its steps, its outcome, and that it
    // and one repair of it are affordable.
    ghost predicate DecidedAt(outcome: Outcome, at: nat)
      reads this`repairs, budget
    {
      && repairs <= at < budget.limits.maxLlmCalls
      && budget.steps == at - repairs + (if Decision(policy, at, budget.limits.maxLlmCalls).Chosen? then 1 else 0)
      && outcome == FinalOutcome(policy, at, budget.limits.maxLlmCalls) && !outcome.Refused?
      && (policy(at) == Answer(true) ==> outcome == Answered(true))
      && (repairs == 0 && policy(at) in {Unparsable, Answer(false)} && policy(at + 1) == Answer(true) ==>
            outcome == Answered(true))
    }

    // How a run that came to a decision ends. `finalAt` is the index of the first call of the
    // final decision, when the run comes to one.
    ghost predicate Concluded(outcome: Outcome, finalAt: Option<nat>)
      reads this, budget, store, trace
    {
      && budget.Valid() && CallsBounded()
      && AskedAreExecuted(if finalAt.Some? then finalAt.value else ActedUpTo(outcome))
      && RestsOnLast(outcome) && (outcome.Answered? ==> (outcome.finalCall <==> finalAt.Some?))
      && (outcome.Refused? ==> outcome == Refused(BadCount))
      && (outcome != Refused(BadCount) ==> StoreAccounted())
      && (!Interrupts(outcome) ==> AtBoundary())
      && (finalAt.None? ==> budget.steps < budget.limits.maxSteps)
      && (finalAt.Some? ==> DecidedAt(outcome, finalAt.value) && MustEnd(finalAt.value - repairs, finalAt.value))
    }

    // The answer-only decision that the last step and the last call are kept for. A step is
    // reserved once there is a decision.
    method FinalStep() returns (outcome: Outcome)
      requires budget.Valid() && Paced()
      modifies budget
      ensures budget.Valid()
      ensures budget.derivedAssets == old(budget.derivedAssets) && budget.toolCalls == old(budget.toolCalls)
      ensures budget.steps == old(budget.steps)
        + if Decision(policy, old(budget.llmCalls), budget.limits.maxLlmCalls).Chosen? then 1 else 0
      ensures outcome == FinalOutcome(policy, old(budget.llmCalls), budget.limits.maxLlmCalls)
      ensures budget.llmCalls == old(budget.llmCalls)
        + FinalCalls(policy, old(budget.llmCalls), budget.limits.maxLlmCalls)
    {
      var decision := PolicyAction(true);
      if decision.Undecided? {
        return decision.outcome;
      }
      var refused := budget.ReserveStep(true, true);
      assert refused.None?;
      if !decision.reply.Answer? {
        return FinalMustAnswer;
      }
      outcome := CompleteAnswer(decision.reply.supported, true);
    }

    method FinalDecision() returns (outcome: Outcome, ghost at: nat)
      requires AtBoundary() && Paced() && MustEnd(budget.steps, budget.llmCalls) && AskedAreExecuted(budget.llmCalls)
      modifies budget
      ensures Concluded(outcome, Some(at)) && outcome != Refused(BadCount)
    {
      at := budget.llmCalls;
      FinalRestsOnLast(policy, budget.llmCalls, budget.limits.maxLlmCalls);
      FinalDecisionIsAffordable(policy, budget.limits, budget.steps, repairs);
      outcome := FinalStep();
    }

    // After so many steps and calls only the final decision can follow: the last step or the
    // last call is the one left, or the last tool ran into a limit.
    predicate MustEnd(steps: nat, llmCalls: nat)
      reads budget, store
    {
      || budget.limits.maxSteps <= steps + 1
      || budget.limits.maxLlmCalls <= llmCalls + 1
      || StoppedBy(tools(steps))
    }

    // The loop: turns while another decision can start, up to one that ends the run or that
    // a limit stops.
    method Interact() returns (ended: Option<Outcome>)
      requires AtBoundary() && budget.steps == 0 && budget.llmCalls == 0 && leaked == 0 && repairs == 0
      requires executed == multiset{} && forall i: nat :: GoodDigests(tools(i))
      modifies this, budget, store, trace
      ensures storeStart == old(storeStart)
      ensures ended.None? ==>
        AtBoundary() && Paced() && MustEnd(budget.steps, budget.llmCalls) && AskedAreExecuted(budget.llmCalls)
      ensures ended.Some? ==> Concluded(ended.value, None)
      ensures (leaked == 0 && ended != Some(Refused(BadCount))) || exists i: nat :: !KeepsCount(tools(i))
    {
      while budget.CanStartInteractiveStep(true)
        invariant AtBoundary() && Paced() && storeStart == old(storeStart)
        invariant AskedAreExecuted(budget.llmCalls)
        invariant leaked == 0 || exists i: nat :: !KeepsCount(tools(i))
        decreases budget.limits.maxSteps - 1 - budget.steps
      {
        var end := InteractiveStep();
        if end.Ended? {
          return Some(end.outcome);
        }
        if end.Breaks? {
          break;
        }
      }
      ended := None;
    }

    // The decisions of one run up to its outcome.
    method Decide() returns (outcome: Outcome, ghost finalAt: Option<nat>)
      requires AtBoundary() && budget.steps == 0 && budget.llmCalls == 0 && leaked == 0 && repairs == 0
      requires executed == multiset{} && forall i: nat :: GoodDigests(tools(i))
      modifies this, budget, store, trace
      ensures storeStart == old(storeStart) && Concluded(outcome, finalAt)
      ensures (leaked == 0 && outcome != Refused(BadCount)) || exists i: nat :: !KeepsCount(tools(i))
    {
      var ended := Interact();
      if ended.Some? {
        return ended.value, None;
      }
      ghost var at;
      outcome, at := FinalDecision();
      finalAt := Some(at);
    }

    // From a fresh budget to the run's outcome.
    method AskBody() returns (outcome: Outcome, ghost finalAt: Option<nat>)
      requires AtBoundary() && budget.Used() == Usage(0, 0, 0, 0, 0)
      requires executed == multiset{} && leaked == 0 && repairs == 0
      requires forall i: nat :: GoodDigests(tools(i))
      modifies this, budget, store, trace
      ensures budget.Valid()
      ensures budget.steps <= budget.limits.maxSteps && budget.llmCalls <= budget.limits.maxLlmCalls
      ensures budget.toolCalls <= budget.limits.maxToolCalls && budget.backendCalls <= budget.limits.maxBackendCalls
      ensures budget.derivedAssets <= budget.limits.maxDerivedAssets
      ensures AskedAreExecuted(if finalAt.Some? then finalAt.value else ActedUpTo(outcome))
      ensures outcome.Refused? ==> outcome == Refused(BadCount) && exists i: nat :: !KeepsCount(tools(i))
      ensures !Interrupts(outcome) ==> AtBoundary()
      ensures (forall i: nat :: KeepsCount(tools(i))) ==>
        && budget.derivedAssets == store.DerivedCount() - storeStart
        && (outcome != RecordingFailed ==> budget.derivedAssets == TraceDerived())
      ensures InitialPlan(initial, 0, 0, budget.limits).outcome.Some? ==>
        outcome == InitialPlan(initial, 0, 0, budget.limits).outcome.value && budget.llmCalls == 0
      ensures finalAt.None? ==> budget.steps < budget.limits.maxSteps
      ensures finalAt.Some? ==> DecidedAt(outcome, finalAt.value) && MustEnd(finalAt.value - repairs, finalAt.value)
      ensures outcome.Answered? ==>
        && 0 < budget.llmCalls && policy(budget.llmCalls - 1) == Answer(true)
        && (outcome.finalCall <==> finalAt.Some?)
      ensures 0 < budget.llmCalls && policy(budget.llmCalls - 1) == Answer(true) ==> outcome.Answered?
      ensures InitialPlan(initial, 0, 0, budget.limits).outcome.None? ==> RestsOnLast(outcome)
    {
      InitialPlanIsBounded(initial, 0, 0, budget.limits);
      var failed := EnsureInitialObservations();
      if failed.Some? {
        return failed.value, None;
      }
      outcome, finalAt := Decide();
    }
  }
}
