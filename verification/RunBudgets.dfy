// Bounded counters for one run: every unit of work is reserved before it is done.
module RunBudgets {
  import opened JsonValues

  datatype RunLimits = RunLimits(maxSteps: nat, maxLlmCalls: nat, maxToolCalls: nat,
                                 maxBackendCalls: nat, maxDerivedAssets: nat, maxDerivationDepth: nat)
  {
    // What the settings model enforces on construction.
    predicate Valid() {
      && 0 < maxSteps && 0 < maxToolCalls && 0 < maxBackendCalls
      && 0 < maxDerivedAssets && 0 < maxDerivationDepth
      && maxSteps + 1 <= maxLlmCalls
    }
  }

  datatype Usage = Usage(steps: nat, llmCalls: nat, toolCalls: nat, backendCalls: nat, derivedAssets: nat)

  predicate Within(u: Usage, limits: RunLimits)
  {
    && u.steps <= limits.maxSteps && u.llmCalls <= limits.maxLlmCalls
    && u.toolCalls <= limits.maxToolCalls && u.backendCalls <= limits.maxBackendCalls
    && u.derivedAssets <= limits.maxDerivedAssets
  }

  datatype Refusal =
    | Timeout | StepLimit | LlmCallLimit | ToolLimit | BackendCallLimit | DepthLimit | AssetLimit | BadCount

  class RunBudget {
    const limits: RunLimits
    var steps: nat
    var llmCalls: nat
    var toolCalls: nat
    var backendCalls: nat
    var derivedAssets: nat

    ghost predicate Valid()
      reads this
    {
      limits.Valid() && Within(Used(), limits)
    }

    function Used(): (r: Usage)
      reads this
    {
      Usage(steps, llmCalls, toolCalls, backendCalls, derivedAssets)
    }

    constructor (limits: RunLimits)
      requires limits.Valid()
      ensures Valid() && this.limits == limits && Used() == Usage(0, 0, 0, 0, 0)
    {
      this.limits := limits;
      steps, llmCalls, toolCalls, backendCalls, derivedAssets := 0, 0, 0, 0, 0;
    }

    // One more decision can start while the final step and call stay affordable. `live`
    // says whether time remains, here and below.
    predicate CanStartInteractiveStep(live: bool)
      requires limits.Valid()
      reads this
    {
      live && steps < limits.maxSteps - 1 && llmCalls < limits.maxLlmCalls - 1
    }

    method ReserveStep(live: bool, answerOnly: bool) returns (refused: Option<Refusal>)
      requires Valid()
      modifies this
      ensures Valid()
      ensures refused == if !live then Some(Timeout)
                         else if old(steps) >= (if answerOnly then limits.maxSteps else limits.maxSteps - 1)
                         then Some(StepLimit) else None
      ensures Used() == if refused.None? then old(Used()).(steps := old(steps) + 1) else old(Used())
    {
      if !live {
        return Some(Timeout);
      }
      var maximum := if answerOnly then limits.maxSteps else limits.maxSteps - 1;
      if steps >= maximum {
        return Some(StepLimit);
      }
      steps := steps + 1;
      refused := None;
    }

    method ReserveLlmCall(live: bool, final: bool, repair: bool) returns (refused: Option<Refusal>)
      requires Valid()
      modifies this
      ensures Valid()
      ensures refused == if !live then Some(Timeout)
                         else if old(llmCalls) >= (if final then limits.maxLlmCalls else limits.maxLlmCalls - 1)
                         then Some(LlmCallLimit) else None
      ensures Used() == if refused.None? then old(Used()).(llmCalls := old(llmCalls) + 1) else old(Used())
    {
      if !live {
        return Some(Timeout);
      }
      var maximum := if final then limits.maxLlmCalls else limits.maxLlmCalls - 1;
      if llmCalls >= maximum {
        return Some(LlmCallLimit);
      }
      if repair && !final && llmCalls + 1 >= limits.maxLlmCalls {
        return Some(LlmCallLimit);
      }
      llmCalls := llmCalls + 1;
      refused := None;
    }

    method ReservePolicyDecision(live: bool, answerOnly: bool) returns (refused: Option<Refusal>)
      requires Valid()
      modifies this
      ensures Valid()
      ensures refused.None? <==>
        && live
        && old(steps) < (if answerOnly then limits.maxSteps else limits.maxSteps - 1)
        && old(llmCalls) < (if answerOnly then limits.maxLlmCalls else limits.maxLlmCalls - 1)
      ensures Used() == if refused.None?
                        then old(Used()).(steps := old(steps) + 1, llmCalls := old(llmCalls) + 1) else old(Used())
    {
      if !live {
        return Some(Timeout);
      }
      if steps >= (if answerOnly then limits.maxSteps else limits.maxSteps - 1) {
        return Some(StepLimit);
      }
      if llmCalls >= (if answerOnly then limits.maxLlmCalls else limits.maxLlmCalls - 1) {
        return Some(LlmCallLimit);
      }
      steps, llmCalls := steps + 1, llmCalls + 1;
      refused := None;
    }

    method ReserveToolCall(live: bool, count: int) returns (refused: Option<Refusal>)
      requires Valid()
      modifies this
      ensures Valid()
      ensures refused == if count <= 0 then Some(BadCount) else if !live then Some(Timeout)
                         else if old(toolCalls) + count > limits.maxToolCalls then Some(ToolLimit) else None
      ensures Used() == if refused.None? then old(Used()).(toolCalls := old(toolCalls) + count) else old(Used())
    {
      if count <= 0 {
        return Some(BadCount);
      }
      if !live {
        return Some(Timeout);
      }
      if toolCalls + count > limits.maxToolCalls {
        return Some(ToolLimit);
      }
      toolCalls := toolCalls + count;
      refused := None;
    }

    method ReserveBackendCall(live: bool, count: int) returns (refused: Option<Refusal>)
      requires Valid()
      modifies this
      ensures Valid()
      ensures refused == if count <= 0 then Some(BadCount) else if !live then Some(Timeout)
                         else if old(backendCalls) + count > limits.maxBackendCalls then Some(BackendCallLimit)
                         else None
      ensures Used() == if refused.None? then old(Used()).(backendCalls := old(backendCalls) + count) else old(Used())
    {
      if count <= 0 {
        return Some(BadCount);
      }
      if !live {
        return Some(Timeout);
      }
      if backendCalls + count > limits.maxBackendCalls {
        return Some(BackendCallLimit);
      }
      backendCalls := backendCalls + count;
      refused := None;
    }

    method RefundUnstartedBackendCall(count: int) returns (refused: Option<Refusal>)
      requires Valid()
      modifies this
      ensures Valid()
      ensures refused == if count <= 0 || count > old(backendCalls) then Some(BadCount) else None
      ensures Used() == if refused.None? then old(Used()).(backendCalls := old(backendCalls) - count) else old(Used())
    {
      if count <= 0 || count > backendCalls {
        return Some(BadCount);
      }
      backendCalls := backendCalls - count;
      refused := None;
    }

    method ReserveDerivedAssets(live: bool, count: int, parentDepth: nat) returns (refused: Option<Refusal>)
      requires Valid()
      modifies this
      ensures Valid()
      ensures refused == if count <= 0 then Some(BadCount) else if !live then Some(Timeout)
                         else if parentDepth + 1 > limits.maxDerivationDepth then Some(DepthLimit)
                         else if old(derivedAssets) + count > limits.maxDerivedAssets then Some(AssetLimit) else None
      ensures Used() == if refused.None? then old(Used()).(derivedAssets := old(derivedAssets) + count) else old(Used())
    {
      if count <= 0 {
        return Some(BadCount);
      }
      if !live {
        return Some(Timeout);
      }
      if parentDepth + 1 > limits.maxDerivationDepth {
        return Some(DepthLimit);
      }
      if derivedAssets + count > limits.maxDerivedAssets {
        return Some(AssetLimit);
      }
      derivedAssets := derivedAssets + count;
      refused := None;
    }

    method RefundReusedAssets(count: int) returns (refused: Option<Refusal>)
      requires Valid()
      modifies this
      ensures Valid()
      ensures refused == if count <= 0 || count > old(derivedAssets) then Some(BadCount) else None
      ensures Used() == if refused.None? then old(Used()).(derivedAssets := old(derivedAssets) - count) else old(Used())
    {
      if count <= 0 || count > derivedAssets {
        return Some(BadCount);
      }
      derivedAssets := derivedAssets - count;
      refused := None;
    }

    // The soft limit that forbids another decision, if any.
    function SoftStopReason(): (r: Option<Refusal>)
      requires limits.Valid()
      reads this
      ensures r.None? <==> CanStartInteractiveStep(true)
    {
      if steps >= limits.maxSteps - 1 then Some(StepLimit)
      else if llmCalls >= limits.maxLlmCalls - 1 then Some(LlmCallLimit)
      else None
    }
  }
}
