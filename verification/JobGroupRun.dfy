/** The interpreter as the source runs it: a budget object charged in place, a loop over the
    steps with early returns, and a recursive call for fallback lists. */
module JobGroupRun {
  import opened Wrappers
  import opened Text
  import opened Json
  import opened Identities
  import opened StepParams
  import opened JobGroup

  /** constraintBudgetManager, together with the log of what the group has done. */
  class GroupAccount {
    const maxSteps: int
    const eventRateLimit: real
    const hasTimeBudget: bool
    var executedSteps: nat
    var eventsCreated: nat
    var invoked: seq<Invocation>
    ghost var trace: seq<Event>

    ghost function Value(): Run
      reads this
    {
      Run(Budget(maxSteps, eventRateLimit, hasTimeBudget, executedSteps, eventsCreated), invoked, trace)
    }

    constructor (budget: Budget)
      ensures Value() == Run(budget, [], [])
    {
      maxSteps, eventRateLimit, hasTimeBudget := budget.maxSteps, budget.eventRateLimit, budget.hasTimeBudget;
      executedSteps, eventsCreated := budget.executedSteps, budget.eventsCreated;
      invoked, trace := [], [];
    }

    method PreStepCheck(action: string, timeUp: bool) returns (denied: bool)
      ensures denied <==> OverBudget(Value().budget, action, timeUp)
    {
      if hasTimeBudget && timeUp {
        return true;
      }
      if maxSteps > 0 && executedSteps >= maxSteps {
        return true;
      }
      if IsCreateEvent(action) && eventRateLimit > 0.0 {
        var maxEvents := Ceil(eventRateLimit);
        if maxEvents <= 0 {
          maxEvents := 1;
        }
        if eventsCreated >= maxEvents {
          return true;
        }
      }
      denied := false;
    }

    method MarkActionExecuted(action: string)
      modifies this`executedSteps, this`eventsCreated
      ensures Value().budget == Charge(old(Value().budget), action)
    {
      hide IsCreateEvent;
      executedSteps := executedSteps + 1;
      if IsCreateEvent(action) {
        eventsCreated := eventsCreated + 1;
      }
    }

    method Invoke(env: Env, action: string, params: Params) returns (result: ActionResult)
      modifies this
      ensures (result, Value()) == Attempt(env, old(Value()), action, params)
    {
      result := env.world.execute(|invoked|, action, params);
      invoked := invoked + [Invocation(action, params)];
      if Enforced(env) {
        MarkActionExecuted(action);
      }
    }

    method ExecuteWithRetryBudget(env: Env, action: string, params: Params, maxRetries: int) returns (result: ActionResult)
      modifies this
      ensures (result, Value()) == RetryAttempts(env, old(Value()), action, params, maxRetries)
    {
      hide OverBudget, Attempt;
      var retry := 1;
      while retry <= maxRetries
        invariant retry >= 1
        invariant RetryAttempts(env, Value(), action, params, maxRetries - retry + 1)
               == RetryAttempts(env, old(Value()), action, params, maxRetries)
      {
        if Enforced(env) {
          var denied := PreStepCheck(action, env.world.timeUp(|invoked|));
          if denied {
            return Errored;
          }
        }
        result := Invoke(env, action, params);
        if result.Succeeded? {
          return;
        }
        retry := retry + 1;
      }
      result := Errored;
    }

    /** Gates, wiring and registration, in the source's order. */
    method AdmitStep(env: Env, step: Step, last: Params, first: bool) returns (admitted: Result<Params, Failure>)
      ensures admitted == Admit(env, step, last, first, Value())
    {
      if step.action.None? {
        return Err(MissingAction);
      }
      var action := step.action.value;
      var params := Decorate(env, step.params);
      if Enforced(env) {
        var identity := env.identity.value;
        if !CapabilityAllowed(identity, action) {
          return Err(GateDenied(CapabilityGate));
        }
        if TrimSpace(action) == "DBQuery" && !DBQueryPasses(env, identity, params) {
          return Err(GateDenied(DBQueryGate));
        }
        if !TrustAllowed(identity, action) {
          return Err(GateDenied(TrustGate));
        }
        var denied := PreStepCheck(action, env.world.timeUp(|invoked|));
        if denied {
          return Err(GateDenied(BudgetGate));
        }
      }
      if env.flags.contractEnforcement && ContractForbidsAction(env.identity, action) {
        return Err(GateDenied(ContractGate));
      }
      admitted := WireStep(env, params, last, first);
      if admitted.Ok? && action !in env.world.registered {
        return Err(UnknownAction);
      }
    }

    method WireStep(env: Env, params: Params, last: Params, first: bool) returns (wired: Result<Params, Failure>)
      ensures wired == Wire(env, Value(), params, last, first)
    {
      var current := params;
      if env.flags.memoryRuntime {
        var injected := env.world.inject(|invoked|, current);
        if injected.None? {
          return Err(InjectFailed);
        }
        current := injected.value;
      }
      if !first {
        current := MergeStepInput(current, Entry(last, OUTPUT));
      }
      var merged := MergePriorInAnyOrder(current, last);
      wired := if merged.None? then Err(BadConfig) else Ok(merged.value);
    }

    /** executeJobGroupWithBudget: the loop, its early returns and its tail call compute the
        step-by-step meaning, against one and the same account. */
    method ExecuteWithBudget(env: Env, steps: seq<Step>) returns (outcome: Result<Json, Failure>)
      modifies this
      ensures (outcome, Value()) == ExecuteSteps(env, steps, map[], true, old(Value()))
      decreases steps
    {
      hide Admit, RetryAttempts, EffectiveFailurePolicy;
      var lastResult: Params := map[];
      for i := 0 to |steps|
        invariant ExecuteSteps(env, steps[i..], lastResult, i == 0, Value())
               == ExecuteSteps(env, steps, map[], true, old(Value()))
      {
        ghost var before, rest := Value(), steps[i..];
        assert rest[0] == steps[i] && rest[1..] == steps[i + 1..];
        var step := steps[i];
        var admitted := AdmitStep(env, step, lastResult, i == 0);
        if admitted.Err? {
          return Err(admitted.error);
        }
        AdmittedHasAction(env, step, lastResult, i == 0);
        var params, action := admitted.value, step.action.value;
        var result := Invoke(env, action, params);
        if result.Errored? {
          if step.retry.MalformedRetry? {
            return Err(BadRetry);
          }
          if step.retry.Retry? {
            result := ExecuteWithRetryBudget(env, action, params, step.retry.maxRetries);
          }
        }
        assert (result, Value()) == Perform(env, before, step, action, params);
        if result.Errored? {
          var policy := EffectiveFailurePolicy(env.identity);
          if step.fallback.FallbackSteps? && policy != Continue {
            FallbackSmallerAt(steps, i);
            trace := trace + [FellBack];
            outcome := ExecuteWithBudget(env, step.fallback.steps);
            return;
          }
          if policy != Continue {
            return Err(ActionFailed);
          }
          trace := trace + [Skipped];
        } else {
          if env.flags.memoryRuntime && !env.world.persisted(|invoked|, params, result.result) {
            return Err(PersistFailed);
          }
          lastResult := result.result;
          trace := trace + [Completed(result.result)];
        }
      }
      outcome := Ok(TerminalPayload(lastResult));
    }

    lemma AdmittedHasAction(env: Env, step: Step, last: Params, first: bool)
      requires Admit(env, step, last, first, Value()).Ok?
      ensures step.action.Some?
    {
    }
  }

  lemma FallbackSmallerAt(steps: seq<Step>, i: nat)
    requires i < |steps| && steps[i].fallback.FallbackSteps?
    ensures steps decreases to steps[i].fallback.steps
  {
    var step := steps[i];
    assert steps decreases to step;
    assert step decreases to step.fallback;
    assert step.fallback decreases to step.fallback.steps;
  }

  /** executeJobGroup */
  method Execute(env: Env, steps: seq<Step>) returns (outcome: Result<Json, Failure>, account: GroupAccount)
    ensures fresh(account)
    ensures (outcome, account.Value()) == ExecuteGroup(env, steps)
  {
    var budget := Some(Budget(0, 0.0, false, 0, 0));
    if Enforced(env) {
      budget := NewBudget(env.identity.value);
      if budget.None? {
        account := new GroupAccount(Budget(0, 0.0, false, 0, 0));
        return Err(BadTimeBudget), account;
      }
    }
    account := new GroupAccount(budget.value);
    outcome := account.ExecuteWithBudget(env, steps);
  }
}
