/** What every run of a job group keeps, across all steps, retries and nested fallback lists. */
module JobGroupProperties {
  import opened Wrappers
  import opened Text
  import opened Json
  import opened Identities
  import opened StepParams
  import opened JobGroup

  // ------------------------------------------------- budget and gate safety

  function CreateEvents(invoked: seq<Invocation>): nat {
    if invoked == [] then 0
    else CreateEvents(invoked[..|invoked| - 1]) + (if IsCreateEvent(invoked[|invoked| - 1].action) then 1 else 0)
  }

  /** The action passed every gate that is switched on. */
  predicate Cleared(env: Env, action: string) {
    && action in env.world.registered
    && (Enforced(env) ==> CapabilityAllowed(env.identity.value, action) && TrustAllowed(env.identity.value, action))
    && (env.flags.contractEnforcement ==> !ContractForbidsAction(env.identity, action))
  }

  predicate WithinLimits(b: Budget) {
    && (b.maxSteps > 0 ==> b.executedSteps <= b.maxSteps)
    && (b.eventRateLimit > 0.0 ==> b.eventsCreated <= Ceil(b.eventRateLimit))
  }

  /** The budget has counted exactly the invocations made, and none was out of bounds. */
  predicate Sound(env: Env, run: Run) {
    && (Enforced(env) ==>
          && run.budget.executedSteps == |run.invoked|
          && run.budget.eventsCreated == CreateEvents(run.invoked)
          && WithinLimits(run.budget))
    && forall i | 0 <= i < |run.invoked| :: Cleared(env, run.invoked[i].action)
  }

  predicate SameLimits(a: Budget, b: Budget) {
    a.maxSteps == b.maxSteps && a.eventRateLimit == b.eventRateLimit && a.hasTimeBudget == b.hasTimeBudget
  }

  /** Invocations and events are only ever added. */
  predicate Grows(a: Run, b: Run) {
    a.invoked <= b.invoked && a.trace <= b.trace && SameLimits(a.budget, b.budget)
  }

  predicate InBudget(env: Env, run: Run, action: string) {
    Enforced(env) ==> !OverBudget(run.budget, action, env.world.timeUp(|run.invoked|))
  }

  lemma AttemptSound(env: Env, run: Run, action: string, params: Params)
    requires Sound(env, run) && Cleared(env, action) && InBudget(env, run, action)
    ensures var run' := Attempt(env, run, action, params).1;
            Sound(env, run') && Grows(run, run') && run'.trace == run.trace && |run'.invoked| == |run.invoked| + 1
  {
    hide Cleared, IsCreateEvent, Ceil;
    var invoked := run.invoked + [Invocation(action, params)];
    assert invoked[..|run.invoked|] == run.invoked;
  }

  lemma {:induction false} RetriesSound(env: Env, run: Run, action: string, params: Params, left: int)
    requires Sound(env, run) && Cleared(env, action)
    ensures var run' := RetryAttempts(env, run, action, params, left).1;
            && Sound(env, run') && Grows(run, run') && run'.trace == run.trace
            && |run'.invoked| <= |run.invoked| + (if left > 0 then left else 0)
    decreases left
  {
    hide Sound, Cleared, OverBudget, Enforced, Attempt;
    if left > 0 && InBudget(env, run, action) {
      AttemptSound(env, run, action, params);
      var (result, run') := Attempt(env, run, action, params);
      if result.Errored? {
        RetriesSound(env, run', action, params, left - 1);
      }
    }
  }

  function Retries(step: Step): nat {
    if step.retry.Retry? && step.retry.maxRetries > 0 then step.retry.maxRetries else 0
  }

  lemma PerformSound(env: Env, run: Run, step: Step, action: string, params: Params)
    requires Sound(env, run) && Cleared(env, action) && InBudget(env, run, action)
    ensures var run' := Perform(env, run, step, action, params).1;
            && Sound(env, run') && Grows(run, run') && run'.trace == run.trace
            && |run'.invoked| <= |run.invoked| + 1 + Retries(step)
  {
    AttemptSound(env, run, action, params);
    var (result, run') := Attempt(env, run, action, params);
    if result.Errored? && step.retry.Retry? {
      RetriesSound(env, run', action, params, step.retry.maxRetries);
    }
  }

  lemma AdmittedIsCleared(env: Env, step: Step, last: Params, first: bool, run: Run)
    requires Admit(env, step, last, first, run).Ok?
    ensures step.action.Some? && Cleared(env, step.action.value) && InBudget(env, run, step.action.value)
  {
  }

  /** The gate refuses the step. */
  predicate Refuses(gate: Gate, env: Env, run: Run, action: string, params: Params) {
    match gate
    case CapabilityGate => Enforced(env) && !CapabilityAllowed(env.identity.value, action)
    case DBQueryGate => Enforced(env) && TrimSpace(action) == "DBQuery" && !DBQueryPasses(env, env.identity.value, params)
    case TrustGate => Enforced(env) && !TrustAllowed(env.identity.value, action)
    case BudgetGate => Enforced(env) && OverBudget(run.budget, action, env.world.timeUp(|run.invoked|))
    case ContractGate => env.flags.contractEnforcement && ContractForbidsAction(env.identity, action)
  }

  /** The classifier finds a read, in the statement or in what is left without placeholders. */
  predicate ReadsOnly(oracle: SqlOracle, sql: string) {
    oracle.classify(sql).SqlRead? ||
    (oracle.classify(sql).SqlRejected? && oracle.withoutPlaceholders(sql).Some?
     && oracle.classify(oracle.withoutPlaceholders(sql).value).SqlRead?)
  }

  /** The SQL text a DBQuery step carries; anything but a string counts as none. */
  function QueryText(params: Params): string {
    if Entry(params, "query").Str? then params["query"].s else ""
  }

  /** Reading memory into the params leaves the query alone, as the memory runtime does. */
  ghost predicate InjectionSparesQuery(env: Env) {
    env.flags.memoryRuntime ==> forall n: nat, params :: SparesQuery(params, env.world.inject(n, params))
  }

  predicate SparesQuery(before: Params, after: Option<Params>) {
    after.Some? ==> ("query" in after.value <==> "query" in before) && Entry(after.value, "query") == Entry(before, "query")
  }

  /** The query an admitted step's action receives is the one the group's gate looked at exactly
      when the step states one itself or the previous result has none to pass on. */
  lemma QueryIsGatedIff(env: Env, step: Step, last: Params, first: bool, run: Run)
    requires InjectionSparesQuery(env) && Admit(env, step, last, first, run).Ok?
    ensures QueryText(Admit(env, step, last, first, run).value) == QueryText(step.params)
            <==> "query" in step.params || QueryText(last) == ""
  {
    hide Admit, Wire, GateFor, Decorate, QueryText;
    AdmittedIsWired(env, step, last, first, run);
    DecoratingKeepsQuery(env, step.params);
    WiredQuery(env, run, Decorate(env, step.params), last, first);
    QueryTexts(step.params, Decorate(env, step.params), last, Admit(env, step, last, first, run).value);
  }

  /** Then it is a query the identity is allowed, and an action of an identity without write
      capabilities receives a read or nothing. */
  lemma GatedQueryIsAllowed(env: Env, step: Step, last: Params, first: bool, run: Run)
    requires InjectionSparesQuery(env) && Admit(env, step, last, first, run).Ok?
    requires Enforced(env) && TrimSpace(step.action.value) == "DBQuery"
    requires "query" in step.params || QueryText(last) == ""
    ensures var sql := QueryText(Admit(env, step, last, first, run).value);
            Blank(sql) || (DBQueryAllowed(env.world.sql, env.identity.value, sql)
                           && (CannotWrite(env.identity.value) ==> ReadsOnly(env.world.sql, sql)))
  {
    hide Admit, Decorate, GateFor, Wire, DBQueryAllowed, ReadsOnly, CannotWrite, TrimSpace, QueryText;
    QueryIsGatedIff(env, step, last, first, run);
    AdmittedIsWired(env, step, last, first, run);
    DecoratingKeepsQuery(env, step.params);
    QueryTextKept(step.params, Decorate(env, step.params));
    QueryWasGated(env, run, step.action.value, Decorate(env, step.params));
  }

  /** A step that states no query passes the group's gate whatever the previous result holds, and
      its action receives the query found there, looked at by this gate or not. (The action
      checks the text again before it runs it; actions are not part of this model.) */
  lemma InheritedQueryIsNotGated(env: Env, step: Step, last: Params, first: bool, run: Run, sql: string)
    requires InjectionSparesQuery(env) && Admit(env, step, last, first, run).Ok? && "query" !in step.params
    ensures var inherited := Admit(env, step, last["query" := Str(sql)], first, run);
            inherited.Ok? && QueryText(inherited.value) == sql
  {
    hide Admit, Wire, GateFor, Decorate;
    var last' := last["query" := Str(sql)];
    AdmittedIsWired(env, step, last, first, run);
    DecoratingKeepsQuery(env, step.params);
    StillWired(env, run, Decorate(env, step.params), last, sql, first);
    StillAdmitted(env, step, last, last', first, run);
    WiredQuery(env, run, Decorate(env, step.params), last', first);
  }

  lemma AdmittedIsWired(env: Env, step: Step, last: Params, first: bool, run: Run)
    requires Admit(env, step, last, first, run).Ok?
    ensures step.action.Some? && GateFor(env, run, step.action.value, Decorate(env, step.params)).None?
    ensures Wire(env, run, Decorate(env, step.params), last, first) == Admit(env, step, last, first, run)
  {
    hide GateFor, Wire, Decorate;
  }

  lemma StillAdmitted(env: Env, step: Step, last: Params, last': Params, first: bool, run: Run)
    requires Admit(env, step, last, first, run).Ok? && Wire(env, run, Decorate(env, step.params), last', first).Ok?
    ensures Admit(env, step, last', first, run) == Wire(env, run, Decorate(env, step.params), last', first)
  {
    hide GateFor, Wire, Decorate;
  }

  lemma StillWired(env: Env, run: Run, params: Params, last: Params, sql: string, first: bool)
    requires Wire(env, run, params, last, first).Ok?
    ensures Wire(env, run, params, last["query" := Str(sql)], first).Ok?
  {
    hide MergePriorResultKey;
  }

  lemma DecoratingKeepsQuery(env: Env, params: Params)
    ensures "query" in Decorate(env, params) <==> "query" in params
    ensures Entry(Decorate(env, params), "query") == Entry(params, "query")
  {
  }

  /** A stated query stays text or stays none; a missing one is taken from the result. */
  lemma WiredQuery(env: Env, run: Run, params: Params, last: Params, first: bool)
    requires InjectionSparesQuery(env) && Wire(env, run, params, last, first).Ok?
    ensures var wired := Entry(Wire(env, run, params, last, first).value, "query");
            if "query" !in params then wired == Entry(last, "query")
            else if params["query"].Obj? then wired.Obj? else wired == params["query"]
  {
    hide MergePrior;
    var injected := if env.flags.memoryRuntime then env.world.inject(|run.invoked|, params) else Some(params);
    assert SparesQuery(params, injected);
    var input := if first then injected.value else MergeStepInput(injected.value, Entry(last, OUTPUT));
    assert ("query" in input <==> "query" in injected.value) && Entry(input, "query") == Entry(injected.value, "query");
    MergedQuery(input, last);
  }

  lemma MergedQuery(params: Params, last: Params)
    requires MergePrior(params, last).Some?
    ensures var merged := Entry(MergePrior(params, last).value, "query");
            if "query" !in params then merged == Entry(last, "query")
            else if params["query"].Obj? then merged.Obj? else merged == params["query"]
  {
  }

  lemma QueryTexts(stated: Params, gated: Params, last: Params, wired: Params)
    requires ("query" in gated <==> "query" in stated) && Entry(gated, "query") == Entry(stated, "query")
    requires var query := Entry(wired, "query");
             if "query" !in gated then query == Entry(last, "query")
             else if gated["query"].Obj? then query.Obj? else query == gated["query"]
    ensures QueryText(wired) == QueryText(stated) <==> "query" in stated || QueryText(last) == ""
  {
  }

  lemma QueryTextKept(a: Params, b: Params)
    requires Entry(a, "query") == Entry(b, "query")
    ensures QueryText(a) == QueryText(b)
  {
  }

  predicate CannotWrite(identity: AgentIdentity) {
    !HasCapability(identity, "all") && !HasCapability(identity, "db_write") && !HasCapability(identity, "db_query")
  }

  lemma QueryWasGated(env: Env, run: Run, action: string, params: Params)
    requires Enforced(env) && TrimSpace(action) == "DBQuery" && GateFor(env, run, action, params).None?
    ensures Blank(QueryText(params)) ||
            (DBQueryAllowed(env.world.sql, env.identity.value, QueryText(params))
             && (CannotWrite(env.identity.value) ==> ReadsOnly(env.world.sql, QueryText(params))))
  {
    hide TrimSpace, OverBudget, ContractForbidsAction, TrustAllowed, CapabilityAllowed, HasCapability;
  }

  /** How many invocations a list of steps can cause at most: the whole step tree. */
  function Work(steps: seq<Step>): nat
    decreases steps
  {
    if steps == [] then 0
    else
      1 + Retries(steps[0]) + Work(steps[1..])
      + (if steps[0].fallback.FallbackSteps? then FallbackIsSmaller(steps); Work(steps[0].fallback.steps) else 0)
  }

  lemma LoggingIsSound(env: Env, run: Run)
    requires Sound(env, run)
    ensures forall event :: Sound(env, Log(run, event)) && Grows(run, Log(run, event))
  {
    hide Cleared, WithinLimits;
  }

  lemma AdvanceSound(env: Env, steps: seq<Step>, last: Params, first: bool, run: Run)
    requires steps != [] && Sound(env, run)
    ensures var move := Advance(env, steps, last, first, run);
            && Sound(env, move.run) && Grows(run, move.run)
            && |move.run.invoked| + (if move.Go? then Work(move.steps) else 0) <= |run.invoked| + Work(steps)
  {
    hide Admit, Perform, Cleared, Sound, InBudget, EffectiveFailurePolicy;
    if Admit(env, steps[0], last, first, run).Ok? {
      AdmittedIsCleared(env, steps[0], last, first, run);
      var params := Admit(env, steps[0], last, first, run).value;
      PerformSound(env, run, steps[0], steps[0].action.value, params);
      LoggingIsSound(env, Perform(env, run, steps[0], steps[0].action.value, params).1);
    }
  }

  lemma {:induction false} StepsSound(env: Env, steps: seq<Step>, last: Params, first: bool, run: Run)
    requires Sound(env, run)
    ensures var run' := ExecuteSteps(env, steps, last, first, run).1;
            Sound(env, run') && Grows(run, run') && |run'.invoked| <= |run.invoked| + Work(steps)
    decreases steps
  {
    hide Advance, Sound;
    if steps != [] {
      AdvanceSound(env, steps, last, first, run);
      match Advance(env, steps, last, first, run)
      case Stop(_, _) =>
      case Go(steps', last', first', run') => StepsSound(env, steps', last', first', run');
    }
  }

  /** One group budget counts exactly the invocations made across all steps, retries and
      nested fallbacks; they stay within max_steps and the event rate; every invoked action
      had passed its gates; and the step tree bounds the work even without a budget. */
  lemma GroupIsSound(env: Env, steps: seq<Step>)
    ensures var run := ExecuteGroup(env, steps).1;
            && Sound(env, run)
            && |run.invoked| <= Work(steps)
            && (Enforced(env) && env.identity.value.constraints.Some? ==>
                  var c := env.identity.value.constraints.value;
                  && (c.maxSteps > 0 ==> |run.invoked| <= c.maxSteps)
                  && (c.eventRateLimit > 0.0 ==> CreateEvents(run.invoked) <= Ceil(c.eventRateLimit)))
  {
    hide ExecuteSteps, Sound, Ceil, CreateEvents;
    var unlimited := Run(Budget(0, 0.0, false, 0, 0), [], []);
    FreshIsSound(env, unlimited.budget);
    if !Enforced(env) {
      StepsSound(env, steps, map[], true, unlimited);
    } else if NewBudget(env.identity.value).Some? {
      var run := Run(NewBudget(env.identity.value).value, [], []);
      FreshIsSound(env, run.budget);
      StepsSound(env, steps, map[], true, run);
      if env.identity.value.constraints.Some? {
        SoundWithinConstraints(env, ExecuteSteps(env, steps, map[], true, run).1);
      }
    } else {
      NothingInvoked();
    }
  }

  lemma NothingInvoked()
    ensures CreateEvents([]) == 0 && forall rate | rate > 0.0 :: Ceil(rate) >= 0
  {
  }

  lemma SoundWithinConstraints(env: Env, run: Run)
    requires Enforced(env) && Sound(env, run) && NewBudget(env.identity.value).Some?
    requires SameLimits(run.budget, NewBudget(env.identity.value).value) && env.identity.value.constraints.Some?
    ensures var c := env.identity.value.constraints.value;
            && (c.maxSteps > 0 ==> |run.invoked| <= c.maxSteps)
            && (c.eventRateLimit > 0.0 ==> CreateEvents(run.invoked) <= Ceil(c.eventRateLimit))
  {
    hide CreateEvents, Ceil, Cleared;
  }

  lemma FreshIsSound(env: Env, budget: Budget)
    requires budget.executedSteps == 0 && budget.eventsCreated == 0
    ensures Sound(env, Run(budget, [], []))
  {
    hide Cleared;
    assert budget.eventRateLimit > 0.0 ==> Ceil(budget.eventRateLimit) >= 0;
  }

  // ------------------------------------------------------ the group's payload

  /** What the events of a path leave as the last result. */
  function PathResult(last: Params, events: seq<Event>): Params
    decreases events
  {
    if events == [] then last else PathResult(After(last, events[0]), events[1..])
  }

  function After(last: Params, event: Event): Params {
    match event
    case Completed(result) => result
    case Skipped => last
    case FellBack => map[]
  }

  lemma {:induction false} PathResultFrom(last: Params, event: Event, rest: seq<Event>)
    ensures PathResult(last, [event] + rest)
         == PathResult(After(last, event), rest)
  {
    assert ([event] + rest)[1..] == rest;
  }

  /** What a result answers with: its "output", or an empty object when it has none. */
  function PayloadIn(result: Params): Json {
    if "output" in result then result["output"] else Obj(map[])
  }

  /** One step adds at most one event, and that event says what the next step starts from. */
  lemma AdvancePath(env: Env, steps: seq<Step>, last: Params, first: bool, run: Run)
    requires steps != []
    ensures var move, policy := Advance(env, steps, last, first, run), EffectiveFailurePolicy(env.identity);
            match move
            case Stop(outcome, end) =>
              end.trace == run.trace && outcome.Err? && (policy.Continue? ==> outcome != Err(ActionFailed))
            case Go(steps', last', first', run') =>
              |run'.trace| == |run.trace| + 1 && run.trace <= run'.trace
              && var event := run'.trace[|run.trace|];
                 && last' == After(last, event)
                 && (if policy.Continue? then !event.FellBack? && steps' == steps[1..] else !event.Skipped?)
  {
    hide Admit, Perform, Cleared, InBudget, EffectiveFailurePolicy;
    if Admit(env, steps[0], last, first, run).Ok? {
      AdmittedIsCleared(env, steps[0], last, first, run);
      TraceKept(env, run, steps[0], steps[0].action.value, Admit(env, steps[0], last, first, run).value);
    } else {
      RefusalReason(env, steps[0], last, first, run);
    }
  }

  lemma {:induction false} PayloadOfPath(env: Env, steps: seq<Step>, last: Params, first: bool, run: Run)
    ensures var (outcome, run') := ExecuteSteps(env, steps, last, first, run);
            && run.trace <= run'.trace
            && (outcome.Ok? ==> outcome.value == PayloadIn(PathResult(last, run'.trace[|run.trace|..])))
    decreases steps
  {
    hide Advance, EffectiveFailurePolicy;
    var end := ExecuteSteps(env, steps, last, first, run).1;
    if steps == [] {
      assert end.trace[|run.trace|..] == [];
    } else {
      AdvancePath(env, steps, last, first, run);
      match Advance(env, steps, last, first, run)
      case Stop(_, _) =>
      case Go(steps', last', first', run') =>
        PayloadOfPath(env, steps', last', first', run');
        var event := run'.trace[|run.trace|];
        assert end.trace[|run.trace|..] == [event] + end.trace[|run'.trace|..];
        PathResultFrom(last, event, end.trace[|run'.trace|..]);
    }
  }

  lemma {:induction false} TraceKept(env: Env, run: Run, step: Step, action: string, params: Params)
    ensures Perform(env, run, step, action, params).1.trace == run.trace
  {
    var (result, run') := Attempt(env, run, action, params);
    if result.Errored? && step.retry.Retry? {
      RetryTraceKept(env, run', action, params, step.retry.maxRetries);
    }
  }

  lemma {:induction false} RetryTraceKept(env: Env, run: Run, action: string, params: Params, left: int)
    ensures RetryAttempts(env, run, action, params, left).1.trace == run.trace
    decreases left
  {
    if left > 0 && InBudget(env, run, action) {
      RetryTraceKept(env, Attempt(env, run, action, params).1, action, params, left - 1);
    }
  }

  /** The last step to complete decides, unless a fallback list started after it. */
  lemma {:induction false} LastCompletedDecides(last: Params, events: seq<Event>, i: nat)
    requires i < |events| && !events[i].Skipped?
    requires forall j | i < j < |events| :: events[j].Skipped?
    ensures PathResult(last, events) == if events[i].Completed? then events[i].result else map[]
    decreases i
  {
    if i == 0 {
      AllSkipped(After(last, events[0]), events[1..]);
    } else {
      LastCompletedDecides(After(last, events[0]), events[1..], i - 1);
    }
  }

  lemma {:induction false} AllSkipped(last: Params, events: seq<Event>)
    requires forall j | 0 <= j < |events| :: events[j].Skipped?
    ensures PathResult(last, events) == last
  {
    if events != [] {
      AllSkipped(last, events[1..]);
    }
  }

  /** The group answers with the "output" of the last step completed on the path taken, and with
      an empty object when that step has none or none completed since the last fallback list
      began. */
  lemma GroupPayload(env: Env, steps: seq<Step>)
    ensures var (outcome, run) := ExecuteGroup(env, steps);
            outcome.Ok? ==>
              if exists i :: 0 <= i < |run.trace| && !run.trace[i].Skipped? then
                exists i :: 0 <= i < |run.trace| && !run.trace[i].Skipped?
                  && (forall j | i < j < |run.trace| :: run.trace[j].Skipped?)
                  && outcome.value == (if run.trace[i].Completed? && "output" in run.trace[i].result
                                       then run.trace[i].result["output"] else Obj(map[]))
              else outcome.value == Obj(map[])
  {
    hide ExecuteSteps;
    var (outcome, run) := ExecuteGroup(env, steps);
    if outcome.Ok? {
      var start := Run(if Enforced(env) then NewBudget(env.identity.value).value else Budget(0, 0.0, false, 0, 0), [], []);
      PayloadOfPath(env, steps, map[], true, start);
      assert run.trace[0..] == run.trace;
      if exists i :: 0 <= i < |run.trace| && !run.trace[i].Skipped? {
        var i := LastUnskipped(run.trace);
        LastCompletedDecides(map[], run.trace, i);
      } else {
        AllSkipped(map[], run.trace);
      }
    }
  }

  lemma {:induction false} LastUnskipped(events: seq<Event>) returns (i: nat)
    requires exists i :: 0 <= i < |events| && !events[i].Skipped?
    ensures i < |events| && !events[i].Skipped? && forall j | i < j < |events| :: events[j].Skipped?
  {
    i := |events| - 1;
    if events[i].Skipped? {
      i := LastUnskipped(events[..|events| - 1]);
    }
  }

  // ------------------------------------------------------- failure policies

  /** The contract's failure policy is "continue", in whatever case and padding. */
  predicate SaysContinue(identity: Option<AgentIdentity>) {
    identity.Some? && identity.value.contract.Some? && ToLower(TrimSpace(identity.value.contract.value.failurePolicy)) == "continue"
  }

  lemma ContinueIffSaid(identity: Option<AgentIdentity>)
    ensures EffectiveFailurePolicy(identity).Continue? <==> SaysContinue(identity)
  {
    hide TrimSpace, ToLower;
  }

  /** Under "continue" no failing action ends the group or starts a fallback list, and a
      payload means every step was completed or skipped; under the other policies no
      failure is ever skipped. */
  lemma {:induction false} PolicyShapesPath(env: Env, steps: seq<Step>, last: Params, first: bool, run: Run)
    ensures var (outcome, run') := ExecuteSteps(env, steps, last, first, run);
            && run.trace <= run'.trace
            && var path := run'.trace[|run.trace|..];
               if SaysContinue(env.identity) then
                 && outcome != Err(ActionFailed)
                 && (forall i | 0 <= i < |path| :: !path[i].FellBack?)
                 && (outcome.Ok? ==> |path| == |steps|)
               else forall i | 0 <= i < |path| :: !path[i].Skipped?
    decreases steps
  {
    hide Advance, EffectiveFailurePolicy, SaysContinue;
    ContinueIffSaid(env.identity);
    if steps != [] {
      AdvancePath(env, steps, last, first, run);
      match Advance(env, steps, last, first, run)
      case Stop(_, _) =>
      case Go(steps', last', first', run') =>
        PolicyShapesPath(env, steps', last', first', run');
        var end := ExecuteSteps(env, steps', last', first', run').1;
        assert end.trace[|run.trace|..] == [run'.trace[|run.trace|]] + end.trace[|run'.trace|..];
    }
  }

  lemma RefusalReason(env: Env, step: Step, last: Params, first: bool, run: Run)
    requires Admit(env, step, last, first, run).Err?
    ensures Admit(env, step, last, first, run) != Err(ActionFailed)
  {
  }

  function WithPolicy(env: Env, policy: string): Env {
    if env.identity.Some? && env.identity.value.contract.Some? then
      var identity := env.identity.value;
      env.(identity := Some(identity.(contract := Some(identity.contract.value.(failurePolicy := policy)))))
    else env
  }

  lemma AdmitIgnoresPolicy(env: Env, policy: string, step: Step, last: Params, first: bool, run: Run)
    ensures Admit(WithPolicy(env, policy), step, last, first, run) == Admit(env, step, last, first, run)
  {
    hide GateFor, MergePrior, MergeStepInput;
    if step.action.Some? {
      var params := Decorate(env, step.params);
      assert Decorate(WithPolicy(env, policy), step.params) == params;
      GateIgnoresPolicy(env, policy, run, step.action.value, params);
    }
  }

  lemma GateIgnoresPolicy(env: Env, policy: string, run: Run, action: string, params: Params)
    ensures GateFor(WithPolicy(env, policy), run, action, params) == GateFor(env, run, action, params)
  {
    hide OverBudget, CapabilityAllowed, TrustAllowed, DBQueryAllowed, ForbidsAction, TrimSpace;
    var env' := WithPolicy(env, policy);
    if env.identity.Some? {
      SameGrants(env.world.sql, env.identity.value, env'.identity.value, action);
    }
  }

  /** Identities that differ in their failure policy only are granted the same. */
  lemma SameGrants(oracle: SqlOracle, a: AgentIdentity, b: AgentIdentity, action: string)
    requires a.capabilities == b.capabilities && a.trustLevel == b.trustLevel
    ensures CapabilityAllowed(a, action) == CapabilityAllowed(b, action)
    ensures TrustAllowed(a, action) == TrustAllowed(b, action)
    ensures forall sql :: DBQueryAllowed(oracle, a, sql) == DBQueryAllowed(oracle, b, sql)
  {
    hide RequiredCapability, Covers, TrustLevelRank, MinTrustRankForAction, SqlCapability, Normalize;
    forall capability ensures HasCapability(a, capability) == HasCapability(b, capability) {
    }
  }

  lemma {:induction false} RetriesIgnorePolicy(env: Env, policy: string, run: Run, action: string, params: Params, left: int)
    ensures RetryAttempts(WithPolicy(env, policy), run, action, params, left) == RetryAttempts(env, run, action, params, left)
    decreases left
  {
    hide OverBudget, Charge;
    if left > 0 {
      RetriesIgnorePolicy(env, policy, Attempt(env, run, action, params).1, action, params, left - 1);
    }
  }

  lemma PerformIgnoresPolicy(env: Env, policy: string, run: Run, step: Step, action: string, params: Params)
    ensures Perform(WithPolicy(env, policy), run, step, action, params) == Perform(env, run, step, action, params)
  {
    hide RetryAttempts, Charge;
    if step.retry.Retry? {
      RetriesIgnorePolicy(env, policy, Attempt(env, run, action, params).1, action, params, step.retry.maxRetries);
    }
  }

  /** Unless it fails, and is then skipped, replaced or turned into an error, a step goes the
      same way under every policy. */
  lemma AdvanceIgnoresPolicy(env: Env, policy: string, steps: seq<Step>, last: Params, first: bool, run: Run)
    requires steps != []
    requires match Advance(env, steps, last, first, run)
             case Stop(outcome, _) => outcome != Err(ActionFailed)
             case Go(_, _, _, run') => run'.trace != [] && run'.trace[|run'.trace| - 1].Completed?
    ensures Advance(WithPolicy(env, policy), steps, last, first, run) == Advance(env, steps, last, first, run)
  {
    hide Admit, Perform, Cleared, InBudget, EffectiveFailurePolicy;
    AdmitIgnoresPolicy(env, policy, steps[0], last, first, run);
    if Admit(env, steps[0], last, first, run).Ok? {
      AdmittedIsCleared(env, steps[0], last, first, run);
      PerformIgnoresPolicy(env, policy, run, steps[0], steps[0].action.value, Admit(env, steps[0], last, first, run).value);
    }
  }

  /** Events a run adds that are all completions: no step was skipped or replaced. */
  predicate OnlyCompletes(before: Run, after: Run) {
    before.trace <= after.trace && forall i | |before.trace| <= i < |after.trace| :: after.trace[i].Completed?
  }

  /** The failure policy governs failed steps only: when every step this run reaches completes
      or ends the group with something other than a failed action, every policy gives the same
      outcome and the same run, even where attempts fail and a retry succeeds. */
  lemma {:induction false} PolicyOnlyAfterFailure(env: Env, policy: string, steps: seq<Step>, last: Params, first: bool, run: Run)
    requires OnlyCompletes(run, ExecuteSteps(env, steps, last, first, run).1)
    requires ExecuteSteps(env, steps, last, first, run).0 != Err(ActionFailed)
    ensures ExecuteSteps(WithPolicy(env, policy), steps, last, first, run) == ExecuteSteps(env, steps, last, first, run)
    decreases steps
  {
    hide Advance, EffectiveFailurePolicy;
    if steps != [] {
      AdvancePath(env, steps, last, first, run);
      match Advance(env, steps, last, first, run)
      case Stop(_, _) => AdvanceIgnoresPolicy(env, policy, steps, last, first, run);
      case Go(steps', last', first', run') =>
        PolicyShapesPath(env, steps', last', first', run');
        var end := ExecuteSteps(env, steps', last', first', run').1;
        assert end.trace[|run.trace|] == run'.trace[|run.trace|];
        AdvanceIgnoresPolicy(env, policy, steps, last, first, run);
        PolicyOnlyAfterFailure(env, policy, steps', last', first', run');
    }
  }

  /** A step refused by a gate ends the group there, with that refusal and nothing charged,
      whatever the failure policy and whatever steps follow. */
  lemma RefusalEndsGroup(env: Env, policy: string, steps: seq<Step>, last: Params, first: bool, run: Run, gate: Gate)
    requires steps != [] && steps[0].action.Some?
    requires GateFor(env, run, steps[0].action.value, Decorate(env, steps[0].params)) == Some(gate)
    ensures ExecuteSteps(WithPolicy(env, policy), steps, last, first, run) == (Err(GateDenied(gate)), run)
  {
    hide GateFor, Wire, Perform, Decorate, EffectiveFailurePolicy;
    AdmitIgnoresPolicy(env, policy, steps[0], last, first, run);
    assert Admit(env, steps[0], last, first, run) == Err(GateDenied(gate));
    hide Admit;
    assert Advance(WithPolicy(env, policy), steps, last, first, run) == Stop(Err(GateDenied(gate)), run);
  }

  // ------------------------------------------------- denials while retrying

  /** The run after `n` attempts at an action. */
  function AfterAttempts(env: Env, run: Run, action: string, params: Params, n: nat): Run
    decreases n
  {
    if n == 0 then run else AfterAttempts(env, Attempt(env, run, action, params).1, action, params, n - 1)
  }

  /** The first `n` attempts all fail, each retry among them having been within budget, and
      the budget then refuses one more although retries are left. */
  predicate RefusedRetry(env: Env, run: Run, action: string, params: Params, n: nat, maxRetries: int) {
    && 1 <= n <= maxRetries && FailsAt(env, run, action, params)
    && RetriesRefused(env, Attempt(env, run, action, params).1, action, params, n - 1)
  }

  predicate FailsAt(env: Env, run: Run, action: string, params: Params) {
    Attempt(env, run, action, params).0.Errored?
  }

  predicate RetriesRefused(env: Env, run: Run, action: string, params: Params, n: nat)
    decreases n
  {
    if n == 0 then !InBudget(env, run, action)
    else
      && InBudget(env, run, action) && FailsAt(env, run, action, params)
      && RetriesRefused(env, Attempt(env, run, action, params).1, action, params, n - 1)
  }

  lemma {:induction false} RetriesStopAtRefusal(env: Env, run: Run, action: string, params: Params, n: nat, left: int)
    requires n <= left - 1 && RetriesRefused(env, run, action, params, n)
    ensures RetryAttempts(env, run, action, params, left) == (Errored, AfterAttempts(env, run, action, params, n))
    decreases n
  {
    hide OverBudget, Attempt;
    if n > 0 {
      RetriesStopAtRefusal(env, Attempt(env, run, action, params).1, action, params, n - 1, left - 1);
    }
  }

  /** A budget denial met at any retry is a failed action, not a gate denial, and the refused
      attempt is not charged: the group goes on exactly when the policy is "continue", starts
      the step's fallback list exactly when it is not and there is one, and otherwise ends. */
  lemma RetryDenialIsAFailure(env: Env, steps: seq<Step>, last: Params, first: bool, run: Run, params: Params, n: nat)
    requires steps != [] && steps[0].action.Some? && steps[0].retry.Retry?
    requires Admit(env, steps[0], last, first, run) == Ok(params)
    requires RefusedRetry(env, run, steps[0].action.value, params, n, steps[0].retry.maxRetries)
    ensures var spent := AfterAttempts(env, run, steps[0].action.value, params, n);
            && |spent.invoked| == |run.invoked| + n
            && ExecuteSteps(env, steps, last, first, run)
               == (if SaysContinue(env.identity) then
                     ExecuteSteps(env, steps[1..], last, false, Log(spent, Skipped))
                   else if steps[0].fallback.FallbackSteps? then
                     ExecuteSteps(env, steps[0].fallback.steps, map[], true, Log(spent, FellBack))
                   else (Err(ActionFailed), spent))
  {
    hide ExecuteSteps, Advance, Admit, RefusedRetry, AfterAttempts, EffectiveFailurePolicy, SaysContinue;
    ContinueIffSaid(env.identity);
    AttemptsCounted(env, run, steps[0].action.value, params, n);
    AdvancePastRefusedRetry(env, steps, last, first, run, params, n);
    StepThrough(env, steps, last, first, run);
  }

  lemma StepThrough(env: Env, steps: seq<Step>, last: Params, first: bool, run: Run)
    requires steps != []
    ensures ExecuteSteps(env, steps, last, first, run)
            == match Advance(env, steps, last, first, run)
               case Stop(outcome, end) => (outcome, end)
               case Go(steps', last', first', run') => ExecuteSteps(env, steps', last', first', run')
  {
    hide Advance;
  }

  lemma AdvancePastRefusedRetry(env: Env, steps: seq<Step>, last: Params, first: bool, run: Run, params: Params, n: nat)
    requires steps != [] && steps[0].action.Some? && steps[0].retry.Retry?
    requires Admit(env, steps[0], last, first, run) == Ok(params)
    requires RefusedRetry(env, run, steps[0].action.value, params, n, steps[0].retry.maxRetries)
    ensures Advance(env, steps, last, first, run)
            == var spent := AfterAttempts(env, run, steps[0].action.value, params, n);
               if EffectiveFailurePolicy(env.identity).Continue? then Go(steps[1..], last, false, Log(spent, Skipped))
               else if steps[0].fallback.FallbackSteps? then Go(steps[0].fallback.steps, map[], true, Log(spent, FellBack))
               else Stop(Err(ActionFailed), spent)
  {
    hide Admit, EffectiveFailurePolicy, RefusedRetry, Perform, AfterAttempts;
    PerformRefusedRetry(env, run, steps[0], steps[0].action.value, params, n);
  }

  lemma PerformRefusedRetry(env: Env, run: Run, step: Step, action: string, params: Params, n: nat)
    requires step.retry.Retry? && RefusedRetry(env, run, action, params, n, step.retry.maxRetries)
    ensures Perform(env, run, step, action, params) == (Errored, AfterAttempts(env, run, action, params, n))
  {
    hide OverBudget, Attempt;
    RetriesStopAtRefusal(env, Attempt(env, run, action, params).1, action, params, n - 1, step.retry.maxRetries);
  }

  lemma {:induction false} AttemptsCounted(env: Env, run: Run, action: string, params: Params, n: nat)
    ensures var spent := AfterAttempts(env, run, action, params, n);
            && |spent.invoked| == |run.invoked| + n && SameLimits(run.budget, spent.budget)
            && (Enforced(env) ==> spent.budget.executedSteps == run.budget.executedSteps + n)
    decreases n
  {
    hide IsCreateEvent;
    if n > 0 {
      AttemptsCounted(env, Attempt(env, run, action, params).1, action, params, n - 1);
    }
  }

  /** Once max_steps is used up the next step that passes the gates before the budget's ends
      the group with the budget's denial, so going on after the refused retry only ever ends
      there, at an earlier gate, or with no step left. */
  lemma SpentBudgetEndsGroup(env: Env, steps: seq<Step>, last: Params, first: bool, run: Run)
    requires Enforced(env) && run.budget.maxSteps > 0 && run.budget.executedSteps >= run.budget.maxSteps
    requires steps != [] && steps[0].action.Some?
    ensures var (outcome, run') := ExecuteSteps(env, steps, last, first, run);
            && run' == run && outcome.Err? && outcome.error.GateDenied?
            && (outcome == Err(GateDenied(BudgetGate)) <==>
                  EarlierGatesPass(env, run, steps[0].action.value, Decorate(env, steps[0].params)))
  {
    var action, params := steps[0].action.value, Decorate(env, steps[0].params);
    SpentBudgetGate(env, run, action, params);
    hide EarlierGatesPass, GateFor, Wire, Perform, Decorate, OverBudget;
    var gate := GateFor(env, run, action, params).value;
    assert Admit(env, steps[0], last, first, run) == Err(GateDenied(gate));
    hide Admit;
    assert Advance(env, steps, last, first, run) == Stop(Err(GateDenied(gate)), run);
    hide Advance;
    StepThrough(env, steps, last, first, run);
  }

  /** The gates the source asks before the budget. */
  predicate EarlierGatesPass(env: Env, run: Run, action: string, params: Params) {
    && !Refuses(CapabilityGate, env, run, action, params) && !Refuses(DBQueryGate, env, run, action, params)
    && !Refuses(TrustGate, env, run, action, params)
  }

  lemma SpentBudgetGate(env: Env, run: Run, action: string, params: Params)
    requires Enforced(env) && run.budget.maxSteps > 0 && run.budget.executedSteps >= run.budget.maxSteps
    ensures GateFor(env, run, action, params).Some?
    ensures GateFor(env, run, action, params) == Some(BudgetGate) <==> EarlierGatesPass(env, run, action, params)
  {
    assert OverBudget(run.budget, action, env.world.timeUp(|run.invoked|));
    hide CapabilityAllowed, DBQueryPasses, TrustAllowed, OverBudget, ContractForbidsAction, TrimSpace;
  }

  /** Under enforcement, with max_steps 1 and "continue", an action that always fails. */
  ghost predicate AlwaysFails(env: Env) {
    && Enforced(env) && !env.flags.memoryRuntime && !env.flags.contractEnforcement
    && env.identity.value.constraints == Some(AgentConstraints(1, 0.0, NoTimeBudget))
    && EffectiveFailurePolicy(env.identity).Continue? && "Decision" in env.world.registered
    && CapabilityAllowed(env.identity.value, "Decision") && TrustAllowed(env.identity.value, "Decision")
    && forall n: nat, params :: env.world.execute(n, "Decision", params).Errored?
  }

  lemma AlwaysFailsIsPossible() returns (env: Env)
    ensures AlwaysFails(env)
  {
    var identity := AgentIdentity("a", "", [], Some(AgentContract([], "continue")), Some(AgentConstraints(1, 0.0, NoTimeBudget)));
    env := Env(Some(identity), Flags(true, false, false),
               World({"Decision"}, (n, a, p) => Errored, n => false, config => map[], (n, p) => Some(p), (n, p, r) => true,
                     SqlOracle(sql => SqlRejected, sql => None)));
    hide EffectiveFailurePolicy, CapabilityAllowed, TrustAllowed;
    DecisionIsOpen(identity);
    ContinueIsContinue(identity);
  }

  /** The denial is really met, in some environment: a step with one retry is skipped after one
      invocation, so alone it leaves the group a success, and a second such step is denied for
      the budget. */
  lemma RetryDenialIsMet() returns (env: Env, step: Step)
    ensures AlwaysFails(env)
    ensures var (outcome, run) := ExecuteGroup(env, [step]);
            outcome == Ok(Obj(map[])) && |run.invoked| == 1 && run.trace == [Skipped]
    ensures ExecuteGroup(env, [step, step]).0 == Err(GateDenied(BudgetGate))
  {
    hide AlwaysFails, ExecuteGroup;
    env := AlwaysFailsIsPossible();
    step := RefusedRetryIsSkipped(env);
  }

  lemma RefusedRetryIsSkipped(env: Env) returns (step: Step)
    requires AlwaysFails(env)
    ensures var (outcome, run) := ExecuteGroup(env, [step]);
            outcome == Ok(Obj(map[])) && |run.invoked| == 1 && run.trace == [Skipped]
    ensures ExecuteGroup(env, [step, step]).0 == Err(GateDenied(BudgetGate))
  {
    step := Step(Some("Decision"), map[], Retry(1), NoFallback);
    hide ExecuteSteps, EffectiveFailurePolicy, CapabilityAllowed, TrustAllowed, Decorate, IsCreateEvent;
    var start := Run(Budget(1, 0.0, false, 0, 0), [], []);
    RefusedStepIsSkipped(env, step, [], start);
    RefusedStepIsSkipped(env, step, [step], start);
    assert [step] + [] == [step] && [step] + [step] == [step, step];
    var skipped := Log(Attempt(env, start, "Decision", Decorate(env, step.params)).1, Skipped);
    NothingLeft(env, map[], skipped);
    SpentOnNextStep(env, step, skipped);
  }

  /** A failing step with one retry that the budget refuses is skipped under "continue". */
  lemma RefusedStepIsSkipped(env: Env, step: Step, rest: seq<Step>, run: Run)
    requires Enforced(env) && !env.flags.memoryRuntime && !env.flags.contractEnforcement
    requires step.action == Some("Decision") && "Decision" in env.world.registered && step.retry == Retry(1)
    requires CapabilityAllowed(env.identity.value, "Decision") && TrustAllowed(env.identity.value, "Decision")
    requires EffectiveFailurePolicy(env.identity).Continue? && InBudget(env, run, "Decision")
    requires FailsAt(env, run, "Decision", Decorate(env, step.params))
    requires !InBudget(env, Attempt(env, run, "Decision", Decorate(env, step.params)).1, "Decision")
    ensures var spent := Attempt(env, run, "Decision", Decorate(env, step.params)).1;
            ExecuteSteps(env, [step] + rest, map[], true, run) == ExecuteSteps(env, rest, map[], false, Log(spent, Skipped))
  {
    hide ExecuteSteps, RefusedRetry, AfterAttempts, EffectiveFailurePolicy, SaysContinue, CapabilityAllowed, TrustAllowed, Decorate, Admit,
      Attempt, OverBudget;
    ContinueIffSaid(env.identity);
    var params := Decorate(env, step.params);
    OpenStepIsAdmitted(env, step, run);
    RefusedAtOnceIsRefused(env, run, "Decision", params);
    RetryDenialIsAFailure(env, [step] + rest, map[], true, run, params, 1);
    assert ([step] + rest)[1..] == rest;
  }

  lemma SpentOnNextStep(env: Env, step: Step, run: Run)
    requires Enforced(env) && run.budget.maxSteps > 0 && run.budget.executedSteps >= run.budget.maxSteps
    requires step.action == Some("Decision")
    requires CapabilityAllowed(env.identity.value, "Decision") && TrustAllowed(env.identity.value, "Decision")
    ensures ExecuteSteps(env, [step], map[], false, run) == (Err(GateDenied(BudgetGate)), run)
  {
    hide ExecuteSteps, CapabilityAllowed, TrustAllowed, OverBudget, Decorate, EarlierGatesPass;
    OpenEarlierGates(env, run, Decorate(env, step.params));
    SpentBudgetEndsGroup(env, [step], map[], false, run);
  }

  lemma OpenEarlierGates(env: Env, run: Run, params: Params)
    requires Enforced(env)
    requires CapabilityAllowed(env.identity.value, "Decision") && TrustAllowed(env.identity.value, "Decision")
    ensures EarlierGatesPass(env, run, "Decision", params)
  {
    hide CapabilityAllowed, TrustAllowed, TrimSpace, DBQueryPasses;
    NotAQuery();
  }

  /** A step of pure control flow under identity enforcement, no memory and no contract gate. */
  lemma OpenStepIsAdmitted(env: Env, step: Step, run: Run)
    requires Enforced(env) && !env.flags.memoryRuntime && !env.flags.contractEnforcement
    requires step.action == Some("Decision") && "Decision" in env.world.registered
    requires CapabilityAllowed(env.identity.value, "Decision") && TrustAllowed(env.identity.value, "Decision")
    requires InBudget(env, run, "Decision")
    ensures Admit(env, step, map[], true, run) == Ok(Decorate(env, step.params))
  {
    hide CapabilityAllowed, TrustAllowed, OverBudget, TrimSpace, Decorate, MergePrior, GateFor;
    var params := Decorate(env, step.params);
    OpenGates(env, run, params);
    NothingToMerge(params);
    assert Entry(map[], OUTPUT) == Null;
  }

  lemma OpenGates(env: Env, run: Run, params: Params)
    requires Enforced(env) && !env.flags.contractEnforcement && InBudget(env, run, "Decision")
    requires CapabilityAllowed(env.identity.value, "Decision") && TrustAllowed(env.identity.value, "Decision")
    ensures GateFor(env, run, "Decision", params).None?
  {
    hide CapabilityAllowed, TrustAllowed, OverBudget, TrimSpace, DBQueryPasses;
    NotAQuery();
  }

  lemma NothingToMerge(params: Params)
    ensures MergePrior(params, map[]) == Some(params)
  {
    assert MergePrior(params, map[]).value == params;
  }

  lemma NotAQuery()
    ensures TrimSpace("Decision") != "DBQuery" && !IsCreateEvent("Decision")
  {
    assert Trimmed("Decision");
    hide ToLower, TrimSpace, Trimmed;
    OtherAction("Decision");
  }

  lemma OtherAction(action: string)
    requires TrimSpace(action) == action && action != "DBQuery" && |action| != |"CreateEvent"|
    ensures TrimSpace(action) != "DBQuery" && !IsCreateEvent(action)
  {
    hide ToLower, TrimSpace;
  }

  lemma RefusedAtOnceIsRefused(env: Env, run: Run, action: string, params: Params)
    requires FailsAt(env, run, action, params) && !InBudget(env, Attempt(env, run, action, params).1, action)
    ensures RefusedRetry(env, run, action, params, 1, 1)
    ensures AfterAttempts(env, run, action, params, 1) == Attempt(env, run, action, params).1
  {
    hide OverBudget, Attempt;
    OneAttempt(env, run, action, params);
  }

  lemma OneAttempt(env: Env, run: Run, action: string, params: Params)
    ensures AfterAttempts(env, run, action, params, 0) == run
    ensures AfterAttempts(env, run, action, params, 1) == Attempt(env, run, action, params).1
  {
    hide Attempt;
    var next := Attempt(env, run, action, params).1;
    assert AfterAttempts(env, next, action, params, 0) == next;
  }

  lemma NothingLeft(env: Env, last: Params, run: Run)
    ensures ExecuteSteps(env, [], last, false, run) == (Ok(PayloadIn(last)), run)
  {
  }

  lemma ContinueIsContinue(identity: AgentIdentity)
    requires identity.contract.Some? && identity.contract.value.failurePolicy == "continue"
    ensures EffectiveFailurePolicy(Some(identity)).Continue?
  {
    assert Trimmed("continue");
    LowerFixed("continue");
    hide TrimSpace, ToLower;
  }

  lemma DecisionIsOpen(identity: AgentIdentity)
    ensures CapabilityAllowed(identity, "Decision") && TrustAllowed(identity, "Decision")
  {
    assert Trimmed("Decision");
    hide TrimSpace, Normalize;
  }
}
