/** One job group: the step interpreter with its gates, retries and fallback lists, all
    charging one budget (pkg/agent/setup.go, pkg/agent/execution_runtime.go). */
module JobGroup {
  import opened Wrappers
  import opened Text
  import opened Json
  import opened Identities
  import opened StepParams

  // -------------------------------------------------------------- the data

  /** A step's "retry" entry: absent or null, malformed, or a number of retries. */
  datatype RetrySpec = NoRetry | MalformedRetry | Retry(maxRetries: int)

  datatype FallbackList = NoFallback | FallbackSteps(steps: seq<Step>)

  datatype Step = Step(action: Option<string>, params: Params, retry: RetrySpec, fallback: FallbackList)

  datatype Flags = Flags(identityEnforcement: bool, contractEnforcement: bool, memoryRuntime: bool)

  datatype ActionResult = Succeeded(result: Params) | Errored

  /** What the interpreter does not control. Actions, clocks and memory may react to how many
      invocations the group has made so far. */
  datatype World = World(
    registered: set<string>,
    execute: (nat, string, Params) -> ActionResult,
    timeUp: nat -> bool,
    runtimeConfig: Json -> map<string, Json>,
    inject: (nat, Params) -> Option<Params>,
    persisted: (nat, Params, Params) -> bool,
    sql: SqlOracle)

  datatype Env = Env(identity: Option<AgentIdentity>, flags: Flags, world: World)

  /** constraintBudgetManager */
  datatype Budget = Budget(maxSteps: int, eventRateLimit: real, hasTimeBudget: bool, executedSteps: nat, eventsCreated: nat)

  datatype Gate = CapabilityGate | DBQueryGate | TrustGate | BudgetGate | ContractGate

  datatype Failure =
    | BadTimeBudget
    | MissingAction
    | GateDenied(gate: Gate)
    | InjectFailed
    | BadConfig
    | UnknownAction
    | BadRetry
    | ActionFailed
    | PersistFailed

  datatype Event = Completed(result: Params) | Skipped | FellBack

  datatype Invocation = Invocation(action: string, params: Params)

  /** The group's mutable accounting: its budget, every action invocation made, and the
      steps completed, skipped or replaced so far. */
  datatype Run = Run(budget: Budget, invoked: seq<Invocation>, trace: seq<Event>)

  type GroupResult = (Result<Json, Failure>, Run)

  predicate Enforced(env: Env) {
    env.flags.identityEnforcement && env.identity.Some?
  }

  // -------------------------------------------------------------- the budget

  function Ceil(r: real): int {
    if r.Floor as real == r then r.Floor else r.Floor + 1
  }

  predicate IsCreateEvent(actionName: string) {
    ToLower(actionName) == ToLower("CreateEvent")
  }

  /** preStepCheck returns an error. */
  predicate OverBudget(b: Budget, actionName: string, timeUp: bool) {
    || (b.hasTimeBudget && timeUp)
    || (b.maxSteps > 0 && b.executedSteps >= b.maxSteps)
    || (IsCreateEvent(actionName) && b.eventRateLimit > 0.0 && b.eventsCreated >= Ceil(b.eventRateLimit))
  }

  /** markActionExecuted */
  function Charge(b: Budget, actionName: string): Budget {
    b.(executedSteps := b.executedSteps + 1,
       eventsCreated := b.eventsCreated + (if IsCreateEvent(actionName) then 1 else 0))
  }

  function NewBudget(identity: AgentIdentity): Option<Budget> {
    match identity.constraints
    case None => Some(Budget(0, 0.0, false, 0, 0))
    case Some(c) =>
      if c.timeBudget.UnparsableTimeBudget? then None
      else Some(Budget(c.maxSteps, c.eventRateLimit, c.timeBudget.TimeBudgetSet?, 0, 0))
  }

  // ------------------------------------------------------------------- gates

  /** applyExecutionContext: under enforcement the step's config is always a mapping. */
  function Decorate(env: Env, params: Params): Params {
    if (env.flags.identityEnforcement || env.flags.contractEnforcement) && env.identity.Some? then
      params[CONFIG := Obj(env.world.runtimeConfig(Entry(params, CONFIG)))]
    else params
  }

  predicate DBQueryPasses(env: Env, identity: AgentIdentity, params: Params) {
    var sql := if Entry(params, "query").Str? then params["query"].s else "";
    Blank(sql) || DBQueryAllowed(env.world.sql, identity, sql)
  }

  /** The gates in the source's order; the first that objects denies the step. */
  function GateFor(env: Env, run: Run, action: string, params: Params): Option<Gate> {
    if Enforced(env) && !CapabilityAllowed(env.identity.value, action) then Some(CapabilityGate)
    else if Enforced(env) && TrimSpace(action) == "DBQuery" && !DBQueryPasses(env, env.identity.value, params) then Some(DBQueryGate)
    else if Enforced(env) && !TrustAllowed(env.identity.value, action) then Some(TrustGate)
    else if Enforced(env) && OverBudget(run.budget, action, env.world.timeUp(|run.invoked|)) then Some(BudgetGate)
    else if env.flags.contractEnforcement && ContractForbidsAction(env.identity, action) then Some(ContractGate)
    else None
  }

  /** Everything between the gates and the invocation. */
  function Wire(env: Env, run: Run, params: Params, last: Params, first: bool): Result<Params, Failure> {
    var injected := if env.flags.memoryRuntime then env.world.inject(|run.invoked|, params) else Some(params);
    match injected
    case None => Err(InjectFailed)
    case Some(p) =>
      match MergePrior(if first then p else MergeStepInput(p, Entry(last, OUTPUT)), last)
      case None => Err(BadConfig)
      case Some(wired) => Ok(wired)
  }

  // ------------------------------------------------- invocations and retries

  function Attempt(env: Env, run: Run, action: string, params: Params): (ActionResult, Run) {
    (env.world.execute(|run.invoked|, action, params),
     run.(budget := if Enforced(env) then Charge(run.budget, action) else run.budget,
          invoked := run.invoked + [Invocation(action, params)]))
  }

  /** executeWithRetryBudget: a budget denial here is an action failure, not a gate stop. */
  function RetryAttempts(env: Env, run: Run, action: string, params: Params, left: int): (ActionResult, Run)
    decreases left
  {
    if left <= 0 || (Enforced(env) && OverBudget(run.budget, action, env.world.timeUp(|run.invoked|))) then (Errored, run)
    else
      var (result, run') := Attempt(env, run, action, params);
      if result.Succeeded? then (result, run') else RetryAttempts(env, run', action, params, left - 1)
  }

  /** The first attempt and, if it fails, the retries. */
  function Perform(env: Env, run: Run, step: Step, action: string, params: Params): (ActionResult, Run) {
    var (result, run') := Attempt(env, run, action, params);
    if result.Errored? && step.retry.Retry? then RetryAttempts(env, run', action, params, step.retry.maxRetries)
    else (result, run')
  }

  // ------------------------------------------------------------- whole steps

  /** Which params a step's action runs with, or why it does not run at all. */
  function Admit(env: Env, step: Step, last: Params, first: bool, run: Run): Result<Params, Failure> {
    if step.action.None? then Err(MissingAction)
    else
      var params := Decorate(env, step.params);
      match GateFor(env, run, step.action.value, params)
      case Some(gate) => Err(GateDenied(gate))
      case None =>
        match Wire(env, run, params, last, first)
        case Err(failure) => Err(failure)
        case Ok(wired) => if step.action.value !in env.world.registered then Err(UnknownAction) else Ok(wired)
  }

  function TerminalPayload(last: Params): Json {
    if OUTPUT in last then last[OUTPUT] else Obj(map[])
  }

  function Log(run: Run, event: Event): Run {
    run.(trace := run.trace + [event])
  }

  /** Fallback lists are properly inside the list of steps that carries them, so the
      recursion below ends. */
  lemma FallbackIsSmaller(steps: seq<Step>)
    requires steps != [] && steps[0].fallback.FallbackSteps?
    ensures steps decreases to steps[0].fallback.steps
  {
    var step := steps[0];
    assert steps decreases to step;
    assert step decreases to step.fallback;
    assert step.fallback decreases to step.fallback.steps;
  }

  /** Where the group stands after its next step: it is over, or these steps remain. */
  datatype Move =
    | Stop(outcome: Result<Json, Failure>, run: Run)
    | Go(steps: seq<Step>, last: Params, first: bool, run: Run)

  /** One step: a refused step stops the group; a failed one is skipped, replaced by its
      fallback list, or turned into an error, as the failure policy says. */
  function Advance(env: Env, steps: seq<Step>, last: Params, first: bool, run: Run): (move: Move)
    requires steps != []
    ensures move.Go? ==> (steps decreases to move.steps)
  {
    match Admit(env, steps[0], last, first, run)
    case Err(failure) => Stop(Err(failure), run)
    case Ok(params) =>
      var (result, run') := Perform(env, run, steps[0], steps[0].action.value, params);
      match result
      case Succeeded(envelope) =>
        if env.flags.memoryRuntime && !env.world.persisted(|run'.invoked|, params, envelope) then Stop(Err(PersistFailed), run')
        else Go(steps[1..], envelope, false, Log(run', Completed(envelope)))
      case Errored =>
        if steps[0].retry.MalformedRetry? then Stop(Err(BadRetry), run')
        else if EffectiveFailurePolicy(env.identity).Continue? then Go(steps[1..], last, false, Log(run', Skipped))
        else if steps[0].fallback.FallbackSteps? then
          FallbackIsSmaller(steps);
          Go(steps[0].fallback.steps, map[], true, Log(run', FellBack))
        else Stop(Err(ActionFailed), run')
  }

  /** The meaning of a list of steps: advance until the group is over. */
  function ExecuteSteps(env: Env, steps: seq<Step>, last: Params, first: bool, run: Run): GroupResult
    decreases steps
  {
    if steps == [] then (Ok(TerminalPayload(last)), run)
    else
      match Advance(env, steps, last, first, run)
      case Stop(outcome, end) => (outcome, end)
      case Go(steps', last', first', run') => ExecuteSteps(env, steps', last', first', run')
  }

  /** executeJobGroup: a fresh budget per group. */
  function ExecuteGroup(env: Env, steps: seq<Step>): GroupResult {
    var unlimited := Run(Budget(0, 0.0, false, 0, 0), [], []);
    if !Enforced(env) then ExecuteSteps(env, steps, map[], true, unlimited)
    else
      match NewBudget(env.identity.value)
      case None => (Err(BadTimeBudget), unlimited)
      case Some(budget) => ExecuteSteps(env, steps, map[], true, Run(budget, [], []))
  }
}
