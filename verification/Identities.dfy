/** Agent identities and the checks every enforcement point shares
    (pkg/agent/setup.go, pkg/agent/execution_runtime.go, pkg/agent/governance.go). */
module Identities {
  import opened Wrappers
  import opened Text

  datatype AgentContract = AgentContract(forbiddenActions: seq<string>, failurePolicy: string)

  datatype TimeBudget = NoTimeBudget | TimeBudgetSet | UnparsableTimeBudget

  /** Non-positive `maxSteps` and `eventRateLimit` mean "not set". */
  datatype AgentConstraints = AgentConstraints(maxSteps: int, eventRateLimit: real, timeBudget: TimeBudget)

  datatype AgentIdentity = AgentIdentity(
    agentID: string,
    trustLevel: string,
    capabilities: seq<string>,
    contract: Option<AgentContract>,
    constraints: Option<AgentConstraints>)

  function Normalize(token: string): string {
    ToLower(TrimSpace(token))
  }

  function TrustLevelRank(level: string): int {
    var normalized := Normalize(level);
    if normalized in {"system", "privileged", "high", "internal"} then 3
    else if normalized in {"trusted", "medium"} then 2
    else 1
  }

  // ------------------------------------------------ gates on job-step actions

  /** actionCapability: the capability an action needs; "" for pure control flow, absent for
      unknown actions, which are never implicitly authorised. */
  function RequiredCapability(actionName: string): Option<string> {
    match TrimSpace(actionName)
    case "RunCommand" => Some("command_execution")
    case "DBQuery" => Some("db_read")
    case "AIInteraction" => Some("ai_reasoning")
    case "PluginExecution" => Some("plugin_execution")
    case "CreateEvent" => Some("emit_event")
    case "APIRequest" => Some("api_request")
    case "AgentToolLoop" => Some("tool_execution")
    case "Decision" => Some("")
    case _ => None
  }

  predicate Covers(capability: string, required: string) {
    var normalized := Normalize(capability);
    || normalized == "all"
    || normalized == required
    || (required == "ai_reasoning" && normalized == "ai_interaction")
    || (required == "command_execution" && normalized == "run_command")
    || (required == "emit_event" && normalized == "create_event")
    || (required == "plugin_execution" && normalized == "call_plugin")
  }

  predicate CapabilityAllowed(identity: AgentIdentity, actionName: string) {
    var required := RequiredCapability(actionName);
    required.Some? &&
    (required.value == "" ||
     exists i | 0 <= i < |identity.capabilities| :: Covers(identity.capabilities[i], required.value))
  }

  function MinTrustRankForAction(actionName: string): int {
    if TrimSpace(actionName) in {"RunCommand", "DBQuery", "PluginExecution", "AgentToolLoop"} then 2 else 1
  }

  predicate TrustAllowed(identity: AgentIdentity, actionName: string) {
    TrustLevelRank(identity.trustLevel) >= MinTrustRankForAction(actionName)
  }

  predicate ForbidsAction(token: string, actionName: string) {
    || Normalize(token) == Normalize(actionName)
    || (Normalize(token) in {"delegate", "delegation"} && Normalize(actionName) == "decision")
  }

  predicate ContractForbidsAction(identity: Option<AgentIdentity>, actionName: string) {
    identity.Some? && identity.value.contract.Some? &&
    var tokens := identity.value.contract.value.forbiddenActions;
    exists i | 0 <= i < |tokens| :: ForbidsAction(tokens[i], actionName)
  }

  datatype FailurePolicy = Abort | Fallback | Continue

  function EffectiveFailurePolicy(identity: Option<AgentIdentity>): FailurePolicy {
    if identity.None? || identity.value.contract.None? then Abort
    else
      match Normalize(identity.value.contract.value.failurePolicy)
      case "continue" => Continue
      case "fallback" => Fallback
      case _ => Abort
  }

  // -------------------------------------------------- the DBQuery capability

  datatype SqlClass = SqlRead | SqlWrite | SqlRejected

  /** The classifier, and the text of a templated statement with its placeholders replaced
      by NULL (absent when it has none). */
  datatype SqlOracle = SqlOracle(classify: string -> SqlClass, withoutPlaceholders: string -> Option<string>)

  /** dbQueryCapabilityRequired */
  function SqlCapability(oracle: SqlOracle, sql: string): Option<string> {
    match oracle.classify(sql)
    case SqlRead => Some("db_read")
    case SqlWrite => Some("db_write")
    case SqlRejected =>
      match oracle.withoutPlaceholders(sql)
      case None => None
      case Some(shape) => Some(if oracle.classify(shape) == SqlRead then "db_read" else "db_write")
  }

  predicate HasCapability(identity: AgentIdentity, capability: string) {
    exists i | 0 <= i < |identity.capabilities| :: Normalize(identity.capabilities[i]) == capability
  }

  /** dbQueryAllowed: `all` still never masks a rejection. */
  predicate DBQueryAllowed(oracle: SqlOracle, identity: AgentIdentity, sql: string) {
    if HasCapability(identity, "all") then oracle.classify(sql) != SqlRejected
    else
      var required := SqlCapability(oracle, sql);
      required.Some? && (HasCapability(identity, required.value) || HasCapability(identity, "db_query"))
  }
}
