/** What it takes to have an action invoked, spelled out in the identity's own tokens. */
module JobGroupGates {
  import opened Wrappers
  import opened Text
  import opened Json
  import opened Identities
  import opened IdentityTokens
  import opened StepParams
  import opened JobGroup
  import opened JobGroupProperties

  /** Which identities may have an action invoked; an unknown action nobody. */
  predicate Entitled(identity: AgentIdentity, action: string) {
    match TrimSpace(action)
    case "RunCommand" => Trusted(identity) && Holds(identity, {"all", "command_execution", "run_command"})
    case "DBQuery" => Trusted(identity) && Holds(identity, {"all", "db_read"})
    case "PluginExecution" => Trusted(identity) && Holds(identity, {"all", "plugin_execution", "call_plugin"})
    case "AgentToolLoop" => Trusted(identity) && Holds(identity, {"all", "tool_execution"})
    case "AIInteraction" => Holds(identity, {"all", "ai_reasoning", "ai_interaction"})
    case "CreateEvent" => Holds(identity, {"all", "emit_event", "create_event"})
    case "APIRequest" => Holds(identity, {"all", "api_request"})
    case "Decision" => true
    case _ => false
  }

  /** The contract forbids the action by name, or delegation when it is a decision. */
  predicate Forbidden(contract: Option<AgentContract>, action: string) {
    contract.Some? &&
    exists i :: 0 <= i < |contract.value.forbiddenActions| &&
      (Folded(contract.value.forbiddenActions[i]) == Folded(action)
       || (Folded(action) == "decision" && Folded(contract.value.forbiddenActions[i]) in {"delegate", "delegation"}))
  }

  lemma EntitledIff(identity: AgentIdentity, action: string)
    ensures CapabilityAllowed(identity, action) && TrustAllowed(identity, action) <==> Entitled(identity, action)
  {
    hide TrimSpace, ToLower;
    CapabilityIff(identity, action);
    TrustIff(identity);
  }

  lemma CapabilityIff(identity: AgentIdentity, action: string)
    ensures CapabilityAllowed(identity, action) <==>
      match TrimSpace(action)
      case "RunCommand" => Holds(identity, {"all", "command_execution", "run_command"})
      case "DBQuery" => Holds(identity, {"all", "db_read"})
      case "PluginExecution" => Holds(identity, {"all", "plugin_execution", "call_plugin"})
      case "AgentToolLoop" => Holds(identity, {"all", "tool_execution"})
      case "AIInteraction" => Holds(identity, {"all", "ai_reasoning", "ai_interaction"})
      case "CreateEvent" => Holds(identity, {"all", "emit_event", "create_event"})
      case "APIRequest" => Holds(identity, {"all", "api_request"})
      case "Decision" => true
      case _ => false
  {
    hide TrimSpace, ToLower, Covers, Holds;
    var required := RequiredCapability(action);
    if required.Some? && required.value != "" {
      CoversIff(identity, required.value);
    }
  }

  /** Which tokens cover a capability: its own, `all`, and the older names of four of them. */
  lemma CoversIff(identity: AgentIdentity, required: string)
    ensures (exists i :: 0 <= i < |identity.capabilities| && Covers(identity.capabilities[i], required))
            <==> Holds(identity, CoveringTokens(required))
  {
    hide TrimSpace, ToLower;
  }

  function CoveringTokens(required: string): set<string> {
    match required
    case "command_execution" => {"all", "command_execution", "run_command"}
    case "db_read" => {"all", "db_read"}
    case "plugin_execution" => {"all", "plugin_execution", "call_plugin"}
    case "tool_execution" => {"all", "tool_execution"}
    case "ai_reasoning" => {"all", "ai_reasoning", "ai_interaction"}
    case "emit_event" => {"all", "emit_event", "create_event"}
    case "api_request" => {"all", "api_request"}
    case _ => {"all", required}
  }

  /** Over every group: whatever is invoked under identity enforcement, on any step, retry or
      fallback, the identity is entitled to, and under contract enforcement its contract does not
      forbid it. */
  lemma InvokedIsEntitled(env: Env, steps: seq<Step>)
    ensures var invoked := ExecuteGroup(env, steps).1.invoked;
            forall i | 0 <= i < |invoked| ::
              && (Enforced(env) ==> Entitled(env.identity.value, invoked[i].action))
              && (env.flags.contractEnforcement && env.identity.Some? ==> !Forbidden(env.identity.value.contract, invoked[i].action))
  {
    hide ExecuteGroup, CapabilityAllowed, TrustAllowed, Entitled, Forbidden, ContractForbidsAction;
    GroupIsSound(env, steps);
    var invoked := ExecuteGroup(env, steps).1.invoked;
    forall i | 0 <= i < |invoked|
      ensures Enforced(env) ==> Entitled(env.identity.value, invoked[i].action)
      ensures env.flags.contractEnforcement && env.identity.Some? ==> !Forbidden(env.identity.value.contract, invoked[i].action)
    {
      assert Cleared(env, invoked[i].action);
      if env.identity.Some? {
        EntitledIff(env.identity.value, invoked[i].action);
        ForbiddenIff(env.identity.value, invoked[i].action);
      }
    }
  }

  lemma ForbiddenIff(identity: AgentIdentity, action: string)
    ensures ContractForbidsAction(Some(identity), action) <==> Forbidden(identity.contract, action)
  {
    hide TrimSpace, ToLower;
    if identity.contract.Some? {
      var tokens := identity.contract.value.forbiddenActions;
      assert forall i | 0 <= i < |tokens| :: ForbidsAction(tokens[i], action) <==>
        Folded(tokens[i]) == Folded(action) || (Folded(action) == "decision" && Folded(tokens[i]) in {"delegate", "delegation"});
    }
  }

  /** A step is refused by the first gate that objects, in the order capability, query, trust,
      budget, contract, and by none when the identity is entitled to the action, may run the
      query, has budget left and is not forbidden. */
  lemma GatesInOrder(env: Env, run: Run, action: string, params: Params)
    ensures var gate := GateFor(env, run, action, params);
            && (gate == Some(TrustGate) ==> CapabilityAllowed(env.identity.value, action))
            && (gate == Some(BudgetGate) || gate == Some(ContractGate) ==>
                  Enforced(env) ==> Entitled(env.identity.value, action))
            && (gate == Some(ContractGate) ==>
                  InBudget(env, run, action) && env.identity.Some? && Forbidden(env.identity.value.contract, action))
            && (gate == Some(CapabilityGate) || gate == Some(TrustGate) ==> Enforced(env) && !Entitled(env.identity.value, action))
            && (gate == Some(DBQueryGate) ==>
                  CapabilityAllowed(env.identity.value, action) && TrimSpace(action) == "DBQuery"
                  && !MayRun(env.world.sql, env.identity.value, QueryText(params)))
            && (gate == Some(BudgetGate) ==> Enforced(env) && Exhausted(run.budget, action, env.world.timeUp(|run.invoked|)))
            && (gate.None? ==>
                  && (Enforced(env) ==>
                        && Entitled(env.identity.value, action)
                        && !Exhausted(run.budget, action, env.world.timeUp(|run.invoked|))
                        && (TrimSpace(action) == "DBQuery" ==>
                              Blank(QueryText(params)) || MayRun(env.world.sql, env.identity.value, QueryText(params))))
                  && (env.flags.contractEnforcement && env.identity.Some? ==> !Forbidden(env.identity.value.contract, action)))
  {
    hide CapabilityAllowed, TrustAllowed, Entitled, Forbidden, ContractForbidsAction, OverBudget, Exhausted, DBQueryAllowed, MayRun,
      TrimSpace;
    if env.identity.Some? {
      EntitledIff(env.identity.value, action);
      ForbiddenIff(env.identity.value, action);
      QueryIff(env.world.sql, env.identity.value, QueryText(params));
    } else {
      NoIdentityForbidsNothing(action);
    }
    ExhaustedIff(run.budget, action, env.world.timeUp(|run.invoked|));
  }

  lemma NoIdentityForbidsNothing(action: string)
    ensures !ContractForbidsAction(None, action)
  {
  }

  /** Time, steps or the rate of created events is used up; a limit of zero or less is none. */
  predicate Exhausted(b: Budget, action: string, timeUp: bool) {
    || (b.hasTimeBudget && timeUp)
    || (b.maxSteps > 0 && b.executedSteps >= b.maxSteps)
    || (b.eventRateLimit > 0.0 && ToLower(action) == "createevent" && b.eventsCreated as real >= b.eventRateLimit)
  }

  lemma ExhaustedIff(b: Budget, action: string, timeUp: bool)
    ensures OverBudget(b, action, timeUp) <==> Exhausted(b, action, timeUp)
  {
    hide ToLower, Ceil;
    CreateEventLowered();
    CeilIsLeast(b.eventRateLimit, b.eventsCreated);
  }

  lemma CreateEventLowered()
    ensures ToLower("CreateEvent") == "createevent"
  {
    hide ToLower;
    LowersTo("CreateEvent", "createevent");
  }

  lemma LowersTo(s: string, t: string)
    requires |s| == |t| && forall i | 0 <= i < |s| :: LowerChar(s[i]) == t[i]
    ensures ToLower(s) == t
  {
    hide ToLower, LowerChar;
  }

  lemma CeilIsLeast(r: real, n: int)
    ensures n >= Ceil(r) <==> n as real >= r
  {
  }

  /** Who may run a query: `all` anything the classifier does not reject; otherwise a read takes
      db_read or db_query, a write db_write or db_query, and a rejected text only counts with its
      placeholders out, as a read if that is one and as a write if it is anything else. */
  predicate MayRun(oracle: SqlOracle, identity: AgentIdentity, sql: string) {
    if Holds(identity, {"all"}) then !oracle.classify(sql).SqlRejected?
    else if ReadsOnly(oracle, sql) then Holds(identity, {"db_read", "db_query"})
    else (oracle.classify(sql).SqlWrite? || oracle.withoutPlaceholders(sql).Some?) && Holds(identity, {"db_write", "db_query"})
  }

  lemma QueryIff(oracle: SqlOracle, identity: AgentIdentity, sql: string)
    ensures DBQueryAllowed(oracle, identity, sql) <==> MayRun(oracle, identity, sql)
  {
    hide TrimSpace, ToLower, Holds, HasCapability;
    HoldsOne(identity, "all");
    HoldsEither(identity, "db_read", "db_query");
    HoldsEither(identity, "db_write", "db_query");
  }

  lemma HoldsOne(identity: AgentIdentity, token: string)
    ensures HasCapability(identity, token) <==> Holds(identity, {token})
  {
    hide TrimSpace, ToLower;
  }

  lemma HoldsEither(identity: AgentIdentity, a: string, b: string)
    ensures Holds(identity, {a, b}) <==> HasCapability(identity, a) || HasCapability(identity, b)
  {
    hide TrimSpace, ToLower;
  }

  /** A group's budget is fresh and has the limits of its identity's constraints. */
  lemma BudgetReadsConstraints(identity: AgentIdentity)
    ensures identity.constraints.None? ==> NewBudget(identity) == Some(Budget(0, 0.0, false, 0, 0))
    ensures identity.constraints.Some? ==>
      var c := identity.constraints.value;
      match c.timeBudget
      case UnparsableTimeBudget => NewBudget(identity).None?
      case NoTimeBudget => NewBudget(identity) == Some(Budget(c.maxSteps, c.eventRateLimit, false, 0, 0))
      case TimeBudgetSet => NewBudget(identity) == Some(Budget(c.maxSteps, c.eventRateLimit, true, 0, 0))
  {
  }
}
