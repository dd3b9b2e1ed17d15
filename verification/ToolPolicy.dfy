/** The authorisation boundary of model-proposed tool calls (pkg/agent/tool_policy.go). */
module ToolPolicy {
  import opened Wrappers
  import opened Text
  import opened Json
  import opened Identities
  import RefExpansion

  const MIN_TOOL_TRUST_RANK := 2
  const MAX_TOOL_ARGS_BYTES := 4096

  datatype DenyCode =
    | NoOptIn
    | NoIdentity
    | EnforcementOff
    | UnknownTool
    | NotAllowlisted
    | MissingCapability
    | InsufficientTrust
    | ForbiddenByContract
    | InvalidArguments
    | BudgetExhausted
    | ContextExpired

  datatype Tool = Tool(name: string, requiredCapabilities: seq<string>, schema: map<string, Json>)

  datatype AuthContext = AuthContext(runID: string, identity: AgentIdentity, enforcement: bool, allowlist: set<string>)

  /** Unseen libraries: the JSON encoder's output size and the instance validator, which
      sees the schema after its references were expanded. */
  datatype Validator = Validator(
    encodedSize: map<string, Json> -> nat,
    accepts: (map<string, Json>, map<string, Json>) -> bool)

  /** The `all` wildcard counts for capabilities only, never for the allowlist. */
  predicate IdentityGrants(identity: AgentIdentity, required: string) {
    Normalize(required) == "" ||
    exists i | 0 <= i < |identity.capabilities| ::
      Normalize(identity.capabilities[i]) == "all" || Normalize(identity.capabilities[i]) == Normalize(required)
  }

  predicate ForbidsTool(token: string, name: string) {
    var normalized := Normalize(token);
    || normalized == "tools"
    || (HasPrefix(normalized, "tool:") && TrimSpace(TrimPrefix(normalized, "tool:")) == Normalize(name))
  }

  predicate ToolForbiddenByContract(contract: Option<AgentContract>, name: string) {
    contract.Some? &&
    exists i | 0 <= i < |contract.value.forbiddenActions| :: ForbidsTool(contract.value.forbiddenActions[i], name)
  }

  predicate ArgumentsAccepted(v: Validator, tool: Tool, args: map<string, Json>) {
    && v.encodedSize(args) <= MAX_TOOL_ARGS_BYTES
    && HeightAtMost(Obj(args), RefExpansion.MAX_ARGS_DEPTH)
    && tool.schema != map[]
    && RefExpansion.ExpandLocalRefs(tool.schema).Some?
    && v.accepts(RefExpansion.ExpandLocalRefs(tool.schema).value, args)
  }

  /** A container whose first `count` items are in place has height at most `h`. */
  predicate ItemsFit(items: seq<Json>, count: nat, h: int)
    requires count <= |items|
  {
    h >= 0 && forall j | 0 <= j < count :: HeightAtMost(items[j], h - 1)
  }

  predicate FieldsFit(fields: map<string, Json>, done: set<string>, h: int)
    requires done <= fields.Keys
  {
    h >= 0 && forall k | k in done :: HeightAtMost(fields[k], h - 1)
  }

  /** argsDepth: the deepest nesting below `value`, counted from `depth`. Every bound on the
      result is the same bound on the height of the document. */
  method ArgsDepth(value: Json, depth: nat) returns (deepest: nat)
    ensures deepest >= depth
    ensures forall h: int :: deepest - depth <= h <==> HeightAtMost(value, h)
    decreases value
  {
    deepest := depth;
    match value {
      case Obj(fields) =>
        var pending := fields.Keys;
        while pending != {}
          invariant pending <= fields.Keys && deepest >= depth
          invariant forall h: int :: deepest - depth <= h <==> FieldsFit(fields, fields.Keys - pending, h)
          decreases |pending|
        {
          var key :| key in pending;
          var d := ArgsDepth(fields[key], depth + 1);
          forall h: int
            ensures FieldsFit(fields, fields.Keys - (pending - {key}), h) <==> deepest - depth <= h && d - depth <= h
          {
            assert FieldsFit(fields, fields.Keys - (pending - {key}), h) <==>
              FieldsFit(fields, fields.Keys - pending, h) && HeightAtMost(fields[key], h - 1);
          }
          deepest := if d > deepest then d else deepest;
          pending := pending - {key};
        }
        assert forall h: int :: FieldsFit(fields, fields.Keys, h) <==> HeightAtMost(value, h);
        assert fields.Keys - pending == fields.Keys;
      case Arr(items) =>
        for i := 0 to |items|
          invariant deepest >= depth
          invariant forall h: int :: deepest - depth <= h <==> ItemsFit(items, i, h)
        {
          var d := ArgsDepth(items[i], depth + 1);
          ghost var next := i + 1;
          forall h: int
            ensures ItemsFit(items, next, h) <==> deepest - depth <= h && d - depth <= h
          {
            assert ItemsFit(items, next, h) <==> ItemsFit(items, i, h) && HeightAtMost(items[i], h - 1);
          }
          deepest := if d > deepest then d else deepest;
        }
        assert forall h: int :: ItemsFit(items, |items|, h) <==> HeightAtMost(value, h);
      case _ =>
    }
  }

  /** AuthorizeToolCall: the first gate that fails decides the reason code. */
  function AuthorizeToolCall(v: Validator, auth: AuthContext, tool: Tool, args: map<string, Json>): Option<DenyCode> {
    if Blank(auth.runID) then Some(NoOptIn)
    else if Blank(auth.identity.agentID) then Some(NoIdentity)
    else if !auth.enforcement then Some(EnforcementOff)
    else if tool.name !in auth.allowlist then Some(NotAllowlisted)
    else if exists i | 0 <= i < |tool.requiredCapabilities| :: !IdentityGrants(auth.identity, tool.requiredCapabilities[i])
      then Some(MissingCapability)
    else if TrustLevelRank(auth.identity.trustLevel) < MIN_TOOL_TRUST_RANK then Some(InsufficientTrust)
    else if ToolForbiddenByContract(auth.identity.contract, tool.name) then Some(ForbiddenByContract)
    else if !ArgumentsAccepted(v, tool, args) then Some(InvalidArguments)
    else None
  }

  predicate GatePasses(gate: DenyCode, v: Validator, auth: AuthContext, tool: Tool, args: map<string, Json>) {
    match gate
    case NoOptIn => !Blank(auth.runID)
    case NoIdentity => !Blank(auth.identity.agentID)
    case EnforcementOff => auth.enforcement
    case NotAllowlisted => tool.name in auth.allowlist
    case MissingCapability => forall c | c in tool.requiredCapabilities :: IdentityGrants(auth.identity, c)
    case InsufficientTrust => TrustLevelRank(auth.identity.trustLevel) >= MIN_TOOL_TRUST_RANK
    case ForbiddenByContract => !ToolForbiddenByContract(auth.identity.contract, tool.name)
    case InvalidArguments => ArgumentsAccepted(v, tool, args)
    case _ => true
  }

  /** What an authorised call promises its handler: no gate objects. */
  predicate Permitted(v: Validator, auth: AuthContext, tool: Tool, args: map<string, Json>) {
    forall gate: DenyCode :: GatePasses(gate, v, auth, tool, args)
  }

  lemma CapabilityGate(v: Validator, auth: AuthContext, tool: Tool, args: map<string, Json>)
    ensures GatePasses(MissingCapability, v, auth, tool, args) <==>
      !exists i | 0 <= i < |tool.requiredCapabilities| :: !IdentityGrants(auth.identity, tool.requiredCapabilities[i])
  {
  }

  lemma AuthorizedIffPermitted(v: Validator, auth: AuthContext, tool: Tool, args: map<string, Json>)
    ensures AuthorizeToolCall(v, auth, tool, args).None? <==> Permitted(v, auth, tool, args)
  {
    CapabilityGate(v, auth, tool, args);
    hide Blank, IdentityGrants, TrustLevelRank, ToolForbiddenByContract, ArgumentsAccepted;
    if Permitted(v, auth, tool, args) {
      assert GatePasses(NoOptIn, v, auth, tool, args) && GatePasses(NoIdentity, v, auth, tool, args);
      assert GatePasses(EnforcementOff, v, auth, tool, args) && GatePasses(NotAllowlisted, v, auth, tool, args);
      assert GatePasses(MissingCapability, v, auth, tool, args);
      assert GatePasses(InsufficientTrust, v, auth, tool, args) && GatePasses(ForbiddenByContract, v, auth, tool, args);
      assert GatePasses(InvalidArguments, v, auth, tool, args);
    }
  }
}
