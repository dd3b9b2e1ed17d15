/** The bounded model/tool loop (pkg/agent/tool_loop.go), run against an arbitrary provider,
    arbitrary tool handlers and arbitrary deadlines. */
module ToolLoop {
  import opened Wrappers
  import opened Text
  import opened Json
  import opened Identities
  import opened ToolPolicy

  // -------------------------------------------------------------- the data

  const HARD_MAX_MODEL_ROUNDS := 4
  const HARD_MAX_TOOL_CALLS := 8
  const HARD_MAX_RESULT_BYTES := 16384
  const HARD_MAX_TOTAL_RESULT_BYTES := 65536
  const HARD_LOOP_TIMEOUT_SECONDS := 30
  const MAX_CONSECUTIVE_DENIALS := 3

  datatype Limits = Limits(maxModelRounds: int, maxToolCalls: int, maxResultBytes: int, maxTotalResultBytes: int, timeout: int)

  /** ValidateLimits reports no error. */
  predicate ValidLimits(l: Limits) {
    && 1 <= l.maxModelRounds <= HARD_MAX_MODEL_ROUNDS
    && 1 <= l.maxToolCalls <= HARD_MAX_TOOL_CALLS
    && 1 <= l.maxResultBytes <= HARD_MAX_RESULT_BYTES
    && 1 <= l.maxTotalResultBytes <= HARD_MAX_TOTAL_RESULT_BYTES
    && 1 <= l.timeout <= HARD_LOOP_TIMEOUT_SECONDS
  }

  datatype ToolCall = ToolCall(name: string, id: string, index: int, arguments: map<string, Json>)

  datatype EchoedCall = EchoedCall(id: string, name: string, arguments: map<string, Json>)

  datatype Message =
    | Initial(text: string)
    | Echo(content: string, calls: seq<EchoedCall>)
    | ToolReply(callID: string, body: string)

  datatype CallStatus = Executed | Failed | Denied(code: DenyCode)

  datatype Summary = Summary(name: string, id: string, index: int, status: CallStatus, resultBytes: nat)

  datatype Invocation = Invocation(name: string, arguments: map<string, Json>)

  datatype ProviderReply =
    | CallFailed(deadlinePassed: bool)
    | Malformed
    | Reply(content: string, calls: seq<ToolCall>)

  /** A handler's serialised outcome; `Unserializable` is a result JSON cannot encode. */
  datatype HandlerReply = Returned(body: string) | HandlerError(body: string) | Unserializable

  /** Everything the loop does not control. The provider may react to the round and to the
      whole request; clocks and handlers may react to where in the run they are asked. */
  datatype World = World(
    provider: (nat, seq<Message>) -> ProviderReply,
    roundExpired: nat -> bool,
    callExpired: (nat, nat) -> bool,
    handler: (nat, nat, Invocation) -> HandlerReply,
    validator: Validator)

  datatype Config = Config(
    hasProvider: bool,
    initial: seq<Message>,
    registry: map<string, Tool>,
    allowlist: seq<string>,
    identity: AgentIdentity,
    enforcement: bool,
    limits: Limits,
    stopOnToolError: bool,
    runID: string,
    freshID: string,
    groupDeadlinePassed: bool,
    contextExpired: bool)

  datatype Ending =
    | FinalResponse(content: string)
    | NoProvider | NoRegistry | NoAllowlist | BadLimits | UnknownAllowlisted
    | GroupDeadlinePassed | RunContextExpired
    | RoundsExhausted | LoopDeadlinePassed | ProviderFailed | MalformedReply
    | DuplicateCallID | RepeatedDenials | OutputExhausted | ToolFailed

  /** toolLoopState, followed by what the run has done to the outside world: the requests
      sent to the provider and the handlers invoked. */
  datatype LoopState = LoopState(
    messages: seq<Message>,
    summaries: seq<Summary>,
    toolCalls: nat,
    totalResultBytes: nat,
    consecutiveDenials: nat,
    seenIDs: set<string>,
    requests: seq<seq<Message>>,
    invocations: seq<Invocation>)

  datatype Outcome = Outcome(ending: Ending, state: LoopState)

  /** State after one step, and the ending when the run must stop there. */
  datatype StepResult = StepResult(state: LoopState, stop: Option<Ending>)

  // ------------------------------------------------- correlation identifiers

  /** "local-r%d-c%d" */
  function LocalID(round: nat, position: nat): string {
    "local-r" + Itoa(round) + "-c" + Itoa(position)
  }

  function EffectiveID(call: ToolCall, round: nat, position: nat): string {
    if Blank(call.id) then LocalID(round, position) else TrimSpace(call.id)
  }

  function EffectiveIDs(calls: seq<ToolCall>, round: nat): (ids: seq<string>)
    ensures |ids| == |calls|
  {
    seq(|calls|, i requires 0 <= i < |calls| => EffectiveID(calls[i], round, i))
  }

  predicate Distinct<T(==)>(s: seq<T>) {
    forall i, j | 0 <= i < j < |s| :: s[i] != s[j]
  }

  predicate Fresh(ids: seq<string>, seen: set<string>) {
    Distinct(ids) && forall i | 0 <= i < |ids| :: ids[i] !in seen
  }

  // ------------------------------------------------------- one proposed call

  /** json.Marshal of {"error": "result_too_large", "truncated": true} */
  const TRUNCATED := "{\"error\":\"result_too_large\",\"truncated\":true}"

  function CodeText(code: DenyCode): string {
    match code
    case NoOptIn => "no_tool_loop_opt_in"
    case NoIdentity => "missing_identity"
    case EnforcementOff => "identity_enforcement_required"
    case UnknownTool => "unknown_tool"
    case NotAllowlisted => "not_allowlisted"
    case MissingCapability => "missing_capability"
    case InsufficientTrust => "insufficient_trust"
    case ForbiddenByContract => "forbidden_by_contract"
    case InvalidArguments => "invalid_arguments"
    case BudgetExhausted => "budget_exhausted"
    case ContextExpired => "context_expired"
  }

  function DeniedBody(code: DenyCode): string {
    "{\"error\":\"denied: " + CodeText(code) + "\"}"
  }

  function AllowSet(names: seq<string>): set<string> {
    set i | 0 <= i < |names| && !Blank(names[i]) :: TrimSpace(names[i])
  }

  /** A blank run id is replaced by a fresh UUID before anything else. */
  function RunID(config: Config): string {
    if Blank(config.runID) then config.freshID else config.runID
  }

  function AuthOf(config: Config): AuthContext {
    AuthContext(RunID(config), config.identity, config.enforcement, AllowSet(config.allowlist))
  }

  /** AgentToolRegistry.Get */
  function Lookup(registry: map<string, Tool>, name: string): Option<Tool> {
    if TrimSpace(name) in registry then Some(registry[TrimSpace(name)]) else None
  }

  /** The gates before a handler, in order; arguments are objects by type, so the source's
      re-normalisation of them cannot fail. */
  function DenialFor(config: Config, world: World, s: LoopState, call: ToolCall, round: nat, position: nat): Option<DenyCode> {
    if Lookup(config.registry, call.name).None? then Some(UnknownTool)
    else if s.toolCalls + 1 > config.limits.maxToolCalls then Some(BudgetExhausted)
    else
      match AuthorizeToolCall(world.validator, AuthOf(config), Lookup(config.registry, call.name).value, call.arguments)
      case Some(code) => Some(code)
      case None => if world.callExpired(round, position) then Some(ContextExpired) else None
  }

  /** The observation recorded for a handler's reply, with oversized results replaced. */
  function Observe(limits: Limits, reply: HandlerReply): (CallStatus, string) {
    match reply
    case Returned(body) => if |body| > limits.maxResultBytes then (Failed, TRUNCATED) else (Executed, body)
    case HandlerError(body) => (Failed, if |body| > limits.maxResultBytes then TRUNCATED else body)
    case Unserializable => (Failed, TRUNCATED)
  }

  function Deny(s: LoopState, call: ToolCall, id: string, code: DenyCode): StepResult {
    var s' := s.(
      consecutiveDenials := s.consecutiveDenials + 1,
      summaries := s.summaries + [Summary(call.name, id, call.index, Denied(code), 0)],
      messages := s.messages + [ToolReply(id, DeniedBody(code))]);
    StepResult(s', if s'.consecutiveDenials >= MAX_CONSECUTIVE_DENIALS then Some(RepeatedDenials) else None)
  }

  function Invoke(config: Config, s: LoopState, call: ToolCall, id: string, reply: HandlerReply): StepResult {
    var (status, body) := Observe(config.limits, reply);
    var s' := s.(
      consecutiveDenials := 0,
      invocations := s.invocations + [Invocation(call.name, call.arguments)],
      totalResultBytes := s.totalResultBytes + |body|);
    if s'.totalResultBytes > config.limits.maxTotalResultBytes then StepResult(s', Some(OutputExhausted))
    else
      StepResult(
        s'.(toolCalls := s.toolCalls + 1,
            messages := s.messages + [ToolReply(id, body)],
            summaries := s.summaries + [Summary(call.name, id, call.index, status, |body|)]),
        if status == Failed && config.stopOnToolError then Some(ToolFailed) else None)
  }

  /** processToolCall */
  function ProcessToolCall(config: Config, world: World, s: LoopState, call: ToolCall, id: string,
                           round: nat, position: nat): StepResult {
    match DenialFor(config, world, s, call, round, position)
    case Some(code) => Deny(s, call, id, code)
    case None => Invoke(config, s, call, id, world.handler(round, position, Invocation(call.name, call.arguments)))
  }

  /** The calls of one reply, from `position` on, in provider order. */
  function ProcessFrom(config: Config, world: World, s: LoopState, calls: seq<ToolCall>, ids: seq<string>,
                       round: nat, position: nat): StepResult
    requires |ids| == |calls| && position <= |calls|
    decreases |calls| - position
  {
    if position == |calls| then StepResult(s, None)
    else
      var step := ProcessToolCall(config, world, s, calls[position], ids[position], round, position);
      if step.stop.Some? then step
      else ProcessFrom(config, world, step.state, calls, ids, round, position + 1)
  }

  // ------------------------------------------------------------ whole rounds

  function EchoOf(content: string, calls: seq<ToolCall>, ids: seq<string>): Message
    requires |ids| == |calls|
  {
    Echo(content, seq(|calls|, i requires 0 <= i < |calls| => EchoedCall(ids[i], calls[i].name, calls[i].arguments)))
  }

  function OpenRound(s: LoopState, content: string, calls: seq<ToolCall>, ids: seq<string>): LoopState
    requires |ids| == |calls|
  {
    s.(seenIDs := s.seenIDs + (set id | id in ids),
       messages := s.messages + [EchoOf(content, calls, ids)])
  }

  function Rounds(config: Config, world: World, s: LoopState, round: nat): Outcome
    decreases config.limits.maxModelRounds - round + 1
  {
    if round > config.limits.maxModelRounds then Outcome(RoundsExhausted, s)
    else if world.roundExpired(round) then Outcome(LoopDeadlinePassed, s)
    else
      var asked := s.(requests := s.requests + [s.messages]);
      match world.provider(round, s.messages)
      case CallFailed(deadlinePassed) => Outcome(if deadlinePassed then LoopDeadlinePassed else ProviderFailed, asked)
      case Malformed => Outcome(MalformedReply, asked)
      case Reply(content, calls) =>
        if calls == [] then Outcome(if content == "" then MalformedReply else FinalResponse(content), asked)
        else
          var ids := EffectiveIDs(calls, round);
          if !Fresh(ids, s.seenIDs) then Outcome(DuplicateCallID, asked)
          else
            var step := ProcessFrom(config, world, OpenRound(asked, content, calls, ids), calls, ids, round, 0);
            if step.stop.Some? then Outcome(step.stop.value, step.state)
            else Rounds(config, world, step.state, round + 1)
  }

  function StartState(config: Config): LoopState {
    LoopState(config.initial, [], 0, 0, 0, {}, [], [])
  }

  /** The checks before the first round; nothing has happened when one of them objects. */
  function Objection(config: Config): Option<Ending> {
    if !config.hasProvider then Some(NoProvider)
    else if config.registry == map[] then Some(NoRegistry)
    else if config.allowlist == [] then Some(NoAllowlist)
    else if !ValidLimits(config.limits) then Some(BadLimits)
    else if AllowSet(config.allowlist) == {} then Some(NoAllowlist)
    else if exists name | name in AllowSet(config.allowlist) :: Lookup(config.registry, name).None? then Some(UnknownAllowlisted)
    else if config.groupDeadlinePassed then Some(GroupDeadlinePassed)
    else if config.contextExpired then Some(RunContextExpired)
    else None
  }

  /** RunToolLoop */
  function RunToolLoop(config: Config, world: World): Outcome {
    match Objection(config)
    case Some(ending) => Outcome(ending, StartState(config))
    case None => Rounds(config, world, StartState(config), 1)
  }
}
