/** Every run of the tool loop told in terms of what the provider, the handlers and the clocks
    answered: who was asked what, which calls reached their handlers, and what the provider was
    told they gave. */
module ToolLoopTranscript {
  import opened Wrappers
  import opened Text
  import opened Json
  import opened Identities
  import opened IdentityTokens
  import opened ToolPolicy
  import opened ToolLoop
  import opened ToolLoopProperties
  import opened ToolLoopHistory
  import RefExpansion

  // ------------------------------------------------------------- the gates

  /** The order in which the gates of a call are asked. */
  function Turn(gate: DenyCode): nat {
    match gate
    case UnknownTool => 0
    case BudgetExhausted => 1
    case NoOptIn => 2
    case NoIdentity => 3
    case EnforcementOff => 4
    case NotAllowlisted => 5
    case MissingCapability => 6
    case InsufficientTrust => 7
    case ForbiddenByContract => 8
    case InvalidArguments => 9
    case ContextExpired => 10
  }

  /** A contract token against this tool: all tools, or "tool:" and its name. */
  predicate Bans(token: string, name: string) {
    Folded(token) == "tools" || ("tool:" <= Folded(token) && TrimSpace(Folded(token)[5..]) == Folded(name))
  }

  predicate Fits(v: Validator, tool: Tool, args: map<string, Json>) {
    && v.encodedSize(args) <= 4096 && HeightAtMost(Obj(args), 16) && tool.schema != map[]
    && var schema := RefExpansion.ExpandLocalRefs(tool.schema);
       schema.Some? && v.accepts(schema.value, args)
  }

  /** What a gate asks of a call, `handled` calls having reached their handlers before it. */
  predicate Passes(gate: DenyCode, config: Config, world: World, call: ToolCall, round: nat, position: nat, handled: nat) {
    if gate == UnknownTool then TrimSpace(call.name) in config.registry
    else if gate == BudgetExhausted then handled < config.limits.maxToolCalls
    else if gate == ContextExpired then !world.callExpired(round, position)
    else TrimSpace(call.name) in config.registry && ToolPasses(gate, config, world, config.registry[TrimSpace(call.name)], call.arguments)
  }

  predicate ToolPasses(gate: DenyCode, config: Config, world: World, tool: Tool, args: map<string, Json>) {
    match gate
    case NoOptIn => TrimSpace(config.runID) != "" || TrimSpace(config.freshID) != ""
    case NoIdentity => TrimSpace(config.identity.agentID) != ""
    case EnforcementOff => config.enforcement
    case NotAllowlisted => tool.name != "" && exists i :: 0 <= i < |config.allowlist| && TrimSpace(config.allowlist[i]) == tool.name
    case MissingCapability =>
      forall c | c in tool.requiredCapabilities :: Folded(c) == "" || Holds(config.identity, {"all", Folded(c)})
    case InsufficientTrust => Trusted(config.identity)
    case ForbiddenByContract =>
      config.identity.contract.Some? ==>
        forall token | token in config.identity.contract.value.forbiddenActions :: !Bans(token, tool.name)
    case InvalidArguments => Fits(world.validator, tool, args)
    case _ => true
  }

  ghost predicate LetThrough(config: Config, world: World, call: ToolCall, round: nat, position: nat, handled: nat) {
    forall gate: DenyCode :: Passes(gate, config, world, call, round, position, handled)
  }

  /** The first gate that objects. */
  ghost predicate DeniedAt(config: Config, world: World, call: ToolCall, round: nat, position: nat, handled: nat, code: DenyCode) {
    && !Passes(code, config, world, call, round, position, handled)
    && forall gate: DenyCode | Turn(gate) < Turn(code) :: Passes(gate, config, world, call, round, position, handled)
  }

  /** AuthorizeToolCall, gate by gate. */
  lemma ToolGates(config: Config, world: World, tool: Tool, args: map<string, Json>)
    ensures var verdict := AuthorizeToolCall(world.validator, AuthOf(config), tool, args);
            match verdict
            case None => forall gate: DenyCode :: ToolPasses(gate, config, world, tool, args)
            case Some(code) =>
              && 2 <= Turn(code) <= 9 && !ToolPasses(code, config, world, tool, args)
              && forall gate: DenyCode | Turn(gate) < Turn(code) :: ToolPasses(gate, config, world, tool, args)
  {
    CapabilityGateIff(config, world, tool, args);
    TrustIff(config.identity);
    ContractGateIff(config, world, tool, args);
    AllowedIff(config, tool.name);
    hide TrimSpace, ToLower, Holds, Trusted, TrustLevelRank, IdentityGrants, ToolForbiddenByContract, AllowSet, Bans, Folded;
  }

  lemma CapabilityGateIff(config: Config, world: World, tool: Tool, args: map<string, Json>)
    ensures ToolPasses(MissingCapability, config, world, tool, args) <==>
      !exists i | 0 <= i < |tool.requiredCapabilities| :: !IdentityGrants(config.identity, tool.requiredCapabilities[i])
  {
    hide TrimSpace, ToLower;
    forall i | 0 <= i < |tool.requiredCapabilities|
      ensures var c := tool.requiredCapabilities[i];
              IdentityGrants(config.identity, c) <==> Folded(c) == "" || Holds(config.identity, {"all", Folded(c)})
    {
    }
  }

  lemma ContractGateIff(config: Config, world: World, tool: Tool, args: map<string, Json>)
    ensures ToolPasses(ForbiddenByContract, config, world, tool, args) <==>
      !ToolForbiddenByContract(config.identity.contract, tool.name)
  {
    hide TrimSpace, ToLower;
    if config.identity.contract.Some? {
      var tokens := config.identity.contract.value.forbiddenActions;
      forall i | 0 <= i < |tokens| ensures ForbidsTool(tokens[i], tool.name) <==> Bans(tokens[i], tool.name) {
      }
    }
  }

  lemma AllowedIff(config: Config, name: string)
    ensures name in AllowSet(config.allowlist) <==>
      name != "" && exists i :: 0 <= i < |config.allowlist| && TrimSpace(config.allowlist[i]) == name
  {
    hide TrimSpace;
  }

  lemma GatesTold(config: Config, world: World, s: LoopState, call: ToolCall, round: nat, position: nat)
    ensures match DenialFor(config, world, s, call, round, position)
            case None => LetThrough(config, world, call, round, position, s.toolCalls)
            case Some(code) => DeniedAt(config, world, call, round, position, s.toolCalls, code)
  {
    hide AuthorizeToolCall, ToolPasses, TrimSpace;
    if Lookup(config.registry, call.name).Some? && s.toolCalls < config.limits.maxToolCalls {
      ToolGates(config, world, Lookup(config.registry, call.name).value, call.arguments);
    }
  }

  // ----------------------------------------------------- one call, answered

  /** What the provider is told of a handler's reply: a result or an error as it was given, or the
      fixed text when it is too long or cannot be serialised; only a result that is told is a
      success. */
  predicate Told(limits: Limits, reply: HandlerReply, status: CallStatus, body: string) {
    if reply.Returned? && |reply.body| <= limits.maxResultBytes then status == Executed && body == reply.body
    else
      && status == Failed
      && body == if reply.HandlerError? && |reply.body| <= limits.maxResultBytes then reply.body
                 else "{\"error\":\"result_too_large\",\"truncated\":true}"
  }

  /** The message and the log entry of one call: its denial by the first gate that objects, or
      what its handler replied at this round and position. */
  ghost predicate Answered(config: Config, world: World, call: ToolCall, id: string, round: nat, position: nat, handled: nat,
                           m: Message, entry: Summary)
  {
    && m.ToolReply? && m.callID == id
    && entry.name == call.name && entry.id == id && entry.index == call.index
    && match entry.status
       case Denied(code) =>
         && DeniedAt(config, world, call, round, position, handled, code)
         && m.body == DeniedBody(code) && entry.resultBytes == 0
       case status =>
         && LetThrough(config, world, call, round, position, handled)
         && Told(config.limits, world.handler(round, position, Invocation(call.name, call.arguments)), status, m.body)
         && entry.resultBytes == |m.body|
  }

  /** The call was let through, but what it gave no longer fits the run's budget of bytes. */
  ghost predicate Overflows(config: Config, world: World, call: ToolCall, round: nat, position: nat, log: seq<Summary>) {
    && LetThrough(config, world, call, round, position, Handled(log))
    && exists status, body ::
         Told(config.limits, world.handler(round, position, Invocation(call.name, call.arguments)), status, body)
         && ResultBytes(log) + |body| > config.limits.maxTotalResultBytes
  }

  /** The counters a running loop keeps are those of its log. */
  predicate Counted(s: LoopState) {
    s.toolCalls == Handled(s.summaries) && s.totalResultBytes == ResultBytes(s.summaries)
  }

  lemma CallTold(config: Config, world: World, s: LoopState, call: ToolCall, id: string, round: nat, position: nat)
    returns (m: Message, entry: Summary)
    requires Counted(s)
    ensures var step := ProcessToolCall(config, world, s, call, id, round, position);
            if step.stop == Some(OutputExhausted) then
              && step.state.messages == s.messages && step.state.summaries == s.summaries
              && Overflows(config, world, call, round, position, s.summaries)
            else
              && step.state.messages == s.messages + [m] && step.state.summaries == s.summaries + [entry]
              && Answered(config, world, call, id, round, position, Handled(s.summaries), m, entry)
              && Counted(step.state)
  {
    hide DenialFor, DeniedAt, LetThrough, Handled, ResultBytes, DeniedBody, Observe, Told, Invoke, Deny;
    GatesTold(config, world, s, call, round, position);
    match DenialFor(config, world, s, call, round, position)
    case Some(code) =>
      m, entry := ToolReply(id, DeniedBody(code)), Summary(call.name, id, call.index, Denied(code), 0);
      DenialTold(s, call, id, code);
    case None =>
      var reply := world.handler(round, position, Invocation(call.name, call.arguments));
      var (status, body) := Observe(config.limits, reply);
      m, entry := ToolReply(id, body), Summary(call.name, id, call.index, status, |body|);
      ObservedIsTold(config.limits, reply);
      InvocationTold(config, s, call, id, reply);
  }

  lemma DenialTold(s: LoopState, call: ToolCall, id: string, code: DenyCode)
    requires Counted(s)
    ensures var step := Deny(s, call, id, code);
            && step.stop != Some(OutputExhausted)
            && step.state.messages == s.messages + [ToolReply(id, DeniedBody(code))]
            && step.state.summaries == s.summaries + [Summary(call.name, id, call.index, Denied(code), 0)]
            && Counted(step.state)
  {
    hide Handled, ResultBytes, DeniedBody;
    LogGrows(s.summaries, Summary(call.name, id, call.index, Denied(code), 0));
  }

  lemma ObservedIsTold(limits: Limits, reply: HandlerReply)
    ensures var (status, body) := Observe(limits, reply); Told(limits, reply, status, body) && !status.Denied?
  {
  }

  lemma InvocationTold(config: Config, s: LoopState, call: ToolCall, id: string, reply: HandlerReply)
    requires Counted(s)
    ensures var step, (status, body) := Invoke(config, s, call, id, reply), Observe(config.limits, reply);
            if step.stop == Some(OutputExhausted) then
              && step.state.messages == s.messages && step.state.summaries == s.summaries
              && ResultBytes(s.summaries) + |body| > config.limits.maxTotalResultBytes
            else
              && step.state.messages == s.messages + [ToolReply(id, body)]
              && step.state.summaries == s.summaries + [Summary(call.name, id, call.index, status, |body|)]
              && Counted(step.state)
  {
    ObservedIsTold(config.limits, reply);
    hide Handled, ResultBytes, Observe, Told;
    var (status, body) := Observe(config.limits, reply);
    LogGrows(s.summaries, Summary(call.name, id, call.index, status, |body|));
  }

  // ------------------------------------------------------- one round, a run

  /** The first calls of a reply, answered one by one, each knowing the log before it. */
  ghost predicate AnsweredAll(config: Config, world: World, calls: seq<ToolCall>, ids: seq<string>, round: nat, from: nat,
                              log: seq<Summary>, replies: seq<Message>, entries: seq<Summary>)
  {
    && |ids| == |calls| && from + |replies| <= |calls| && |entries| == |replies|
    && forall k | 0 <= k < |replies| ::
         Answered(config, world, calls[from + k], ids[from + k], round, from + k, Handled(log + entries[..k]), replies[k], entries[k])
  }

  /** The calls of a reply processed up to the end, or up to where the run stops. */
  ghost predicate Processed(config: Config, world: World, calls: seq<ToolCall>, ids: seq<string>, round: nat, from: nat,
                            log: seq<Summary>, replies: seq<Message>, entries: seq<Summary>, stop: Option<Ending>)
  {
    && AnsweredAll(config, world, calls, ids, round, from, log, replies, entries)
    && match stop
       case None => from + |replies| == |calls|
       case Some(OutputExhausted) =>
         from + |replies| < |calls|
         && Overflows(config, world, calls[from + |replies|], round, from + |replies|, log + entries)
       case Some(ending) => ending.RepeatedDenials? || ending.ToolFailed?
  }

  lemma {:induction false} ReplyTold(config: Config, world: World, s: LoopState, calls: seq<ToolCall>, ids: seq<string>,
                                     round: nat, from: nat)
    returns (replies: seq<Message>, entries: seq<Summary>)
    requires |ids| == |calls| && from <= |calls| && Counted(s)
    ensures var step := ProcessFrom(config, world, s, calls, ids, round, from);
            && step.state.messages == s.messages + replies && step.state.summaries == s.summaries + entries
            && (step.stop != Some(OutputExhausted) ==> Counted(step.state))
            && Processed(config, world, calls, ids, round, from, s.summaries, replies, entries, step.stop)
    decreases |calls| - from
  {
    hide ProcessToolCall, Answered, Overflows, Handled, ResultBytes;
    replies, entries := [], [];
    if from < |calls| {
      var m, entry := CallTold(config, world, s, calls[from], ids[from], round, from);
      var step := ProcessToolCall(config, world, s, calls[from], ids[from], round, from);
      StopsInside(config, world, s, calls[from], ids[from], round, from);
      if step.stop == Some(OutputExhausted) {
        assert s.summaries + entries == s.summaries;
      } else {
        replies, entries := [m], [entry];
        assert s.summaries + entries[..0] == s.summaries;
        if step.stop.None? {
          var replies', entries' := ReplyTold(config, world, step.state, calls, ids, round, from + 1);
          replies, entries := [m] + replies', [entry] + entries';
          assert s.messages + [m] + replies' == s.messages + replies;
          assert s.summaries + [entry] + entries' == s.summaries + entries;
          OneMoreAnswered(config, world, calls, ids, round, from, s.summaries, m, entry, replies', entries');
        }
      }
    }
  }

  lemma StopsInside(config: Config, world: World, s: LoopState, call: ToolCall, id: string, round: nat, position: nat)
    ensures var stop := ProcessToolCall(config, world, s, call, id, round, position).stop;
            stop.None? || stop.value.RepeatedDenials? || stop.value.ToolFailed? || stop.value.OutputExhausted?
  {
    hide DenialFor;
  }

  lemma OneMoreAnswered(config: Config, world: World, calls: seq<ToolCall>, ids: seq<string>, round: nat, from: nat,
                        log: seq<Summary>, m: Message, entry: Summary, replies: seq<Message>, entries: seq<Summary>)
    requires from < |calls| == |ids|
    requires Answered(config, world, calls[from], ids[from], round, from, Handled(log), m, entry)
    requires AnsweredAll(config, world, calls, ids, round, from + 1, log + [entry], replies, entries)
    ensures AnsweredAll(config, world, calls, ids, round, from, log, [m] + replies, [entry] + entries)
  {
    hide Answered, Handled;
    var all := [entry] + entries;
    forall k | 0 <= k < |replies| + 1
      ensures Answered(config, world, calls[from + k], ids[from + k], round, from + k, Handled(log + all[..k]), ([m] + replies)[k], all[k])
    {
      if k == 0 {
        assert log + all[..0] == log;
      } else {
        assert log + all[..k] == log + [entry] + entries[..k - 1];
        assert calls[from + k] == calls[from + 1 + (k - 1)] && ids[from + k] == ids[from + 1 + (k - 1)];
        assert Answered(config, world, calls[from + 1 + (k - 1)], ids[from + 1 + (k - 1)], round, from + 1 + (k - 1),
                        Handled(log + [entry] + entries[..k - 1]), replies[k - 1], entries[k - 1]);
      }
    }
  }

  /** The identifier a call is answered under: the provider's own without its padding, or one made
      from round and position. */
  function CorrelationID(call: ToolCall, round: nat, position: nat): string {
    if TrimSpace(call.id) != "" then TrimSpace(call.id) else "local-r" + Itoa(round) + "-c" + Itoa(position)
  }

  /** No two calls of the batch share an identifier and none was used in the run before. */
  predicate Unambiguous(calls: seq<ToolCall>, round: nat, used: seq<string>) {
    && (forall i, j | 0 <= i < j < |calls| :: CorrelationID(calls[i], round, i) != CorrelationID(calls[j], round, j))
    && (forall i | 0 <= i < |calls| :: CorrelationID(calls[i], round, i) !in used)
  }

  predicate Echoes(echo: Message, content: string, calls: seq<ToolCall>, round: nat) {
    && echo.Echo? && echo.content == content && |echo.calls| == |calls|
    && forall i | 0 <= i < |calls| ::
         echo.calls[i] == EchoedCall(CorrelationID(calls[i], round, i), calls[i].name, calls[i].arguments)
  }

  /** What happens from a round on, the conversation and the log being these. `asked` requests have
      been made before. The run ends as `out` says, for the reason given there. */
  ghost predicate Goes(config: Config, world: World, round: nat, messages: seq<Message>, log: seq<Summary>, asked: nat, out: Outcome)
    decreases config.limits.maxModelRounds - round + 1
  {
    if round > config.limits.maxModelRounds then EndsHere(RoundsExhausted, messages, log, asked, out)
    else if world.roundExpired(round) then EndsHere(LoopDeadlinePassed, messages, log, asked, out)
    else
      && asked < |out.state.requests| && out.state.requests[asked] == messages
      && match world.provider(round, messages)
         case CallFailed(deadlinePassed) =>
           EndsHere(if deadlinePassed then LoopDeadlinePassed else ProviderFailed, messages, log, asked + 1, out)
         case Malformed => EndsHere(MalformedReply, messages, log, asked + 1, out)
         case Reply(content, calls) =>
           if calls == [] then EndsHere(if content == "" then MalformedReply else FinalResponse(content), messages, log, asked + 1, out)
           else if !Unambiguous(calls, round, EchoedIDs(Since(config, messages))) then
             EndsHere(DuplicateCallID, messages, log, asked + 1, out)
           else
             exists echo, replies, entries, stop ::
               && Echoes(echo, content, calls, round)
               && Processed(config, world, calls, IDsOf(echo.calls), round, 0, log, replies, entries, stop)
               && (if stop.Some? then EndsHere(stop.value, messages + [echo] + replies, log + entries, asked + 1, out)
                   else Goes(config, world, round + 1, messages + [echo] + replies, log + entries, asked + 1, out))
  }

  /** What has been said since the initial messages. */
  function Since(config: Config, messages: seq<Message>): seq<Message> {
    if |config.initial| <= |messages| then messages[|config.initial|..] else []
  }

  predicate EndsHere(ending: Ending, messages: seq<Message>, log: seq<Summary>, asked: nat, out: Outcome) {
    out.ending == ending && out.state.messages == messages && out.state.summaries == log && |out.state.requests| == asked
  }

  lemma {:induction false} RoundsGo(config: Config, world: World, s: LoopState, round: nat)
    requires Counted(s) && Conversing(config, s)
    ensures var out := Rounds(config, world, s, round);
            s.requests <= out.state.requests && Goes(config, world, round, s.messages, s.summaries, |s.requests|, out)
    decreases config.limits.maxModelRounds - round + 1
  {
    hide ProcessFrom, WellFormedHistory, Processed, Fresh, EchoedIDs, EffectiveIDs, Handled, ResultBytes;
    if round <= config.limits.maxModelRounds && !world.roundExpired(round) {
      var asked := s.(requests := s.requests + [s.messages]);
      match world.provider(round, s.messages)
      case CallFailed(_) =>
      case Malformed =>
      case Reply(content, calls) =>
        if calls != [] {
          var ids := EffectiveIDs(calls, round);
          var out := Rounds(config, world, s, round);
          UnambiguousIff(config, s, calls, round);
          if Fresh(ids, s.seenIDs) {
            var step := ProcessFrom(config, world, OpenRound(asked, content, calls, ids), calls, ids, round, 0);
            var echo, replies, entries := RoundTold(config, world, asked, content, calls, round);
            var messages, log := s.messages + [echo] + replies, s.summaries + entries;
            if step.stop.None? {
              RoundsGo(config, world, step.state, round + 1);
              assert Goes(config, world, round + 1, messages, log, |s.requests| + 1, out);
            } else {
              assert EndsHere(step.stop.value, messages, log, |s.requests| + 1, out);
            }
            assert Echoes(echo, content, calls, round)
                && Processed(config, world, calls, IDsOf(echo.calls), round, 0, s.summaries, replies, entries, step.stop);
          }
        }
    }
  }

  lemma RoundTold(config: Config, world: World, s: LoopState, content: string, calls: seq<ToolCall>, round: nat)
    returns (echo: Message, replies: seq<Message>, entries: seq<Summary>)
    requires Counted(s) && Conversing(config, s) && calls != [] && Fresh(EffectiveIDs(calls, round), s.seenIDs)
    ensures Echoes(echo, content, calls, round)
    ensures var ids := EffectiveIDs(calls, round);
            var step := ProcessFrom(config, world, OpenRound(s, content, calls, ids), calls, ids, round, 0);
            && Processed(config, world, calls, IDsOf(echo.calls), round, 0, s.summaries, replies, entries, step.stop)
            && step.state.messages == s.messages + [echo] + replies && step.state.summaries == s.summaries + entries
            && step.state.requests == s.requests
            && (step.stop.None? ==> Counted(step.state) && Conversing(config, step.state))
  {
    hide ProcessFrom, Conversing, Processed, Fresh, EffectiveIDs, Handled, ResultBytes;
    var ids := EffectiveIDs(calls, round);
    echo := EchoOf(content, calls, ids);
    EchoIsTold(content, calls, round);
    replies, entries := ReplyTold(config, world, OpenRound(s, content, calls, ids), calls, ids, round, 0);
    RoundRan(config, world, s, content, calls, round);
  }

  lemma EchoIsTold(content: string, calls: seq<ToolCall>, round: nat)
    ensures var ids := EffectiveIDs(calls, round);
            Echoes(EchoOf(content, calls, ids), content, calls, round) && IDsOf(EchoOf(content, calls, ids).calls) == ids
  {
    hide TrimSpace, Itoa;
  }

  lemma UnambiguousIff(config: Config, s: LoopState, calls: seq<ToolCall>, round: nat)
    requires Conversing(config, s)
    ensures Fresh(EffectiveIDs(calls, round), s.seenIDs) <==> Unambiguous(calls, round, EchoedIDs(Since(config, s.messages)))
  {
    hide TrimSpace, Itoa, EchoedIDs, CompleteRounds;
    var ids := EffectiveIDs(calls, round);
    assert forall i | 0 <= i < |calls| :: ids[i] == CorrelationID(calls[i], round, i);
  }

  /** The whole run, told. Every request is the conversation so far, every reply to it was what the
      provider gave, every call was answered by the first gate that objected or by what its own
      handler replied, and the run ended for the reason it gives, with the provider's last
      content as its answer. */
  lemma RunIsTold(config: Config, world: World)
    requires Objection(config).None?
    ensures Goes(config, world, 1, config.initial, [], 0, RunToolLoop(config, world))
  {
    hide Rounds, Goes;
    assert config.initial[|config.initial|..] == [];
    assert Conversing(config, StartState(config)) && Counted(StartState(config));
    RoundsGo(config, world, StartState(config), 1);
  }

  /** A denial tells the provider which gate it was. */
  lemma DenialsDiffer(a: DenyCode, b: DenyCode)
    requires DeniedBody(a) == DeniedBody(b)
    ensures a == b
  {
    var before, after := "{\"error\":\"denied: ", "\"}";
    CodeShapes(a);
    CodeShapes(b);
    Enclosed(before, CodeText(a), CodeText(b), after);
  }

  lemma Enclosed(before: string, x: string, y: string, after: string)
    requires before + x + after == before + y + after
    ensures x == y
  {
    assert |x| == |y|;
    assert (before + x + after)[|before|..|before| + |x|] == x;
    assert (before + y + after)[|before|..|before| + |y|] == y;
  }

  /** Length and first letter tell the codes apart. */
  lemma CodeShapes(code: DenyCode)
    ensures (|CodeText(code)|, CodeText(code)[0]) ==
      match code
      case NoOptIn => (19, 'n')
      case NoIdentity => (16, 'm')
      case EnforcementOff => (29, 'i')
      case UnknownTool => (12, 'u')
      case NotAllowlisted => (15, 'n')
      case MissingCapability => (18, 'm')
      case InsufficientTrust => (18, 'i')
      case ForbiddenByContract => (21, 'f')
      case InvalidArguments => (17, 'i')
      case BudgetExhausted => (16, 'b')
      case ContextExpired => (15, 'c')
  {
  }
}
