/** What every run of the bounded tool loop keeps, whatever the provider, the handlers and
    the clocks do. */
module ToolLoopProperties {
  import opened Wrappers
  import opened Text
  import opened Json
  import opened ToolPolicy
  import opened ToolLoop

  // ------------------------------------------- the per-call log, summed up

  function Handled(log: seq<Summary>): nat {
    if log == [] then 0
    else Handled(log[..|log| - 1]) + (if log[|log| - 1].status.Denied? then 0 else 1)
  }

  function Refused(log: seq<Summary>): nat {
    if log == [] then 0
    else Refused(log[..|log| - 1]) + (if log[|log| - 1].status.Denied? then 1 else 0)
  }

  /** How many of the latest calls in a row were denied. */
  function DenialStreak(log: seq<Summary>): nat {
    if log == [] || !log[|log| - 1].status.Denied? then 0 else DenialStreak(log[..|log| - 1]) + 1
  }

  function ResultBytes(log: seq<Summary>): nat {
    if log == [] then 0 else ResultBytes(log[..|log| - 1]) + log[|log| - 1].resultBytes
  }

  function Max(a: int, b: int): int {
    if a < b then b else a
  }

  predicate BoundedResults(config: Config, log: seq<Summary>) {
    forall i | 0 <= i < |log| :: log[i].resultBytes <= Max(config.limits.maxResultBytes, |TRUNCATED|)
  }

  predicate Authorized(config: Config, world: World, inv: Invocation) {
    && Lookup(config.registry, inv.name).Some?
    && Permitted(world.validator, AuthOf(config), Lookup(config.registry, inv.name).value, inv.arguments)
  }

  predicate AllAuthorized(config: Config, world: World, invs: seq<Invocation>) {
    forall i | 0 <= i < |invs| :: Authorized(config, world, invs[i])
  }

  /** The running counters are exactly what the per-call log says. */
  predicate Tallied(s: LoopState) {
    && s.toolCalls == Handled(s.summaries)
    && |s.summaries| == Handled(s.summaries) + Refused(s.summaries)
    && Refused(s.summaries) <= 2 * s.toolCalls + DenialStreak(s.summaries)
    && DenialStreak(s.summaries) <= MAX_CONSECUTIVE_DENIALS
  }

  /** Holds whenever the run goes on. */
  predicate Running(config: Config, world: World, s: LoopState) {
    && Tallied(s)
    && s.consecutiveDenials == DenialStreak(s.summaries) < MAX_CONSECUTIVE_DENIALS
    && s.totalResultBytes == ResultBytes(s.summaries) <= config.limits.maxTotalResultBytes
    && |s.invocations| == s.toolCalls <= config.limits.maxToolCalls
    && BoundedResults(config, s.summaries)
    && AllAuthorized(config, world, s.invocations)
  }

  /** Holds of the final state of every run. */
  predicate Finished(config: Config, world: World, ending: Ending, s: LoopState) {
    && Tallied(s)
    && s.toolCalls <= |s.invocations| <= config.limits.maxToolCalls
    && |s.requests| <= config.limits.maxModelRounds
    && |s.summaries| <= 3 * config.limits.maxToolCalls + 3
    && ResultBytes(s.summaries) <= config.limits.maxTotalResultBytes
    && BoundedResults(config, s.summaries)
    && AllAuthorized(config, world, s.invocations)
    && (ending.RepeatedDenials? <==> DenialStreak(s.summaries) == MAX_CONSECUTIVE_DENIALS)
    && (ending.OutputExhausted? <==> s.totalResultBytes > config.limits.maxTotalResultBytes)
    && (if ending.OutputExhausted? then
          s.consecutiveDenials == 0 && |s.invocations| == s.toolCalls + 1
        else
          s.consecutiveDenials == DenialStreak(s.summaries)
          && s.totalResultBytes == ResultBytes(s.summaries) && |s.invocations| == s.toolCalls)
    && (ending.ToolFailed? ==> config.stopOnToolError && s.summaries != [] && s.summaries[|s.summaries| - 1].status == Failed)
  }

  lemma LogGrows(log: seq<Summary>, entry: Summary)
    ensures Handled(log + [entry]) == Handled(log) + (if entry.status.Denied? then 0 else 1)
    ensures Refused(log + [entry]) == Refused(log) + (if entry.status.Denied? then 1 else 0)
    ensures DenialStreak(log + [entry]) == if entry.status.Denied? then DenialStreak(log) + 1 else 0
    ensures ResultBytes(log + [entry]) == ResultBytes(log) + entry.resultBytes
  {
    assert (log + [entry])[..|log|] == log;
  }

  lemma DenialKept(config: Config, world: World, s: LoopState, call: ToolCall, id: string, code: DenyCode)
    requires ValidLimits(config.limits) && Running(config, world, s)
    requires |s.requests| <= config.limits.maxModelRounds
    ensures KeptOrFinished(config, world, s, Deny(s, call, id, code))
  {
    hide Handled, Refused, DenialStreak, ResultBytes, Permitted, Lookup, AllAuthorized, DeniedBody;
    LogGrows(s.summaries, Summary(call.name, id, call.index, Denied(code), 0));
  }

  lemma InvocationKept(config: Config, world: World, s: LoopState, call: ToolCall, id: string, reply: HandlerReply)
    requires ValidLimits(config.limits) && Running(config, world, s)
    requires |s.requests| <= config.limits.maxModelRounds
    requires s.toolCalls < config.limits.maxToolCalls
    requires Authorized(config, world, Invocation(call.name, call.arguments))
    ensures KeptOrFinished(config, world, s, Invoke(config, s, call, id, reply))
  {
    hide Handled, Refused, DenialStreak, ResultBytes, Permitted, Lookup, Authorized;
    var (status, body) := Observe(config.limits, reply);
    LogGrows(s.summaries, Summary(call.name, id, call.index, status, |body|));
  }

  predicate KeptOrFinished(config: Config, world: World, s: LoopState, step: StepResult) {
    && step.state.requests == s.requests
    && (step.stop.None? ==> Running(config, world, step.state))
    && (step.stop.Some? ==> Finished(config, world, step.stop.value, step.state))
  }

  lemma ProcessedCall(config: Config, world: World, s: LoopState, call: ToolCall, id: string, round: nat, position: nat)
    requires ValidLimits(config.limits) && Running(config, world, s)
    requires |s.requests| <= config.limits.maxModelRounds
    ensures KeptOrFinished(config, world, s, ProcessToolCall(config, world, s, call, id, round, position))
  {
    match DenialFor(config, world, s, call, round, position)
    case Some(code) =>
      DenialKept(config, world, s, call, id, code);
    case None =>
      AuthorizedIffPermitted(world.validator, AuthOf(config), Lookup(config.registry, call.name).value, call.arguments);
      InvocationKept(config, world, s, call, id, world.handler(round, position, Invocation(call.name, call.arguments)));
  }

  lemma {:induction false} ProcessedReply(config: Config, world: World, s: LoopState, calls: seq<ToolCall>,
                                          ids: seq<string>, round: nat, position: nat)
    requires |ids| == |calls| && position <= |calls|
    requires ValidLimits(config.limits) && Running(config, world, s)
    requires |s.requests| <= config.limits.maxModelRounds
    ensures KeptOrFinished(config, world, s, ProcessFrom(config, world, s, calls, ids, round, position))
    decreases |calls| - position
  {
    if position < |calls| {
      ProcessedCall(config, world, s, calls[position], ids[position], round, position);
      var step := ProcessToolCall(config, world, s, calls[position], ids[position], round, position);
      if step.stop.None? {
        ProcessedReply(config, world, step.state, calls, ids, round, position + 1);
      }
    }
  }

  /** A run id left blank is replaced, so it denies no call. */
  lemma OptInIsGiven(config: Config, world: World, s: LoopState, call: ToolCall, round: nat, position: nat)
    requires !Blank(config.freshID)
    ensures DenialFor(config, world, s, call, round, position) != Some(NoOptIn)
  {
    hide Blank;
  }

  lemma {:induction false} RoundsFinish(config: Config, world: World, s: LoopState, round: nat)
    requires ValidLimits(config.limits) && Running(config, world, s)
    requires 1 <= round <= config.limits.maxModelRounds + 1 && |s.requests| == round - 1
    ensures var out := Rounds(config, world, s, round);
            Finished(config, world, out.ending, out.state)
    decreases config.limits.maxModelRounds - round + 1
  {
    if round <= config.limits.maxModelRounds && !world.roundExpired(round) {
      var asked := s.(requests := s.requests + [s.messages]);
      match world.provider(round, s.messages)
      case CallFailed(_) =>
      case Malformed =>
      case Reply(content, calls) =>
        var ids := EffectiveIDs(calls, round);
        if calls != [] && Fresh(ids, s.seenIDs) {
          var start := OpenRound(asked, content, calls, ids);
          ProcessedReply(config, world, start, calls, ids, round, 0);
          var step := ProcessFrom(config, world, start, calls, ids, round, 0);
          if step.stop.None? {
            RoundsFinish(config, world, step.state, round + 1);
          }
        }
    }
  }

  /** Work and byte accounting of a whole run: at most MaxToolCalls handler invocations,
      each authorised; at most MaxModelRounds provider calls; at most 3 * MaxToolCalls + 3
      processed calls however many one reply proposes; recorded result bytes within the run
      budget and equal to the running total unless the budget ended the run. */
  lemma RunIsBounded(config: Config, world: World)
    ensures var out := RunToolLoop(config, world);
            if Objection(config).Some? then out.state == StartState(config)
            else Finished(config, world, out.ending, out.state)
  {
    if Objection(config).None? {
      RoundsFinish(config, world, StartState(config), 1);
    }
  }

  /** Whatever limits a configuration asks for, no run exceeds the hard ones. */
  lemma RunIsCapped(config: Config, world: World)
    ensures var s := RunToolLoop(config, world).state;
            && |s.requests| <= 4 && |s.invocations| <= 8 && |s.summaries| <= 27 && ResultBytes(s.summaries) <= 65536
            && forall i | 0 <= i < |s.summaries| :: s.summaries[i].resultBytes <= 16384
  {
    hide Rounds, Handled, Refused, DenialStreak, AllAuthorized;
    RunIsBounded(config, world);
    assert |TRUNCATED| <= 16384;
  }

  /** A run gets as far as its first round exactly when there is a provider, a tool, a tool to use,
      limits in range, a registered tool for each one allowed, and time left. */
  lemma RunStartsIff(config: Config)
    ensures Objection(config).None? <==>
      && config.hasProvider && config.registry != map[]
      && (exists i :: 0 <= i < |config.allowlist| && TrimSpace(config.allowlist[i]) != "")
      && (forall i | 0 <= i < |config.allowlist| && TrimSpace(config.allowlist[i]) != "" :: TrimSpace(config.allowlist[i]) in config.registry)
      && 1 <= config.limits.maxModelRounds <= 4 && 1 <= config.limits.maxToolCalls <= 8
      && 1 <= config.limits.maxResultBytes <= 16384 && 1 <= config.limits.maxTotalResultBytes <= 65536
      && 1 <= config.limits.timeout <= 30
      && !config.groupDeadlinePassed && !config.contextExpired
  {
    hide TrimSpace;
    var names := AllowSet(config.allowlist);
    forall name ensures name in names <==> exists i :: 0 <= i < |config.allowlist| && TrimSpace(config.allowlist[i]) == name != "" {
    }
    TrimmedAreTrimmed(config.allowlist);
    if i :| 0 <= i < |config.allowlist| && TrimSpace(config.allowlist[i]) != "" {
      assert TrimSpace(config.allowlist[i]) in names;
    }
    forall i | 0 <= i < |config.allowlist| && TrimSpace(config.allowlist[i]) != "" ensures TrimSpace(config.allowlist[i]) in names {
    }
  }

  lemma TrimmedAreTrimmed(names: seq<string>)
    ensures forall i | 0 <= i < |names| :: TrimSpace(TrimSpace(names[i])) == TrimSpace(names[i])
  {
  }
}
