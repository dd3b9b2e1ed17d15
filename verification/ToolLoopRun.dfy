/** The loop as the source runs it: one mutable state object updated call by call
    (RunToolLoop, assignEffectiveIDs and processToolCall of pkg/agent/tool_loop.go). */
module ToolLoopRun {
  import opened Wrappers
  import opened Text
  import opened Json
  import opened ToolPolicy
  import opened ToolLoop

  class ToolLoopState {
    var messages: seq<Message>
    var summaries: seq<Summary>
    var toolCalls: nat
    var totalResultBytes: nat
    var consecutiveDenials: nat
    var seenIDs: set<string>
    // What the run has done to the outside world.
    ghost var requests: seq<seq<Message>>
    ghost var invocations: seq<Invocation>

    ghost function Value(): LoopState
      reads this
    {
      LoopState(messages, summaries, toolCalls, totalResultBytes, consecutiveDenials, seenIDs, requests, invocations)
    }

    constructor (config: Config)
      ensures Value() == StartState(config)
    {
      messages := config.initial;
      summaries, toolCalls, totalResultBytes, consecutiveDenials := [], 0, 0, 0;
      seenIDs, requests, invocations := {}, [], [];
    }

    /** All or nothing: either every call of the batch gets its identifier and the ledger
        gains all of them, or the batch is refused and nothing changes. */
    method AssignEffectiveIDs(calls: seq<ToolCall>, round: nat) returns (ids: Option<seq<string>>)
      modifies this`seenIDs
      ensures ids.Some? <==> Fresh(EffectiveIDs(calls, round), old(seenIDs))
      ensures ids.Some? ==> ids.value == EffectiveIDs(calls, round)
      ensures seenIDs == old(seenIDs) + (if ids.Some? then set id | id in ids.value else {})
    {
      hide TrimSpace, LocalID;
      ghost var all := EffectiveIDs(calls, round);
      var list: seq<string> := [];
      var batch: set<string> := {};
      for i := 0 to |calls|
        invariant list == all[..i] && Fresh(list, seenIDs)
        invariant batch == set id | id in list
        invariant seenIDs == old(seenIDs)
      {
        var id := TrimSpace(calls[i].id);
        if id == "" {
          id := LocalID(round, i);
        }
        assert id == all[i];
        if id in seenIDs || id in batch {
          if id in batch {
            var j :| 0 <= j < i && list[j] == id;
            assert all[j] == all[i];
          }
          return None;
        }
        batch := batch + {id};
        assert all[..i + 1] == all[..i] + [id];
        list := list + [id];
      }
      assert all[..|calls|] == all;
      seenIDs := seenIDs + batch;
      ids := Some(list);
    }

    method DenyCall(call: ToolCall, id: string, code: DenyCode) returns (stop: Option<Ending>)
      modifies this
      ensures StepResult(Value(), stop) == Deny(old(Value()), call, id, code)
    {
      consecutiveDenials := consecutiveDenials + 1;
      summaries := summaries + [Summary(call.name, id, call.index, Denied(code), 0)];
      messages := messages + [ToolReply(id, DeniedBody(code))];
      stop := if consecutiveDenials >= MAX_CONSECUTIVE_DENIALS then Some(RepeatedDenials) else None;
    }

    method ProcessToolCall(config: Config, world: World, call: ToolCall, id: string, round: nat, position: nat)
      returns (stop: Option<Ending>)
      modifies this
      ensures StepResult(Value(), stop) == ToolLoop.ProcessToolCall(config, world, old(Value()), call, id, round, position)
    {
      hide AuthorizeToolCall, Lookup, Deny, Invoke;
      var tool := Lookup(config.registry, call.name);
      if tool.None? {
        stop := DenyCall(call, id, UnknownTool);
        return;
      }
      if toolCalls + 1 > config.limits.maxToolCalls {
        stop := DenyCall(call, id, BudgetExhausted);
        return;
      }
      var denied := AuthorizeToolCall(world.validator, AuthOf(config), tool.value, call.arguments);
      if denied.Some? {
        stop := DenyCall(call, id, denied.value);
        return;
      }
      if world.callExpired(round, position) {
        stop := DenyCall(call, id, ContextExpired);
        return;
      }
      stop := InvokeTool(config, world, call, id, round, position);
    }

    /** The status and body of what the handler returned: an error's text, or the marker for a
        result that cannot be serialised or is too long. */
    static method ObserveReply(limits: Limits, reply: HandlerReply) returns (status: CallStatus, body: string)
      ensures (status, body) == Observe(limits, reply)
    {
      status := Executed;
      match reply {
        case Returned(result) =>
          body := result;
        case HandlerError(message) =>
          body := message;
          status := Failed;
        case Unserializable =>
          body := TRUNCATED;
          status := Failed;
      }
      if |body| > limits.maxResultBytes {
        body := TRUNCATED;
        status := Failed;
      }
    }

    method InvokeTool(config: Config, world: World, call: ToolCall, id: string, round: nat, position: nat)
      returns (stop: Option<Ending>)
      modifies this
      ensures StepResult(Value(), stop)
           == Invoke(config, old(Value()), call, id, world.handler(round, position, Invocation(call.name, call.arguments)))
    {
      hide Observe;
      consecutiveDenials := 0;
      var invocation := Invocation(call.name, call.arguments);
      invocations := invocations + [invocation];
      var status, body := ObserveReply(config.limits, world.handler(round, position, invocation));
      totalResultBytes := totalResultBytes + |body|;
      if totalResultBytes > config.limits.maxTotalResultBytes {
        return Some(OutputExhausted);
      }
      toolCalls := toolCalls + 1;
      messages := messages + [ToolReply(id, body)];
      summaries := summaries + [Summary(call.name, id, call.index, status, |body|)];
      stop := if status == Failed && config.stopOnToolError then Some(ToolFailed) else None;
    }
  }

  /** For every configuration and every world the loop ends as its specification says. */
  method Run(config: Config, world: World) returns (ending: Ending, state: ToolLoopState)
    ensures fresh(state)
    ensures Outcome(ending, state.Value()) == RunToolLoop(config, world)
  {
    hide Objection, ToolLoop.ProcessToolCall, Fresh, EffectiveIDs;
    state := new ToolLoopState(config);
    var objection := Objection(config);
    if objection.Some? {
      return objection.value, state;
    }
    var round := 1;
    while true
      invariant round >= 1
      invariant Rounds(config, world, state.Value(), round) == RunToolLoop(config, world)
      invariant fresh(state)
      decreases config.limits.maxModelRounds - round + 1
    {
      if round > config.limits.maxModelRounds {
        return RoundsExhausted, state;
      }
      if world.roundExpired(round) {
        return LoopDeadlinePassed, state;
      }
      ghost var before := state.Value();
      state.requests := state.requests + [state.messages];
      match world.provider(round, state.messages) {
        case CallFailed(deadlinePassed) =>
          return if deadlinePassed then LoopDeadlinePassed else ProviderFailed, state;
        case Malformed =>
          return MalformedReply, state;
        case Reply(content, calls) =>
          if calls == [] {
            return if content == "" then MalformedReply else FinalResponse(content), state;
          }
          var batch := state.AssignEffectiveIDs(calls, round);
          if batch.None? {
            return DuplicateCallID, state;
          }
          var ids := batch.value;
          state.messages := state.messages + [EchoOf(content, calls, ids)];
          ghost var start := state.Value();
          assert start == OpenRound(before.(requests := before.requests + [before.messages]), content, calls, ids);
          for i := 0 to |calls|
            invariant fresh(state)
            invariant ProcessFrom(config, world, state.Value(), calls, ids, round, i)
                   == ProcessFrom(config, world, start, calls, ids, round, 0)
          {
            var stop := state.ProcessToolCall(config, world, calls[i], ids[i], round, i);
            if stop.Some? {
              return stop.value, state;
            }
          }
          round := round + 1;
      }
    }
  }
}
