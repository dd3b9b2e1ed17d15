/** The conversation the bounded tool loop sends to its provider, and the correlation
    identifiers that tie tool replies to proposed calls. */
module ToolLoopHistory {
  import opened Wrappers
  import opened Text
  import opened ToolLoop
  import ToolLoopProperties

  // -------------------------------------------------- well-formed histories

  function IDsOf(calls: seq<EchoedCall>): seq<string> {
    seq(|calls|, i requires 0 <= i < |calls| => calls[i].id)
  }

  /** One assistant echo followed by exactly one tool message per call, in order. */
  predicate AnsweredRound(block: seq<Message>) {
    && block != [] && block[0].Echo? && block[0].calls != []
    && |block| == 1 + |block[0].calls|
    && forall k | 0 <= k < |block[0].calls| ::
         block[k + 1].ToolReply? && block[k + 1].callID == block[0].calls[k].id
  }

  predicate CompleteRounds(messages: seq<Message>) {
    messages == [] ||
    (messages[0].Echo? && 1 + |messages[0].calls| <= |messages|
     && AnsweredRound(messages[..1 + |messages[0].calls|])
     && CompleteRounds(messages[1 + |messages[0].calls|..]))
  }

  /** Every identifier echoed, in order. */
  function EchoedIDs(messages: seq<Message>): seq<string> {
    if messages == [] then []
    else (if messages[0].Echo? then IDsOf(messages[0].calls) else []) + EchoedIDs(messages[1..])
  }

  /** The initial messages, then complete rounds only, no identifier used twice. */
  predicate WellFormedHistory(config: Config, messages: seq<Message>) {
    && config.initial <= messages
    && CompleteRounds(messages[|config.initial|..])
    && Distinct(EchoedIDs(messages[|config.initial|..]))
  }

  lemma {:induction false} EchoedIDsConcat(a: seq<Message>, b: seq<Message>)
    ensures EchoedIDs(a + b) == EchoedIDs(a) + EchoedIDs(b)
  {
    if a == [] {
      assert a + b == b;
    } else {
      assert (a + b)[1..] == a[1..] + b;
      EchoedIDsConcat(a[1..], b);
    }
  }

  lemma {:induction false} RepliesEchoNothing(replies: seq<Message>)
    requires forall k | 0 <= k < |replies| :: replies[k].ToolReply?
    ensures EchoedIDs(replies) == []
  {
    if replies != [] {
      RepliesEchoNothing(replies[1..]);
    }
  }

  lemma {:induction false} RoundAppended(messages: seq<Message>, block: seq<Message>)
    requires CompleteRounds(messages) && AnsweredRound(block)
    ensures CompleteRounds(messages + block)
    decreases |messages|
  {
    if messages == [] {
      assert messages + block == block;
      assert block[..|block|] == block && block[|block|..] == [];
    } else {
      var n := 1 + |messages[0].calls|;
      RoundAppended(messages[n..], block);
      assert (messages + block)[..n] == messages[..n];
      assert (messages + block)[n..] == messages[n..] + block;
    }
  }

  // --------------------------------------------------- one reply, then a run

  /** The endings that cut a reply short. */
  predicate InsideReply(ending: Ending) {
    ending.RepeatedDenials? || ending.OutputExhausted? || ending.ToolFailed?
  }

  lemma CallAnswered(config: Config, world: World, s: LoopState, call: ToolCall, id: string, round: nat, position: nat)
    returns (body: string)
    ensures var step := ProcessToolCall(config, world, s, call, id, round, position);
            && step.state.requests == s.requests
            && step.state.seenIDs == s.seenIDs
            && (step.stop.Some? ==> InsideReply(step.stop.value))
            && step.state.messages
               == if step.stop == Some(OutputExhausted) then s.messages else s.messages + [ToolReply(id, body)]
  {
    match DenialFor(config, world, s, call, round, position)
    case Some(code) => body := DeniedBody(code);
    case None => body := Observe(config.limits, world.handler(round, position, Invocation(call.name, call.arguments))).1;
  }

  /** A reply adds exactly the tool messages of the calls processed, in order: all of them when
      it is processed to its end, and not that of a call whose result overflows the budget. */
  lemma {:induction false} RepliesAdded(config: Config, world: World, s: LoopState, calls: seq<ToolCall>,
                                        ids: seq<string>, round: nat, position: nat)
    returns (replies: seq<Message>)
    requires |ids| == |calls| && position <= |calls|
    ensures var step := ProcessFrom(config, world, s, calls, ids, round, position);
            && step.state.requests == s.requests
            && step.state.seenIDs == s.seenIDs
            && step.state.messages == s.messages + replies
            && (step.stop.Some? ==> InsideReply(step.stop.value))
            && (step.stop.None? ==> |replies| == |calls| - position)
            && (step.stop == Some(OutputExhausted) ==> |replies| < |calls| - position)
            && (step.stop.Some? && !step.stop.value.OutputExhausted? ==> 0 < |replies| <= |calls| - position)
    ensures |replies| <= |calls| - position
    ensures forall k | 0 <= k < |replies| :: replies[k].ToolReply? && replies[k].callID == ids[position + k]
    decreases |calls| - position
  {
    hide ProcessToolCall;
    replies := [];
    if position < |calls| {
      var body := CallAnswered(config, world, s, calls[position], ids[position], round, position);
      var step := ProcessToolCall(config, world, s, calls[position], ids[position], round, position);
      if step.stop.None? {
        var rest := RepliesAdded(config, world, step.state, calls, ids, round, position + 1);
        var first := ToolReply(ids[position], body);
        replies := [first] + rest;
        assert s.messages + [first] + rest == s.messages + replies;
        forall k | 0 <= k < |replies| ensures replies[k].ToolReply? && replies[k].callID == ids[position + k] {
          if k > 0 {
            assert replies[k] == rest[k - 1];
          }
        }
      } else if step.stop != Some(OutputExhausted) {
        replies := [ToolReply(ids[position], body)];
      }
    }
  }

  /** Holds at the start of every round. */
  predicate Conversing(config: Config, s: LoopState) {
    && WellFormedHistory(config, s.messages)
    && s.seenIDs == (set id | id in EchoedIDs(s.messages[|config.initial|..]))
    && forall i | 0 <= i < |s.requests| :: WellFormedHistory(config, s.requests[i])
  }

  lemma FreshConcat(used: seq<string>, ids: seq<string>)
    requires Distinct(used) && Fresh(ids, set id | id in used)
    ensures Distinct(used + ids)
    ensures (set id | id in used + ids) == (set id | id in used) + (set id | id in ids)
  {
    forall i | 0 <= i < |used| ensures used[i] in (set id | id in used) {
    }
  }

  /** A round's echoed ids are those of its one echo. */
  lemma RoundEchoes(echo: Message, replies: seq<Message>)
    requires AnsweredRound([echo] + replies)
    ensures EchoedIDs([echo] + replies) == IDsOf(echo.calls)
  {
    var block := [echo] + replies;
    assert block[1..] == replies && block[0] == echo;
    forall k | 0 <= k < |replies| ensures replies[k].ToolReply? {
      assert block[0].calls[k] == echo.calls[k] && block[k + 1] == replies[k];
    }
    RepliesEchoNothing(replies);
  }

  /** A round processed to its end leaves a longer well-formed conversation. */
  lemma RoundCompleted(config: Config, s: LoopState, echo: Message, replies: seq<Message>, after: LoopState)
    requires Conversing(config, s)
    requires AnsweredRound([echo] + replies) && Fresh(IDsOf(echo.calls), s.seenIDs)
    requires after.messages == s.messages + [echo] + replies
    requires after.seenIDs == s.seenIDs + (set id | id in IDsOf(echo.calls))
    requires after.requests == s.requests
    ensures Conversing(config, after)
  {
    var n := |config.initial|;
    var before, block := s.messages[n..], [echo] + replies;
    assert after.messages[n..] == before + block;
    RoundAppended(before, block);
    EchoedIDsConcat(before, block);
    RoundEchoes(echo, replies);
    FreshConcat(EchoedIDs(before), IDsOf(echo.calls));
  }

  /** A complete conversation, then one echo with new identifiers and the answers to exactly its
      first calls. A run ends so when it stops inside a reply; the call whose result overflowed
      the budget, and only that ending, leaves its own call unanswered. */
  ghost predicate CutInsideReply(config: Config, messages: seq<Message>, ending: Ending) {
    exists n: nat | n < |messages| :: CutAt(config, messages, n, ending)
  }

  predicate CutAt(config: Config, messages: seq<Message>, n: nat, ending: Ending)
    requires n < |messages|
  {
    && |config.initial| <= n && WellFormedHistory(config, messages[..n])
    && messages[n].Echo? && messages[n].calls != []
    && Fresh(IDsOf(messages[n].calls), set id | id in EchoedIDs(messages[|config.initial|..n]))
    && AnswersFirst(messages[n].calls, messages[n + 1..])
    && (if ending.OutputExhausted? then |messages[n + 1..]| < |messages[n].calls| else messages[n + 1..] != [])
  }

  predicate AnswersFirst(calls: seq<EchoedCall>, replies: seq<Message>) {
    && |replies| <= |calls|
    && forall k | 0 <= k < |replies| :: replies[k].ToolReply? && replies[k].callID == calls[k].id
  }

  /** The same, for the round the loop just ran. */
  lemma RoundRan(config: Config, world: World, s: LoopState, content: string, calls: seq<ToolCall>, round: nat)
    requires Conversing(config, s) && calls != []
    requires Fresh(EffectiveIDs(calls, round), s.seenIDs)
    ensures var ids := EffectiveIDs(calls, round);
            var step := ProcessFrom(config, world, OpenRound(s, content, calls, ids), calls, ids, round, 0);
            && step.state.requests == s.requests
            && (if step.stop.None? then Conversing(config, step.state)
                else InsideReply(step.stop.value) && CutInsideReply(config, step.state.messages, step.stop.value))
  {
    hide ProcessFrom, WellFormedHistory, EffectiveID;
    var ids := EffectiveIDs(calls, round);
    var echo := EchoOf(content, calls, ids);
    var replies := RepliesAdded(config, world, OpenRound(s, content, calls, ids), calls, ids, round, 0);
    var step := ProcessFrom(config, world, OpenRound(s, content, calls, ids), calls, ids, round, 0);
    assert IDsOf(echo.calls) == ids;
    if step.stop.None? {
      RoundCompleted(config, s, echo, replies, step.state);
    } else {
      RoundCut(config, s, echo, replies, step.state.messages, step.stop.value);
    }
  }

  lemma RoundCut(config: Config, s: LoopState, echo: Message, replies: seq<Message>, messages: seq<Message>, ending: Ending)
    requires Conversing(config, s) && echo.Echo? && echo.calls != [] && AnswersFirst(echo.calls, replies)
    requires Fresh(IDsOf(echo.calls), s.seenIDs) && messages == s.messages + [echo] + replies
    requires if ending.OutputExhausted? then |replies| < |echo.calls| else replies != []
    ensures CutInsideReply(config, messages, ending)
  {
    hide CompleteRounds, EchoedIDs, IDsOf, Fresh;
    var n := |s.messages|;
    assert messages[..n] == s.messages && messages[n] == echo && messages[n + 1..] == replies;
    assert messages[|config.initial|..n] == s.messages[|config.initial|..];
    assert CutAt(config, messages, n, ending);
  }

  /** The history at the end of a run: complete, or cut inside a reply in the one way there is. */
  ghost predicate EndedProperly(config: Config, out: Outcome) {
    && (forall i | 0 <= i < |out.state.requests| :: WellFormedHistory(config, out.state.requests[i]))
    && (if InsideReply(out.ending) then CutInsideReply(config, out.state.messages, out.ending) else Conversing(config, out.state))
  }

  lemma {:induction false} RoundsConverse(config: Config, world: World, s: LoopState, round: nat)
    requires Conversing(config, s)
    ensures EndedProperly(config, Rounds(config, world, s, round))
    decreases config.limits.maxModelRounds - round + 1
  {
    hide ProcessFrom, WellFormedHistory, Fresh, EchoedIDs, CutInsideReply;
    if round <= config.limits.maxModelRounds && !world.roundExpired(round) {
      var asked := s.(requests := s.requests + [s.messages]);
      match world.provider(round, s.messages)
      case CallFailed(_) =>
      case Malformed =>
      case Reply(content, calls) =>
        var ids := EffectiveIDs(calls, round);
        if calls != [] && Fresh(ids, s.seenIDs) {
          var start := OpenRound(asked, content, calls, ids);
          var step := ProcessFrom(config, world, start, calls, ids, round, 0);
          RoundRan(config, world, asked, content, calls, round);
          if step.stop.None? {
            RoundsConverse(config, world, step.state, round + 1);
          }
        }
    }
  }

  /** Every request the provider ever sees is the initial messages followed by complete
      rounds, with identifiers distinct across the run; and an ambiguous batch leaves no
      trace: the conversation it ends with is the one it was proposed in. */
  lemma ConversationIsWellFormed(config: Config, world: World)
    ensures EndedProperly(config, RunToolLoop(config, world))
  {
    assert config.initial[|config.initial|..] == [];
    if Objection(config).None? {
      RoundsConverse(config, world, StartState(config), 1);
    }
  }

  // ------------------------------------------------- the history and the log

  function ToolReplies(messages: seq<Message>): seq<Message> {
    if messages == [] then []
    else
      var n := |messages| - 1;
      ToolReplies(messages[..n]) + (if messages[n].ToolReply? then [messages[n]] else [])
  }

  /** The message records what the log says of its call: its denial, or a body of its size. */
  predicate Records(reply: Message, entry: Summary) {
    && reply.ToolReply? && reply.callID == entry.id
    && match entry.status
       case Denied(code) => reply.body == DeniedBody(code) && entry.resultBytes == 0
       case _ => |reply.body| == entry.resultBytes
  }

  /** After the initial messages the history holds one tool message per logged call, in order. */
  predicate Recorded(config: Config, s: LoopState) {
    && config.initial <= s.messages
    && var replies := ToolReplies(s.messages[|config.initial|..]);
       |replies| == |s.summaries| && forall i | 0 <= i < |replies| :: Records(replies[i], s.summaries[i])
  }

  lemma ToolRepliesNext(messages: seq<Message>, m: Message)
    ensures ToolReplies(messages + [m]) == ToolReplies(messages) + (if m.ToolReply? then [m] else [])
  {
    assert (messages + [m])[..|messages|] == messages;
  }

  /** A call that is logged has its message added, one that is not has not. */
  lemma CallRecorded(config: Config, world: World, s: LoopState, call: ToolCall, id: string, round: nat, position: nat)
    requires Recorded(config, s)
    ensures Recorded(config, ProcessToolCall(config, world, s, call, id, round, position).state)
  {
    var s' := ProcessToolCall(config, world, s, call, id, round, position).state;
    hide DenialFor, ToolReplies, DeniedBody;
    if s'.messages != s.messages {
      var m := s'.messages[|s.messages|];
      assert s'.messages == s.messages + [m] && m.ToolReply?;
      assert s'.messages[|config.initial|..] == s.messages[|config.initial|..] + [m];
      ToolRepliesNext(s.messages[|config.initial|..], m);
    }
  }

  lemma {:induction false} ReplyRecorded(config: Config, world: World, s: LoopState, calls: seq<ToolCall>,
                                         ids: seq<string>, round: nat, position: nat)
    requires |ids| == |calls| && position <= |calls| && Recorded(config, s)
    ensures Recorded(config, ProcessFrom(config, world, s, calls, ids, round, position).state)
    decreases |calls| - position
  {
    hide ProcessToolCall, Recorded;
    if position < |calls| {
      CallRecorded(config, world, s, calls[position], ids[position], round, position);
      var step := ProcessToolCall(config, world, s, calls[position], ids[position], round, position);
      if step.stop.None? {
        ReplyRecorded(config, world, step.state, calls, ids, round, position + 1);
      }
    }
  }

  lemma EchoRecordsNothing(config: Config, s: LoopState, content: string, calls: seq<ToolCall>, ids: seq<string>)
    requires |ids| == |calls| && Recorded(config, s)
    ensures Recorded(config, OpenRound(s, content, calls, ids))
  {
    hide ToolReplies;
    var echo := EchoOf(content, calls, ids);
    assert (s.messages + [echo])[|config.initial|..] == s.messages[|config.initial|..] + [echo];
    ToolRepliesNext(s.messages[|config.initial|..], echo);
  }

  lemma {:induction false} RoundsRecorded(config: Config, world: World, s: LoopState, round: nat)
    requires Recorded(config, s)
    ensures Recorded(config, Rounds(config, world, s, round).state)
    decreases config.limits.maxModelRounds - round + 1
  {
    hide ProcessFrom, Fresh, ToolReplies, OpenRound;
    if round <= config.limits.maxModelRounds && !world.roundExpired(round) {
      var asked := s.(requests := s.requests + [s.messages]);
      match world.provider(round, s.messages)
      case CallFailed(_) =>
      case Malformed =>
      case Reply(content, calls) =>
        var ids := EffectiveIDs(calls, round);
        if calls != [] && Fresh(ids, s.seenIDs) {
          EchoRecordsNothing(config, asked, content, calls, ids);
          var start := OpenRound(asked, content, calls, ids);
          ReplyRecorded(config, world, start, calls, ids, round, 0);
          var step := ProcessFrom(config, world, start, calls, ids, round, 0);
          if step.stop.None? {
            RoundsRecorded(config, world, step.state, round + 1);
          }
        }
    }
  }

  /** The bytes of the replies to handled calls. */
  function HandledBytes(replies: seq<Message>, log: seq<Summary>): int
    requires |replies| == |log| && forall i | 0 <= i < |log| :: Records(replies[i], log[i])
  {
    if log == [] then 0
    else
      var n := |log| - 1;
      assert Records(replies[n], log[n]);
      HandledBytes(replies[..n], log[..n]) + (if log[n].status.Denied? then 0 else |replies[n].body|)
  }

  lemma {:induction false} HandledBytesAreResultBytes(replies: seq<Message>, log: seq<Summary>)
    requires |replies| == |log| && forall i | 0 <= i < |log| :: Records(replies[i], log[i])
    ensures HandledBytes(replies, log) == ToolLoopProperties.ResultBytes(log)
    decreases |log|
  {
    if log != [] {
      var n := |log| - 1;
      HandledBytesAreResultBytes(replies[..n], log[..n]);
      assert Records(replies[n], log[n]);
    }
  }

  /** However a run ends, its history and its log agree call by call, and the bodies of handled
      calls in the history add up to the recorded bytes, within the run's budget: a result that
      overflows it is never added. */
  lemma HistoryMatchesLog(config: Config, world: World)
    ensures var s := RunToolLoop(config, world).state;
            && Recorded(config, s)
            && HandledBytes(ToolReplies(s.messages[|config.initial|..]), s.summaries) == ToolLoopProperties.ResultBytes(s.summaries)
            && (Objection(config).None? ==> ToolLoopProperties.ResultBytes(s.summaries) <= config.limits.maxTotalResultBytes)
  {
    assert config.initial[|config.initial|..] == [];
    assert Recorded(config, StartState(config));
    hide Rounds, ToolReplies, Objection;
    if Objection(config).None? {
      RoundsRecorded(config, world, StartState(config), 1);
      ToolLoopProperties.RunIsBounded(config, world);
    }
    var s := RunToolLoop(config, world).state;
    HandledBytesAreResultBytes(ToolReplies(s.messages[|config.initial|..]), s.summaries);
  }

  // ------------------------------------------------ synthesised identifiers

  /** Rounds and positions can be read back from a synthesised identifier. */
  lemma LocalIDInjective(round: nat, position: nat, round': nat, position': nat)
    requires LocalID(round, position) == LocalID(round', position')
    ensures round == round' && position == position'
  {
    var parts := LocalIDParts(round, position);
    var parts' := LocalIDParts(round', position');
    assert parts == parts';
    assert parts[1][1..] == Itoa(round) && parts[2][1..] == Itoa(position);
    assert parts'[1][1..] == Itoa(round') && parts'[2][1..] == Itoa(position');
    ItoaInjective(round, round');
    ItoaInjective(position, position');
  }

  lemma LocalIDParts(round: nat, position: nat) returns (parts: seq<string>)
    ensures parts == ["local", "r" + Itoa(round), "c" + Itoa(position)]
    ensures Split(LocalID(round, position), '-') == parts
  {
    parts := ["local", "r" + Itoa(round), "c" + Itoa(position)];
    forall k | 0 <= k < 3 ensures '-' !in parts[k] {
    }
    SplitJoin(parts, '-');
    var last := parts[2..];
    assert parts[1..][1..] == last && Join(last, '-') == parts[2];
    assert Join(parts[1..], '-') == parts[1] + "-" + parts[2];
    assert LocalID(round, position) == Join(parts, '-');
  }

  /** The provider never supplies an identifier of its own. */
  ghost predicate NeverSuppliesIDs(world: World) {
    forall round, messages ::
      world.provider(round, messages).Reply? ==>
        forall i | 0 <= i < |world.provider(round, messages).calls| :: Blank(world.provider(round, messages).calls[i].id)
  }

  ghost predicate SynthesisedBefore(id: string, round: nat) {
    exists r: nat, c: nat :: r < round && id == LocalID(r, c)
  }

  ghost predicate OnlySynthesised(seen: set<string>, round: nat) {
    forall id | id in seen :: SynthesisedBefore(id, round)
  }

  lemma BlankBatchIsFresh(calls: seq<ToolCall>, round: nat, seen: set<string>)
    requires forall i | 0 <= i < |calls| :: Blank(calls[i].id)
    requires OnlySynthesised(seen, round)
    ensures Fresh(EffectiveIDs(calls, round), seen)
    ensures OnlySynthesised(seen + (set id | id in EffectiveIDs(calls, round)), round + 1)
  {
    var ids := EffectiveIDs(calls, round);
    forall i, j | 0 <= i < j < |ids| ensures ids[i] != ids[j] {
      if ids[i] == ids[j] {
        LocalIDInjective(round, i, round, j);
      }
    }
    forall i | 0 <= i < |ids| ensures ids[i] !in seen && SynthesisedBefore(ids[i], round + 1) {
      assert ids[i] == LocalID(round, i);
      if ids[i] in seen {
        var r: nat, c: nat :| r < round && ids[i] == LocalID(r, c);
        LocalIDInjective(round, i, r, c);
      }
    }
    forall id | id in seen ensures SynthesisedBefore(id, round + 1) {
      var r: nat, c: nat :| r < round && id == LocalID(r, c);
      assert r < round + 1;
    }
  }

  lemma {:induction false} BlankRoundsNeverCollide(config: Config, world: World, s: LoopState, round: nat)
    requires NeverSuppliesIDs(world) && OnlySynthesised(s.seenIDs, round)
    ensures !Rounds(config, world, s, round).ending.DuplicateCallID?
    decreases config.limits.maxModelRounds - round + 1
  {
    hide ProcessFrom, EffectiveIDs, OnlySynthesised;
    if round <= config.limits.maxModelRounds && !world.roundExpired(round) {
      var asked := s.(requests := s.requests + [s.messages]);
      match world.provider(round, s.messages)
      case CallFailed(_) =>
      case Malformed =>
      case Reply(content, calls) =>
        if calls != [] {
          var ids := EffectiveIDs(calls, round);
          BlankBatchIsFresh(calls, round, s.seenIDs);
          var start := OpenRound(asked, content, calls, ids);
          var step := ProcessFrom(config, world, start, calls, ids, round, 0);
          var _ := RepliesAdded(config, world, start, calls, ids, round, 0);
          if step.stop.None? {
            BlankRoundsNeverCollide(config, world, step.state, round + 1);
          }
        }
    }
  }

  /** A run whose provider leaves every identifier blank is never denied for duplicates. */
  lemma BlankRunNeverCollides(config: Config, world: World)
    requires NeverSuppliesIDs(world)
    ensures !RunToolLoop(config, world).ending.DuplicateCallID?
  {
    if Objection(config).None? {
      BlankRoundsNeverCollide(config, world, StartState(config), 1);
    }
  }
}
