/** What a run of a job group says about the world: which actions it invoked, in which order,
    with what they answered, with which params, and on whose authority. */
module JobGroupTranscript {
  import opened Wrappers
  import opened Text
  import opened Json
  import opened Identities
  import opened StepParams
  import opened JobGroup
  import opened JobGroupProperties

  // ------------------------------------------------- the steps, one by one

  /** The invocations made for one step, the first of them being number `offset` of the group:
      the step's action with the same params each time, each but the last having failed. Only a
      budget can stop the retries before the first success. */
  predicate Attempted(env: Env, step: Step, invs: seq<Invocation>, offset: nat) {
    && invs != [] && step.action.Some? && |invs| <= 1 + Retries(step)
    && (forall i | 0 <= i < |invs| :: invs[i] == Invocation(step.action.value, invs[0].params))
    && (forall i | 0 <= i < |invs| - 1 :: Answer(env, invs[i], offset + i).Errored?)
    && (LastAnswer(env, invs, offset).Errored? && |invs| < 1 + Retries(step) ==> Enforced(env))
  }

  function Answer(env: Env, inv: Invocation, n: nat): ActionResult {
    env.world.execute(n, inv.action, inv.params)
  }

  function LastAnswer(env: Env, invs: seq<Invocation>, offset: nat): ActionResult
    requires invs != []
  {
    Answer(env, invs[|invs| - 1], offset + |invs| - 1)
  }

  /** The event records what the step's last invocation answered and what the failure policy
      makes of a failure. */
  predicate Witnessed(env: Env, step: Step, invs: seq<Invocation>, offset: nat, event: Event)
    requires invs != []
  {
    match event
    case Completed(result) => LastAnswer(env, invs, offset) == Succeeded(result)
    case Skipped => LastAnswer(env, invs, offset).Errored? && !step.retry.MalformedRetry? && SaysContinue(env.identity)
    case FellBack => LastAnswer(env, invs, offset).Errored? && !step.retry.MalformedRetry? && !SaysContinue(env.identity)
  }

  /** Why a run stops at a step: before invoking its action, because its result could not be
      persisted, or because all its attempts failed with no policy to go on by. */
  predicate Stopped(env: Env, step: Step, invs: seq<Invocation>, offset: nat, failure: Failure) {
    if invs == [] then
      match failure
      case MissingAction => step.action.None?
      case UnknownAction => step.action.Some? && step.action.value !in env.world.registered
      case InjectFailed => env.flags.memoryRuntime
      case GateDenied(_) => step.action.Some?
      case BadConfig => true
      case _ => false
    else
      && Attempted(env, step, invs, offset)
      && match failure
         case PersistFailed => LastAnswer(env, invs, offset).Succeeded? && env.flags.memoryRuntime
         case BadRetry => LastAnswer(env, invs, offset).Errored? && step.retry.MalformedRetry?
         case ActionFailed =>
           LastAnswer(env, invs, offset).Errored? && !step.retry.MalformedRetry?
           && !SaysContinue(env.identity) && !step.fallback.FallbackSteps?
         case _ => false
  }

  /** The steps left after an event: a fallback list replaces all that was left. */
  function StepsAfter(steps: seq<Step>, event: Event): seq<Step>
    requires steps != [] && (event.FellBack? ==> steps[0].fallback.FallbackSteps?)
  {
    if event.FellBack? then steps[0].fallback.steps else steps[1..]
  }

  /** The events and invocations are those of the steps in their order, none left out. A run that
      answers has come to the end of them; one that fails has stopped at a step. */
  ghost predicate Follows(env: Env, steps: seq<Step>, events: seq<Event>, invs: seq<Invocation>, offset: nat, outcome: Result<Json, Failure>)
    decreases |events|
  {
    if events == [] then
      if outcome.Ok? then steps == [] && invs == []
      else steps != [] && Stopped(env, steps[0], invs, offset, outcome.error)
    else
      && steps != [] && (events[0].FellBack? ==> steps[0].fallback.FallbackSteps?)
      && exists n :: 1 <= n <= |invs| && FollowsOne(env, steps[0], invs[..n], offset, events[0])
           && Follows(env, StepsAfter(steps, events[0]), events[1..], invs[n..], offset + n, outcome)
  }

  predicate FollowsOne(env: Env, step: Step, invs: seq<Invocation>, offset: nat, event: Event) {
    Attempted(env, step, invs, offset) && Witnessed(env, step, invs, offset, event)
  }

  /** The invocations a run has added. */
  function Since(before: Run, after: Run): seq<Invocation>
    requires before.invoked <= after.invoked
  {
    after.invoked[|before.invoked|..]
  }

  lemma {:induction false} RetriesMade(env: Env, run: Run, action: string, params: Params, left: int)
    ensures var (result, run') := RetryAttempts(env, run, action, params, left);
            && run.invoked <= run'.invoked && run'.trace == run.trace
            && var made := Since(run, run');
               && |made| <= (if left > 0 then left else 0)
               && (forall i | 0 <= i < |made| :: made[i] == Invocation(action, params))
               && (forall i | 0 <= i < |made| - 1 :: Answer(env, made[i], |run.invoked| + i).Errored?)
               && (made == [] ==> result.Errored?)
               && (made != [] ==> LastAnswer(env, made, |run.invoked|) == result)
               && (result.Errored? && |made| < left ==> Enforced(env))
    decreases left
  {
    hide OverBudget, Attempt, Answer, LastAnswer;
    if left > 0 && InBudget(env, run, action) {
      AttemptMade(env, run, action, params);
      var (result, run') := Attempt(env, run, action, params);
      if result.Errored? {
        RetriesMade(env, run', action, params, left - 1);
        var end := RetryAttempts(env, run', action, params, left - 1).1;
        OneMore(run, run', end, Invocation(action, params));
        LaterAnswers(env, Since(run', end), Invocation(action, params), |run.invoked|);
      } else {
        assert Since(run, run') == [Invocation(action, params)];
        LaterAnswers(env, [], Invocation(action, params), |run.invoked|);
        assert [Invocation(action, params)] + [] == [Invocation(action, params)];
      }
    }
  }

  lemma AttemptMade(env: Env, run: Run, action: string, params: Params)
    ensures var (result, run') := Attempt(env, run, action, params);
            && run'.invoked == run.invoked + [Invocation(action, params)] && run'.trace == run.trace
            && Answer(env, Invocation(action, params), |run.invoked|) == result
  {
  }

  lemma OneMore(run: Run, run': Run, end: Run, inv: Invocation)
    requires run'.invoked == run.invoked + [inv] && run'.invoked <= end.invoked
    ensures run.invoked <= end.invoked && Since(run, end) == [inv] + Since(run', end)
  {
  }

  /** The answers to later invocations are numbered on from the first. */
  lemma LaterAnswers(env: Env, rest: seq<Invocation>, first: Invocation, offset: nat)
    ensures forall i | 0 < i <= |rest| :: Answer(env, ([first] + rest)[i], offset + i) == Answer(env, rest[i - 1], offset + 1 + (i - 1))
    ensures LastAnswer(env, [first] + rest, offset) == if rest == [] then Answer(env, first, offset) else LastAnswer(env, rest, offset + 1)
  {
    hide Answer;
  }

  /** The attempts of one step. */
  lemma PerformMade(env: Env, run: Run, step: Step, params: Params)
    requires step.action.Some?
    ensures var (result, run') := Perform(env, run, step, step.action.value, params);
            && run.invoked <= run'.invoked && run'.trace == run.trace
            && var made := Since(run, run');
               && made != [] && Attempted(env, step, made, |run.invoked|) && made[0].params == params
               && LastAnswer(env, made, |run.invoked|) == result
  {
    hide RetryAttempts, Attempt, Answer;
    var action := step.action.value;
    AttemptMade(env, run, action, params);
    var (first, run') := Attempt(env, run, action, params);
    assert Since(run, run') == [Invocation(action, params)];
    if first.Errored? && step.retry.Retry? {
      RetriesMade(env, run', action, params, step.retry.maxRetries);
      var end := RetryAttempts(env, run', action, params, step.retry.maxRetries).1;
      OneMore(run, run', end, Invocation(action, params));
      LaterAnswers(env, Since(run', end), Invocation(action, params), |run.invoked|);
    }
  }

  /** One step of the interpreter, as the world sees it. */
  lemma AdvanceMade(env: Env, steps: seq<Step>, last: Params, first: bool, run: Run)
    requires steps != []
    ensures match Advance(env, steps, last, first, run)
            case Stop(outcome, end) =>
              && outcome.Err? && end.trace == run.trace && run.invoked <= end.invoked
              && Stopped(env, steps[0], Since(run, end), |run.invoked|, outcome.error)
            case Go(steps', _, _, next) =>
              && run.invoked <= next.invoked && |next.trace| == |run.trace| + 1 && run.trace <= next.trace
              && var event := next.trace[|run.trace|];
                 && FollowsOne(env, steps[0], Since(run, next), |run.invoked|, event)
                 && (event.FellBack? ==> steps[0].fallback.FallbackSteps?)
                 && steps' == StepsAfter(steps, event)
  {
    hide Admit, Perform, Attempted, EffectiveFailurePolicy, SaysContinue;
    ContinueIffSaid(env.identity);
    if Admit(env, steps[0], last, first, run).Ok? {
      AdmittedHasAction(env, steps[0], last, first, run);
      PerformMade(env, run, steps[0], Admit(env, steps[0], last, first, run).value);
    } else {
      RefusedForAReason(env, steps[0], last, first, run);
      assert Since(run, run) == [];
    }
  }

  lemma RefusedForAReason(env: Env, step: Step, last: Params, first: bool, run: Run)
    requires Admit(env, step, last, first, run).Err?
    ensures Stopped(env, step, [], |run.invoked|, Admit(env, step, last, first, run).error)
  {
    hide GateFor, MergePrior, MergeStepInput, Decorate;
  }

  lemma AdmittedHasAction(env: Env, step: Step, last: Params, first: bool, run: Run)
    requires Admit(env, step, last, first, run).Ok?
    ensures step.action.Some?
  {
  }

  /** Every run follows its steps: the actions are invoked in the order of the steps, retries
      and fallback lists included, each completed step carries the result its action gave, and an
      answer comes only after the last step; a run that fails has stopped for the reason given. */
  lemma {:induction false} RunFollowsSteps(env: Env, steps: seq<Step>, last: Params, first: bool, run: Run)
    ensures var (outcome, end) := ExecuteSteps(env, steps, last, first, run);
            && run.invoked <= end.invoked && run.trace <= end.trace
            && Follows(env, steps, end.trace[|run.trace|..], Since(run, end), |run.invoked|, outcome)
    decreases steps
  {
    hide Advance, Attempted, FollowsOne, Stopped;
    var (outcome, end) := ExecuteSteps(env, steps, last, first, run);
    if steps == [] {
      assert end.trace[|run.trace|..] == [] && Since(run, end) == [];
    } else {
      AdvanceMade(env, steps, last, first, run);
      match Advance(env, steps, last, first, run)
      case Stop(_, _) =>
        assert end.trace[|run.trace|..] == [];
      case Go(steps', last', first', next) =>
        RunFollowsSteps(env, steps', last', first', next);
        var events, invs, n := end.trace[|run.trace|..], Since(run, end), |next.invoked| - |run.invoked|;
        FirstOf(run.trace, next.trace, end.trace);
        assert n >= 1 by {
          MadeSome(env, steps[0], Since(run, next), |run.invoked|, events[0]);
        }
        assert invs[..n] == Since(run, next) && invs[n..] == Since(next, end);
        assert FollowsOne(env, steps[0], invs[..n], |run.invoked|, events[0])
            && Follows(env, StepsAfter(steps, events[0]), events[1..], invs[n..], |run.invoked| + n, outcome);
    }
  }

  /** The same for a whole group, unless its time budget cannot be read. */
  lemma GroupFollowsSteps(env: Env, steps: seq<Step>)
    ensures var (outcome, run) := ExecuteGroup(env, steps);
            if Enforced(env) && env.identity.value.constraints.Some? && env.identity.value.constraints.value.timeBudget.UnparsableTimeBudget?
            then outcome == Err(BadTimeBudget) && run.invoked == [] && run.trace == []
            else Follows(env, steps, run.trace, run.invoked, 0, outcome)
  {
    hide ExecuteSteps, Follows;
    var run := ExecuteGroup(env, steps).1;
    if !Enforced(env) || NewBudget(env.identity.value).Some? {
      var budget := if Enforced(env) then NewBudget(env.identity.value).value else Budget(0, 0.0, false, 0, 0);
      var start := Run(budget, [], []);
      RunFollowsSteps(env, steps, map[], true, start);
      assert run.trace[0..] == run.trace && Since(start, run) == run.invoked;
    }
  }

  lemma MadeSome(env: Env, step: Step, invs: seq<Invocation>, offset: nat, event: Event)
    requires FollowsOne(env, step, invs, offset, event)
    ensures invs != []
  {
  }

  lemma FirstOf(a: seq<Event>, b: seq<Event>, c: seq<Event>)
    requires a <= b <= c && |b| == |a| + 1
    ensures c[|a|..] != [] && c[|a|..][0] == b[|a|] && c[|a|..][1..] == c[|b|..]
  {
  }

  // ------------------------------------------------------ what a step receives

  function Has(m: Params, key: string): Option<Json> {
    if key in m then Some(m[key]) else None
  }

  /** A stated value with a prior one folded in: a missing one is taken over, two mappings are
      united with the prior's fields winning, and anything else stands as stated. */
  predicate Folded(stated: Option<Json>, prior: Option<Json>, result: Option<Json>) {
    if stated.None? then result == prior
    else if prior.Some? && stated.value.Obj? && prior.value.Obj? then
      && result.Some? && result.value.Obj?
      && result.value.fields.Keys == stated.value.fields.Keys + prior.value.fields.Keys
      && (forall f | f in result.value.fields ::
            result.value.fields[f] == if f in prior.value.fields then prior.value.fields[f] else stated.value.fields[f])
    else result == stated
  }

  /** What the previous result is folded into: the step's params, under enforcement with the
      runtime config in a mapping, and with what the memory runtime adds to them. */
  function Given(env: Env, step: Step, run: Run): Option<Params> {
    var config := if "config" in step.params then step.params["config"] else Null;
    var stated :=
      if (env.flags.identityEnforcement || env.flags.contractEnforcement) && env.identity.Some? then
        step.params["config" := Obj(env.world.runtimeConfig(config))]
      else step.params;
    if env.flags.memoryRuntime then env.world.inject(|run.invoked|, stated) else Some(stated)
  }

  predicate ConfigFolded(stated: Option<Json>, prior: Option<Json>, result: Option<Json>) {
    if prior.None? || prior.value.Null? then result == stated
    else if stated.None? || stated.value.Null? then prior.value.Obj? && result == prior
    else prior.value.Obj? && stated.value.Obj? && Folded(stated, prior, result)
  }

  /** An admitted step's action receives, key by key, what it is given with the previous result
      folded in. The result's "output" arrives as the step's "input", except at the first step of
      a list; it does not arrive as "output". */
  lemma StepReceives(env: Env, step: Step, last: Params, first: bool, run: Run)
    requires Admit(env, step, last, first, run).Ok?
    ensures Given(env, step, run).Some?
    ensures var given, got := Given(env, step, run).value, Admit(env, step, last, first, run).value;
            && Has(got, "output") == Has(given, "output")
            && (forall k | k != "input" && k != "output" && k != "config" :: Folded(Has(given, k), Has(last, k), Has(got, k)))
            && ConfigFolded(Has(given, "config"), Has(last, "config"), Has(got, "config"))
    ensures var given, got := Given(env, step, run).value, Admit(env, step, last, first, run).value;
            var payload := if "output" in last then last["output"] else Null;
            exists input :: Folded(Has(given, "input"), if first then None else Some(payload), input)
                            && Folded(input, Has(last, "input"), Has(got, "input"))
  {
    Decorated(env, step);
    hide Decorate, GateFor, MergePrior, MergeStepInput;
    AdmittedIsWired(env, step, last, first, run);
    var given, payload := Given(env, step, run).value, Entry(last, OUTPUT);
    var input := if first then given else MergeStepInput(given, payload);
    assert MergePrior(input, last) == Some(Admit(env, step, last, first, run).value);
    InputFolded(given, payload);
    PriorFolded(input, last);
    var got := Admit(env, step, last, first, run).value;
    assert Folded(Has(given, "input"), if first then None else Some(payload), Has(input, "input"))
        && Folded(Has(input, "input"), Has(last, "input"), Has(got, "input"));
  }

  lemma Decorated(env: Env, step: Step)
    ensures Decorate(env, step.params) ==
      if (env.flags.identityEnforcement || env.flags.contractEnforcement) && env.identity.Some? then
        step.params["config" := Obj(env.world.runtimeConfig(if "config" in step.params then step.params["config"] else Null))]
      else step.params
  {
  }

  lemma InputFolded(params: Params, payload: Json)
    ensures var merged := MergeStepInput(params, payload);
            && (forall k | k != "input" :: Has(merged, k) == Has(params, k))
            && Folded(Has(params, "input"), Some(payload), Has(merged, "input"))
  {
  }

  lemma PriorFolded(params: Params, last: Params)
    requires MergePrior(params, last).Some?
    ensures var merged := MergePrior(params, last).value;
            && Has(merged, "output") == Has(params, "output")
            && (forall k | k != "output" && k != "config" :: Folded(Has(params, k), Has(last, k), Has(merged, k)))
            && ConfigFolded(Has(params, "config"), Has(last, "config"), Has(merged, "config"))
  {
    forall k | k != "output" && k != "config"
      ensures Folded(Has(params, k), Has(last, k), Has(MergePrior(params, last).value, k))
    {
      KeyFolded(params, last, k);
    }
    ConfigIsFolded(params, last);
  }

  lemma KeyFolded(params: Params, last: Params, k: string)
    requires MergePrior(params, last).Some? && k != "output" && k != "config"
    ensures Folded(Has(params, k), Has(last, k), Has(MergePrior(params, last).value, k))
  {
  }

  lemma ConfigIsFolded(params: Params, last: Params)
    requires MergePrior(params, last).Some?
    ensures ConfigFolded(Has(params, "config"), Has(last, "config"), Has(MergePrior(params, last).value, "config"))
  {
  }
}
