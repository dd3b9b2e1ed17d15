/** A whole job configuration: serial groups in definition order, parallel groups finishing
    in any order, one combined result (executeJobsWithContextResult, pkg/agent/setup.go). */
module JobResults {
  import opened Wrappers
  import opened Text
  import opened Json
  import JobGroup

  // -------------------------------------------------------------- the data

  /** A group, whether its first step's params can be seeded, and what executing it yields. */
  datatype Group = Group(name: string, process: string, seedable: bool, outcome: Result<Json, JobGroup.Failure>)

  datatype JobError = SeedError(name: string) | GroupError(name: string, failure: JobGroup.Failure)

  /** One message on the channel of parallel outcomes. */
  datatype Arrival = Arrival(key: string, outcome: Result<Json, JobError>)

  predicate Parallel(group: Group) {
    ToLower(TrimSpace(group.process)) == "parallel"
  }

  function OutcomeOf(group: Group): Result<Json, JobError> {
    match group.outcome
    case Ok(terminal) => Ok(terminal)
    case Err(failure) => Err(GroupError(group.name, failure))
  }

  // ------------------------------------------------------------ result keys

  function Label(groups: seq<Group>, i: nat): string
    requires i < |groups|
  {
    if Blank(groups[i].name) then "group-" + Itoa(i) else TrimSpace(groups[i].name)
  }

  function Labels(groups: seq<Group>): (labels: seq<string>)
    ensures |labels| == |groups|
  {
    seq(|groups|, i requires 0 <= i < |groups| => Label(groups, i))
  }

  function Count(labels: seq<string>, lbl: string): nat {
    if labels == [] then 0
    else Count(labels[..|labels| - 1], lbl) + (if labels[|labels| - 1] == lbl then 1 else 0)
  }

  /** Which occurrence of its label position `i` is, counted from one. */
  function Occurrence(labels: seq<string>, i: nat): nat
    requires i < |labels|
  {
    Count(labels[..i + 1], labels[i])
  }

  function Suffixed(lbl: string, n: nat): string {
    lbl + "#" + Itoa(n)
  }

  function Key(labels: seq<string>, i: nat): string
    requires i < |labels|
  {
    if Occurrence(labels, i) > 1 then Suffixed(labels[i], Occurrence(labels, i)) else labels[i]
  }

  function Keys(groups: seq<Group>): (keys: seq<string>)
    ensures |keys| == |groups|
  {
    seq(|groups|, i requires 0 <= i < |groups| => Key(Labels(groups), i))
  }

  lemma CountExtends(labels: seq<string>, i: nat, lbl: string)
    requires i < |labels|
    ensures Count(labels[..i + 1], lbl) == Count(labels[..i], lbl) + (if labels[i] == lbl then 1 else 0)
  {
    assert labels[..i + 1][..i] == labels[..i];
  }

  /** The table holds how often each label occurs. */
  ghost predicate Tallies(seen: map<string, nat>, labels: seq<string>) {
    forall lbl :: Count(labels, lbl) == if lbl in seen then seen[lbl] else 0
  }

  lemma KeyAt(groups: seq<Group>, i: nat)
    requires i < |groups|
    ensures Labels(groups)[i] == var name := TrimSpace(groups[i].name); if name == "" then "group-" + Itoa(i) else name
    ensures var labels := Labels(groups);
            Keys(groups)[i] == if Occurrence(labels, i) > 1 then Suffixed(labels[i], Occurrence(labels, i)) else labels[i]
  {
    hide TrimSpace, Occurrence, Suffixed, Itoa;
  }

  lemma NothingSeen()
    ensures Tallies(map[], [])
  {
  }

  lemma Tallied(seen: map<string, nat>, labels: seq<string>, i: nat)
    requires i < |labels| && Tallies(seen, labels[..i])
    ensures var n := if labels[i] in seen then seen[labels[i]] + 1 else 1;
            Occurrence(labels, i) == n && Tallies(seen[labels[i] := n], labels[..i + 1])
  {
    hide Count;
    forall lbl ensures Count(labels[..i + 1], lbl) == Count(labels[..i], lbl) + (if labels[i] == lbl then 1 else 0) {
      CountExtends(labels, i, lbl);
    }
  }

  /** groupResultKeys: one pass with a table of how often each label was seen. */
  method GroupResultKeys(groups: seq<Group>) returns (keys: seq<string>)
    ensures keys == Keys(groups)
  {
    hide TrimSpace, Itoa, Suffixed, Tallies, Occurrence, Labels, Label, Keys, Key;
    ghost var labels := Labels(groups);
    keys := [];
    var seen: map<string, nat> := map[];
    NothingSeen();
    for i := 0 to |groups|
      invariant keys == Keys(groups)[..i]
      invariant Tallies(seen, labels[..i])
    {
      KeyAt(groups, i);
      var name := TrimSpace(groups[i].name);
      if name == "" {
        name := "group-" + Itoa(i);
      }
      Tallied(seen, labels, i);
      var n := if name in seen then seen[name] + 1 else 1;
      seen := seen[name := n];
      if n > 1 {
        name := Suffixed(name, n);
      }
      keys := keys + [name];
    }
  }

  // ------------------------------------------- combining, in arrival order

  /** The first group, in definition order, that cannot be seeded or fails serially. */
  function SerialFailure(groups: seq<Group>): Option<JobError> {
    if groups == [] then None
    else if !groups[0].seedable then Some(SeedError(groups[0].name))
    else if !Parallel(groups[0]) && OutcomeOf(groups[0]).Err? then Some(OutcomeOf(groups[0]).error)
    else SerialFailure(groups[1..])
  }

  function FailuresByKey(arrivals: seq<Arrival>): map<string, JobError> {
    if arrivals == [] then map[]
    else
      var before, latest := FailuresByKey(arrivals[..|arrivals| - 1]), arrivals[|arrivals| - 1];
      if latest.outcome.Err? then before[latest.key := latest.outcome.error] else before
  }

  function PayloadsByKey(arrivals: seq<Arrival>): map<string, Json> {
    if arrivals == [] then map[]
    else
      var before, latest := PayloadsByKey(arrivals[..|arrivals| - 1]), arrivals[|arrivals| - 1];
      if latest.outcome.Ok? then before[latest.key := latest.outcome.value] else before
  }

  function ArrivalOf(groups: seq<Group>, i: nat): Arrival
    requires i < |groups|
  {
    Arrival(Keys(groups)[i], OutcomeOf(groups[i]))
  }

  /** Serial outcomes in definition order, as messages of the same shape. */
  function Serials(groups: seq<Group>, n: nat): seq<Arrival>
    requires n <= |groups|
  {
    if n == 0 then []
    else Serials(groups, n - 1) + (if Parallel(groups[n - 1]) then [] else [ArrivalOf(groups, n - 1)])
  }

  function FirstFailure(keys: seq<string>, failures: map<string, JobError>): Option<JobError> {
    if keys == [] then None
    else if keys[0] in failures then Some(failures[keys[0]])
    else FirstFailure(keys[1..], failures)
  }

  function LastTerminal(serials: seq<Arrival>): Json
    requires serials != []
  {
    match serials[|serials| - 1].outcome
    case Ok(terminal) => terminal
    case Err(_) => Null
  }

  /** The result computed from the messages in the order they arrived. */
  function Combine(groups: seq<Group>, arrivals: seq<Arrival>): Result<Json, JobError> {
    match SerialFailure(groups)
    case Some(error) => Err(error)
    case None =>
      match FirstFailure(Keys(groups), FailuresByKey(arrivals))
      case Some(error) => Err(error)
      case None =>
        var serials := Serials(groups, |groups|);
        if |serials| == |groups| then
          Ok(if serials == [] then Obj(map[]) else LastTerminal(serials))
        else Ok(Obj(PayloadsByKey(serials) + PayloadsByKey(arrivals)))
  }

  /** `order` lists every parallel group once, in the order the groups finish. */
  predicate FinishingOrder(groups: seq<Group>, order: seq<nat>) {
    && (forall k | 0 <= k < |order| :: order[k] < |groups| && Parallel(groups[order[k]]))
    && (forall i | 0 <= i < |groups| && Parallel(groups[i]) :: i in order)
    && (forall k, l | 0 <= k < l < |order| :: order[k] != order[l])
  }

  function Arrivals(groups: seq<Group>, order: seq<nat>): (arrivals: seq<Arrival>)
    requires FinishingOrder(groups, order)
    ensures |arrivals| == |order|
  {
    seq(|order|, k requires 0 <= k < |order| => ArrivalOf(groups, order[k]))
  }

  /** The loop over the groups: serial ones run in place, parallel ones are only launched. */
  method RunSerialGroups(groups: seq<Group>, keys: seq<string>) returns (serials: Result<seq<Arrival>, JobError>)
    requires keys == Keys(groups)
    ensures SerialFailure(groups).Some? <==> serials.Err?
    ensures serials.Err? ==> SerialFailure(groups) == Some(serials.error)
    ensures serials.Ok? ==> serials.value == Serials(groups, |groups|) && Successes(serials.value)
  {
    hide Parallel, Keys;
    var outcomes: seq<Arrival> := [];
    for i := 0 to |groups|
      invariant SerialFailure(groups) == SerialFailure(groups[i..])
      invariant outcomes == Serials(groups, i) && Successes(outcomes)
    {
      assert groups[i..][0] == groups[i] && groups[i..][1..] == groups[i + 1..];
      if !groups[i].seedable {
        return Err(SeedError(groups[i].name));
      }
      if !Parallel(groups[i]) {
        match groups[i].outcome {
          case Err(failure) =>
            return Err(GroupError(groups[i].name, failure));
          case Ok(terminal) =>
            outcomes := outcomes + [Arrival(keys[i], Ok(terminal))];
        }
      }
    }
    serials := Ok(outcomes);
  }

  predicate Successes(arrivals: seq<Arrival>) {
    forall k | 0 <= k < |arrivals| :: arrivals[k].outcome.Ok?
  }

  /** The loop over the channel. */
  method CollectParallel(groups: seq<Group>, keys: seq<string>, order: seq<nat>)
    returns (payloads: map<string, Json>, failures: map<string, JobError>)
    requires keys == Keys(groups) && FinishingOrder(groups, order)
    ensures payloads == PayloadsByKey(Arrivals(groups, order))
    ensures failures == FailuresByKey(Arrivals(groups, order))
  {
    hide Keys;
    ghost var arrivals := Arrivals(groups, order);
    payloads, failures := map[], map[];
    for k := 0 to |order|
      invariant payloads == PayloadsByKey(arrivals[..k])
      invariant failures == FailuresByKey(arrivals[..k])
    {
      assert arrivals[..k + 1][..k] == arrivals[..k];
      var arrival := Arrival(keys[order[k]], OutcomeOf(groups[order[k]]));
      assert arrival == arrivals[k];
      match arrival.outcome {
        case Err(error) => failures := failures[arrival.key := error];
        case Ok(terminal) => payloads := payloads[arrival.key := terminal];
      }
    }
    assert arrivals[..|order|] == arrivals;
  }

  /** The whole execution, failures chosen in definition order. */
  method ExecuteJobs(groups: seq<Group>, order: seq<nat>) returns (result: Result<Json, JobError>)
    requires FinishingOrder(groups, order)
    ensures result == Combine(groups, Arrivals(groups, order))
  {
    hide Keys, Serials, PayloadsByKey, FailuresByKey, FinishingOrder, SerialFailure;
    var keys := GroupResultKeys(groups);
    var serials := RunSerialGroups(groups, keys);
    if serials.Err? {
      return Err(serials.error);
    }
    var parallelByKey, parallelErrs := CollectParallel(groups, keys, order);
    for i := 0 to |keys|
      invariant FirstFailure(keys, parallelErrs) == FirstFailure(keys[i..], parallelErrs)
    {
      assert keys[i..][0] == keys[i] && keys[i..][1..] == keys[i + 1..];
      if keys[i] in parallelErrs {
        return Err(parallelErrs[keys[i]]);
      }
    }
    if |serials.value| == |groups| {
      return Ok(if serials.value == [] then Obj(map[]) else LastTerminal(serials.value));
    }
    var combined := PayloadMap(serials.value);
    result := Ok(Obj(combined + parallelByKey));
  }

  method PayloadMap(serials: seq<Arrival>) returns (combined: map<string, Json>)
    requires Successes(serials)
    ensures combined == PayloadsByKey(serials)
  {
    combined := map[];
    for k := 0 to |serials|
      invariant combined == PayloadsByKey(serials[..k])
    {
      assert serials[..k + 1][..k] == serials[..k];
      combined := combined[serials[k].key := serials[k].outcome.value];
    }
    assert serials[..|serials|] == serials;
  }
}
