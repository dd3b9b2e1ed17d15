/** The agent registry, its trigger indexes and trigger lookup
    (pkg/agent/registry.go, pkg/agent/setup.go). */
module TriggerIndex {
  import opened Wrappers
  import opened Text

  // -------------------------------------------------------------- the data

  datatype Job = Job(name: string, triggerType: string, triggerName: string)

  datatype AgentIdentity = AgentIdentity(agentID: string, name: string)

  datatype Agent = Agent(identity: AgentIdentity, jobs: seq<Job>)

  datatype RegisterError = MissingAgentID | MissingName | DuplicateAgentID | DuplicateName

  /** One answer of a lookup: an agent with its matching jobs, or a job held by no agent. */
  datatype Match = Match(identity: Option<AgentIdentity>, jobs: seq<Job>)

  function ID(a: Agent): string {
    TrimSpace(a.identity.agentID)
  }

  function Name(a: Agent): string {
    TrimSpace(a.identity.name)
  }

  function TypeOf(triggerType: string): string {
    ToLower(TrimSpace(triggerType))
  }

  /** triggerKey; the ':' makes different selectors share a key. */
  function TriggerKey(triggerType: string, triggerName: string): string {
    TypeOf(triggerType) + ":" + TrimSpace(triggerName)
  }

  predicate Matches(job: Job, triggerType: string, triggerName: string) {
    TypeOf(job.triggerType) == TypeOf(triggerType) && TrimSpace(job.triggerName) == TrimSpace(triggerName)
  }

  // --------------------------------------------------- what the indexes hold

  /** The job is indexed under this key. */
  predicate Keyed(job: Job, key: string) {
    !Blank(job.triggerName) && TriggerKey(job.triggerType, job.triggerName) == key
  }

  predicate HasKey(jobs: seq<Job>, key: string) {
    exists i :: 0 <= i < |jobs| && Keyed(jobs[i], key)
  }

  /** Job i brings its agent into the index of its own trigger type: it is of that type and no
      earlier job of the agent has the same key. */
  predicate Introduces(jobs: seq<Job>, i: nat, kind: string, name: string)
    requires i < |jobs|
  {
    && !Blank(jobs[i].triggerName)
    && TypeOf(jobs[i].triggerType) == kind && TrimSpace(jobs[i].triggerName) == name
    && !HasKey(jobs[..i], TriggerKey(jobs[i].triggerType, jobs[i].triggerName))
  }

  predicate IntroducesAny(jobs: seq<Job>, kind: string, name: string) {
    exists i :: 0 <= i < |jobs| && Introduces(jobs, i, kind, name)
  }

  function Indexed(agents: seq<Agent>, key: string): seq<Agent> {
    if agents == [] then []
    else
      var n := |agents| - 1;
      Indexed(agents[..n], key) + (if HasKey(agents[n].jobs, key) then [agents[n]] else [])
  }

  function IndexedByType(agents: seq<Agent>, kind: string, name: string): seq<Agent> {
    if agents == [] then []
    else
      var n := |agents| - 1;
      IndexedByType(agents[..n], kind, name) + (if IntroducesAny(agents[n].jobs, kind, name) then [agents[n]] else [])
  }

  /** A Go map of slices: an absent key reads as the empty slice. */
  function Bucket(index: map<string, seq<Agent>>, key: string): seq<Agent> {
    if key in index then index[key] else []
  }

  // --------------------------------------------------------- linear search

  function MatchingJobs(jobs: seq<Job>, triggerType: string, triggerName: string): seq<Job> {
    if jobs == [] then []
    else
      var n := |jobs| - 1;
      MatchingJobs(jobs[..n], triggerType, triggerName) + (if Matches(jobs[n], triggerType, triggerName) then [jobs[n]] else [])
  }

  /** The agents having a matching job, each with exactly its matching jobs. */
  function Scan(agents: seq<Agent>, triggerType: string, triggerName: string): seq<Match> {
    if agents == [] then []
    else
      var n := |agents| - 1;
      var jobs := MatchingJobs(agents[n].jobs, triggerType, triggerName);
      Scan(agents[..n], triggerType, triggerName) + (if jobs == [] then [] else [Match(Some(agents[n].identity), jobs)])
  }

  /** Each matching job on its own. */
  function ScanJobs(jobs: seq<Job>, triggerType: string, triggerName: string): seq<Match> {
    if jobs == [] then []
    else
      var n := |jobs| - 1;
      ScanJobs(jobs[..n], triggerType, triggerName)
      + (if Matches(jobs[n], triggerType, triggerName) then [Match(None, [jobs[n]])] else [])
  }

  /** What a lookup answers: agents first, and single jobs when there are none. */
  function Answer(agents: seq<Agent>, jobs: seq<Job>, triggerType: string, triggerName: string): seq<Match> {
    var found := Scan(agents, triggerType, triggerName);
    if found != [] then found else ScanJobs(jobs, triggerType, triggerName)
  }

  // ------------------------------------------------------------- the registry

  predicate IdentitiesIndexed(agents: seq<Agent>, byID: map<string, Agent>, byName: map<string, Agent>) {
    && (forall i | 0 <= i < |agents| :: ID(agents[i]) != "" && Name(agents[i]) != "")
    && (forall i, j | 0 <= i < j < |agents| :: ID(agents[i]) != ID(agents[j]) && Name(agents[i]) != Name(agents[j]))
    && (forall i | 0 <= i < |agents| :: ID(agents[i]) in byID && byID[ID(agents[i])] == agents[i])
    && (forall i | 0 <= i < |agents| :: Name(agents[i]) in byName && byName[Name(agents[i])] == agents[i])
    && (forall k | k in byID :: byID[k] in agents && ID(byID[k]) == k)
    && (forall k | k in byName :: byName[k] in agents && Name(byName[k]) == k)
  }

  ghost predicate TriggersIndexed(agents: seq<Agent>, byEvent: map<string, seq<Agent>>,
                                  byManual: map<string, seq<Agent>>, byAnyTrigger: map<string, seq<Agent>>) {
    && (forall k :: Bucket(byAnyTrigger, k) == Indexed(agents, k))
    && (forall name :: Bucket(byEvent, name) == IndexedByType(agents, "event", name))
    && (forall name :: Bucket(byManual, name) == IndexedByType(agents, "manual", name))
  }

  class AgentRegistry {
    var ordered: seq<Agent>
    var byID: map<string, Agent>
    var byName: map<string, Agent>
    var byEvent: map<string, seq<Agent>>
    var byManual: map<string, seq<Agent>>
    var byAnyTrigger: map<string, seq<Agent>>

    /** Every index is determined by the agents in registration order. */
    ghost predicate Valid()
      reads this
    {
      IdentitiesIndexed(ordered, byID, byName) && TriggersIndexed(ordered, byEvent, byManual, byAnyTrigger)
    }

    constructor ()
      ensures Valid() && ordered == []
    {
      ordered, byID, byName, byEvent, byManual, byAnyTrigger := [], map[], map[], map[], map[], map[];
    }

    /** A rejected agent leaves every index as it was; an accepted one is entered in all. */
    method Register(agent: Agent) returns (outcome: Result<(), RegisterError>)
      requires Valid()
      modifies this
      ensures Valid()
      ensures outcome.Ok? <==> ID(agent) != "" && Name(agent) != ""
                               && forall i | 0 <= i < |old(ordered)| ::
                                    ID(old(ordered)[i]) != ID(agent) && Name(old(ordered)[i]) != Name(agent)
      ensures outcome.Ok? ==> ordered == old(ordered) + [agent]
      ensures outcome.Err? ==> unchanged(this)
    {
      hide ID, Name, TriggersIndexed, IdentitiesIndexed;
      IdentitiesKnown(ordered, byID, byName);
      var agentID, agentName := ID(agent), Name(agent);
      if agentID == "" {
        return Err(MissingAgentID);
      }
      if agentName == "" {
        return Err(MissingName);
      }
      if agentID in byID {
        return Err(DuplicateAgentID);
      }
      if agentName in byName {
        return Err(DuplicateName);
      }
      IdentityEntered(ordered, byID, byName, agent);
      byID := byID[agentID := agent];
      byName := byName[agentName := agent];
      ordered := ordered + [agent];
      assert ordered[..|ordered| - 1] == old(ordered);
      IndexJobs(agent);
      outcome := Ok(());
    }

    /** The loop of Register over the jobs of the agent just appended. */
    method IndexJobs(agent: Agent)
      requires ordered != [] && ordered[|ordered| - 1] == agent
      requires TriggersIndexed(ordered[..|ordered| - 1], byEvent, byManual, byAnyTrigger)
      modifies this`byEvent, this`byManual, this`byAnyTrigger
      ensures TriggersIndexed(ordered, byEvent, byManual, byAnyTrigger)
    {
      NoProgress(byAnyTrigger, agent);
      NoProgress(byEvent, agent);
      NoProgress(byManual, agent);
      hide TypeOf, TrimSpace, HasKey, IntroducesAny, KeyProgress, TypeProgress, TriggersIndexed, Bucket;
      ghost var anyTrigger, event, manual := byAnyTrigger, byEvent, byManual;
      var seen: set<string> := {};
      for n := 0 to |agent.jobs|
        invariant forall k :: k in seen <==> HasKey(agent.jobs[..n], k)
        invariant KeyProgress(byAnyTrigger, anyTrigger, agent.jobs[..n], agent)
        invariant TypeProgress(byEvent, event, agent.jobs[..n], "event", agent)
        invariant TypeProgress(byManual, manual, agent.jobs[..n], "manual", agent)
      {
        var job := agent.jobs[n];
        var name := TrimSpace(job.triggerName);
        var kind := TypeOf(job.triggerType);
        var key := TriggerKey(kind, name);
        TypeIsStable(job.triggerType);
        TypeIsStable(job.triggerName);
        assert key == TriggerKey(job.triggerType, job.triggerName) by {
          assert TriggerKey(kind, name) == TypeOf(kind) + ":" + TrimSpace(name);
        }
        NextJobKeys(agent.jobs[..n], job);
        KeyStep(byAnyTrigger, anyTrigger, agent.jobs[..n], job, agent);
        TypeStep(byEvent, event, agent.jobs[..n], job, "event", agent);
        TypeStep(byManual, manual, agent.jobs[..n], job, "manual", agent);
        assert agent.jobs[..n + 1] == agent.jobs[..n] + [job];
        if name == "" || key in seen {
          continue;
        }
        seen := seen + {key};
        byAnyTrigger := byAnyTrigger[key := Bucket(byAnyTrigger, key) + [agent]];
        if kind == "event" {
          byEvent := byEvent[name := Bucket(byEvent, name) + [agent]];
        } else if kind == "manual" {
          byManual := byManual[name := Bucket(byManual, name) + [agent]];
        }
      }
      assert agent.jobs[..|agent.jobs|] == agent.jobs;
      AllProgress(ordered, event, manual, anyTrigger, byEvent, byManual, byAnyTrigger);
    }

    method GetByID(id: string) returns (found: Option<Agent>)
      requires Valid()
      ensures forall a :: found == Some(a) <==> a in ordered && ID(a) == TrimSpace(id)
    {
      var key := TrimSpace(id);
      found := if key in byID then Some(byID[key]) else None;
    }

    method GetByName(name: string) returns (found: Option<Agent>)
      requires Valid()
      ensures forall a :: found == Some(a) <==> a in ordered && Name(a) == TrimSpace(name)
    {
      var key := TrimSpace(name);
      found := if key in byName then Some(byName[key]) else None;
    }

    method GetByTrigger(triggerType: string, triggerName: string) returns (agents: seq<Agent>)
      requires Valid()
      ensures agents == Indexed(ordered, TriggerKey(triggerType, triggerName))
    {
      agents := Bucket(byAnyTrigger, TriggerKey(triggerType, triggerName));
    }
  }

  lemma IdentitiesKnown(agents: seq<Agent>, byID: map<string, Agent>, byName: map<string, Agent>)
    requires IdentitiesIndexed(agents, byID, byName)
    ensures forall id :: id in byID <==> exists i :: 0 <= i < |agents| && ID(agents[i]) == id
    ensures forall name :: name in byName <==> exists i :: 0 <= i < |agents| && Name(agents[i]) == name
  {
    hide ID, Name;
    forall id | id in byID ensures exists i :: 0 <= i < |agents| && ID(agents[i]) == id {
      var i :| 0 <= i < |agents| && agents[i] == byID[id];
    }
    forall name | name in byName ensures exists i :: 0 <= i < |agents| && Name(agents[i]) == name {
      var i :| 0 <= i < |agents| && agents[i] == byName[name];
    }
  }

  lemma IdentityEntered(agents: seq<Agent>, byID: map<string, Agent>, byName: map<string, Agent>, agent: Agent)
    requires IdentitiesIndexed(agents, byID, byName)
    requires ID(agent) != "" && Name(agent) != "" && ID(agent) !in byID && Name(agent) !in byName
    ensures IdentitiesIndexed(agents + [agent], byID[ID(agent) := agent], byName[Name(agent) := agent])
  {
    hide ID, Name;
  }

  function Entered(bucket: seq<Agent>, enter: bool, agent: Agent): seq<Agent> {
    if enter then bucket + [agent] else bucket
  }

  /** The keys of these jobs of the agent have been entered into the index. */
  ghost predicate KeyProgress(now: map<string, seq<Agent>>, before: map<string, seq<Agent>>, jobs: seq<Job>, agent: Agent) {
    forall k :: Bucket(now, k) == Entered(Bucket(before, k), HasKey(jobs, k), agent)
  }

  ghost predicate TypeProgress(now: map<string, seq<Agent>>, before: map<string, seq<Agent>>, jobs: seq<Job>,
                               kind: string, agent: Agent) {
    forall name :: Bucket(now, name) == Entered(Bucket(before, name), IntroducesAny(jobs, kind, name), agent)
  }

  lemma NoProgress(index: map<string, seq<Agent>>, agent: Agent)
    ensures KeyProgress(index, index, agent.jobs[..0], agent)
    ensures TypeProgress(index, index, agent.jobs[..0], "event", agent)
    ensures TypeProgress(index, index, agent.jobs[..0], "manual", agent)
    ensures forall k :: !HasKey(agent.jobs[..0], k)
  {
  }

  lemma KeyStep(now: map<string, seq<Agent>>, before: map<string, seq<Agent>>, jobs: seq<Job>, job: Job, agent: Agent)
    requires KeyProgress(now, before, jobs, agent)
    ensures var key := TriggerKey(job.triggerType, job.triggerName);
            KeyProgress(if Blank(job.triggerName) || HasKey(jobs, key) then now else now[key := Bucket(now, key) + [agent]],
                        before, jobs + [job], agent)
  {
    NextJobKeys(jobs, job);
    hide TrimSpace, ToLower, TriggerKey, HasKey, IntroducesAny;
  }

  lemma TypeStep(now: map<string, seq<Agent>>, before: map<string, seq<Agent>>, jobs: seq<Job>, job: Job,
                 kind: string, agent: Agent)
    requires TypeProgress(now, before, jobs, kind, agent)
    ensures var name := TrimSpace(job.triggerName);
            var skipped := Blank(job.triggerName) || HasKey(jobs, TriggerKey(job.triggerType, job.triggerName));
            TypeProgress(if skipped || TypeOf(job.triggerType) != kind then now else now[name := Bucket(now, name) + [agent]],
                         before, jobs + [job], kind, agent)
  {
    NextJobTypes(jobs, job, kind);
    var name := TrimSpace(job.triggerName);
    assert TriggerKey(job.triggerType, job.triggerName) == TypeOf(job.triggerType) + ":" + name;
    hide TrimSpace, ToLower, TriggerKey, HasKey, IntroducesAny;
  }

  lemma AllProgress(agents: seq<Agent>, event: map<string, seq<Agent>>, manual: map<string, seq<Agent>>,
                    anyTrigger: map<string, seq<Agent>>, event': map<string, seq<Agent>>,
                    manual': map<string, seq<Agent>>, anyTrigger': map<string, seq<Agent>>)
    requires agents != []
    requires TriggersIndexed(agents[..|agents| - 1], event, manual, anyTrigger)
    requires KeyProgress(anyTrigger', anyTrigger, agents[|agents| - 1].jobs, agents[|agents| - 1])
    requires TypeProgress(event', event, agents[|agents| - 1].jobs, "event", agents[|agents| - 1])
    requires TypeProgress(manual', manual, agents[|agents| - 1].jobs, "manual", agents[|agents| - 1])
    ensures TriggersIndexed(agents, event', manual', anyTrigger')
  {
    hide HasKey, IndexedByType, TypeProgress, IntroducesAny;
    TypeIndexed(agents, event, event', "event");
    TypeIndexed(agents, manual, manual', "manual");
  }

  lemma TypeIndexed(agents: seq<Agent>, before: map<string, seq<Agent>>, now: map<string, seq<Agent>>, kind: string)
    requires agents != []
    requires forall name :: Bucket(before, name) == IndexedByType(agents[..|agents| - 1], kind, name)
    requires TypeProgress(now, before, agents[|agents| - 1].jobs, kind, agents[|agents| - 1])
    ensures forall name :: Bucket(now, name) == IndexedByType(agents, kind, name)
  {
    hide IntroducesAny;
  }

  /** How one more job changes the keys its agent is indexed under. */
  lemma NextJobKeys(jobs: seq<Job>, job: Job)
    ensures var key := TriggerKey(job.triggerType, job.triggerName);
            forall k :: HasKey(jobs + [job], k) <==> HasKey(jobs, k) || (!Blank(job.triggerName) && k == key)
  {
    hide TrimSpace, ToLower;
    var all := jobs + [job];
    forall k ensures HasKey(all, k) <==> HasKey(jobs, k) || Keyed(job, k) {
      if HasKey(jobs, k) {
        var i :| 0 <= i < |jobs| && Keyed(jobs[i], k);
        assert Keyed(all[i], k);
      }
      if Keyed(job, k) {
        assert Keyed(all[|jobs|], k);
      }
    }
  }

  lemma NextJobTypes(jobs: seq<Job>, job: Job, kind: string)
    ensures forall name :: IntroducesAny(jobs + [job], kind, name) <==>
              IntroducesAny(jobs, kind, name)
              || (!Blank(job.triggerName) && !HasKey(jobs, TriggerKey(job.triggerType, job.triggerName))
                  && kind == TypeOf(job.triggerType) && name == TrimSpace(job.triggerName))
    ensures forall name :: !HasKey(jobs, kind + ":" + name) ==> !IntroducesAny(jobs, kind, name)
  {
    hide TrimSpace, ToLower;
    var all := jobs + [job];
    assert all[..|jobs|] == jobs;
    forall i | 0 <= i < |jobs| ensures all[..i] == jobs[..i] && all[i] == jobs[i] {
    }
    forall name
      ensures IntroducesAny(all, kind, name) <==> IntroducesAny(jobs, kind, name) || Introduces(all, |jobs|, kind, name)
    {
      if IntroducesAny(jobs, kind, name) {
        var i :| 0 <= i < |jobs| && Introduces(jobs, i, kind, name);
        assert Introduces(all, i, kind, name);
      }
      if IntroducesAny(all, kind, name) {
        var i :| 0 <= i < |all| && Introduces(all, i, kind, name);
        assert i < |jobs| ==> Introduces(jobs, i, kind, name);
      }
    }
    forall name | IntroducesAny(jobs, kind, name) ensures HasKey(jobs, kind + ":" + name) {
      var i :| 0 <= i < |jobs| && Introduces(jobs, i, kind, name);
      assert Keyed(jobs[i], kind + ":" + name);
    }
  }

  /** Normalising a trigger type twice changes nothing. */
  lemma TypeIsStable(triggerType: string)
    ensures TypeOf(TypeOf(triggerType)) == TypeOf(triggerType)
    ensures TrimSpace(TrimSpace(triggerType)) == TrimSpace(triggerType)
  {
    LowerKeepsTrimmed(TrimSpace(triggerType));
    LowerFixed(TypeOf(triggerType));
  }

  // -------------------------------------------------------- trigger lookup

  class JobConfig {
    const registry: AgentRegistry
    var jobs: seq<Job>
    ghost const legacy: seq<Job>

    /** Apart from the jobs listed directly to begin with, every listed job is held by a
        registered agent. */
    ghost predicate Valid()
      reads this, registry
    {
      && registry.Valid()
      && legacy <= jobs && HeldByAgents(jobs[|legacy|..], registry.ordered)
    }

    constructor (legacyJobs: seq<Job>)
      ensures Valid() && fresh(registry) && registry.ordered == [] && jobs == legacyJobs && legacy == legacyJobs
    {
      registry := new AgentRegistry();
      jobs := legacyJobs;
      legacy := legacyJobs;
    }

    /** RegisterAgentE, for an agent that has been normalised. */
    method RegisterAgent(agent: Agent) returns (outcome: Result<(), RegisterError>)
      requires Valid()
      modifies this, registry
      ensures Valid()
      ensures outcome.Ok? ==> registry.ordered == old(registry.ordered) + [agent] && jobs == old(jobs) + agent.jobs
      ensures outcome.Err? ==> unchanged(this) && unchanged(registry)
    {
      hide IdentitiesIndexed, TriggersIndexed, HeldByAgents;
      outcome := registry.Register(agent);
      if outcome.Ok? {
        RegisteringKeepsHeld(jobs[|legacy|..], old(registry.ordered), agent);
        jobs := jobs + agent.jobs;
        assert jobs[|legacy|..] == old(jobs)[|legacy|..] + agent.jobs;
      }
    }

    /** The indexed lookup with its filter and its fallback. */
    method GetAgentsByTrigger(triggerType: string, triggerName: string) returns (agents: seq<Match>, found: bool)
      requires Valid()
      ensures agents == Answer(Indexed(registry.ordered, TriggerKey(triggerType, triggerName)), jobs, triggerType, triggerName)
      ensures found <==> agents != []
    {
      hide Blank, TriggerKey, Indexed, Matches, IdentitiesIndexed, TriggersIndexed, HeldByAgents, MatchingJobs, ScanJobs;
      agents := [];
      var defs := registry.GetByTrigger(triggerType, triggerName);
      for n := 0 to |defs|
        invariant agents == Scan(defs[..n], triggerType, triggerName)
      {
        var matching := FilterJobs(defs[n].jobs, triggerType, triggerName);
        assert defs[..n + 1][..n] == defs[..n];
        if |matching| > 0 {
          agents := agents + [Match(Some(defs[n].identity), matching)];
        }
      }
      assert defs[..|defs|] == defs;
      if |agents| > 0 {
        return agents, true;
      }
      agents := SearchJobs(jobs, triggerType, triggerName);
      found := |agents| > 0;
    }

    /** With jobs listed only by registering agents the lookup is the linear scan of the agents
        exactly when every matching agent is indexed under the key, which it is for every
        trigger name that is not blank, even where trigger keys collide. */
    lemma LookupIsScan(triggerType: string, triggerName: string)
      requires Valid() && legacy == []
      ensures Answer(Indexed(registry.ordered, TriggerKey(triggerType, triggerName)), jobs, triggerType, triggerName)
              == Scan(registry.ordered, triggerType, triggerName)
              <==> MatchesAreKeyed(registry.ordered, triggerType, triggerName)
      ensures !Blank(triggerName) ==> MatchesAreKeyed(registry.ordered, triggerType, triggerName)
    {
      assert jobs[|legacy|..] == jobs;
      LookupIsScanIff(registry.ordered, jobs, triggerType, triggerName);
    }
  }

  method FilterJobs(jobs: seq<Job>, triggerType: string, triggerName: string) returns (matching: seq<Job>)
    ensures matching == MatchingJobs(jobs, triggerType, triggerName)
  {
    hide Matches;
    matching := [];
    for j := 0 to |jobs|
      invariant matching == MatchingJobs(jobs[..j], triggerType, triggerName)
    {
      assert jobs[..j + 1][..j] == jobs[..j];
      if Matches(jobs[j], triggerType, triggerName) {
        matching := matching + [jobs[j]];
      }
    }
    assert jobs[..|jobs|] == jobs;
  }

  method SearchJobs(jobs: seq<Job>, triggerType: string, triggerName: string) returns (alone: seq<Match>)
    ensures alone == ScanJobs(jobs, triggerType, triggerName)
  {
    hide Matches;
    alone := [];
    for j := 0 to |jobs|
      invariant alone == ScanJobs(jobs[..j], triggerType, triggerName)
    {
      assert jobs[..j + 1][..j] == jobs[..j];
      if Matches(jobs[j], triggerType, triggerName) {
        alone := alone + [Match(None, [jobs[j]])];
      }
    }
    assert jobs[..|jobs|] == jobs;
  }

  lemma UnkeyedJobsDontMatch(jobs: seq<Job>, triggerType: string, triggerName: string)
    requires !Blank(triggerName)
    ensures HasKey(jobs, TriggerKey(triggerType, triggerName)) || MatchingJobs(jobs, triggerType, triggerName) == []
  {
    hide TrimSpace, ToLower;
    MatchingJobsFound(jobs, triggerType, triggerName);
    if i :| 0 <= i < |jobs| && Matches(jobs[i], triggerType, triggerName) {
      assert Keyed(jobs[i], TriggerKey(triggerType, triggerName));
    }
  }

  predicate AnyMatches(jobs: seq<Job>, triggerType: string, triggerName: string) {
    exists i :: 0 <= i < |jobs| && Matches(jobs[i], triggerType, triggerName)
  }

  lemma {:induction false} MatchingJobsFound(jobs: seq<Job>, triggerType: string, triggerName: string)
    ensures MatchingJobs(jobs, triggerType, triggerName) != [] <==> AnyMatches(jobs, triggerType, triggerName)
    ensures ScanJobs(jobs, triggerType, triggerName) != [] <==> AnyMatches(jobs, triggerType, triggerName)
  {
    hide Matches;
    if jobs != [] {
      var n := |jobs| - 1;
      MatchingJobsFound(jobs[..n], triggerType, triggerName);
      assert jobs == jobs[..n] + [jobs[n]];
      if AnyMatches(jobs[..n], triggerType, triggerName) {
        var i :| 0 <= i < n && Matches(jobs[..n][i], triggerType, triggerName);
        assert Matches(jobs[i], triggerType, triggerName);
      }
      if AnyMatches(jobs, triggerType, triggerName) && !Matches(jobs[n], triggerType, triggerName) {
        var i :| 0 <= i < |jobs| && Matches(jobs[i], triggerType, triggerName);
        assert Matches(jobs[..n][i], triggerType, triggerName);
      }
    }
  }

  // ------------------------------------------------- what lookups promise

  /** Every job on the list belongs to a registered agent, as it does when the list is only
      ever filled by registering agents. */
  predicate HeldByAgents(jobs: seq<Job>, agents: seq<Agent>) {
    forall i | 0 <= i < |jobs| :: Held(jobs[i], agents)
  }

  predicate Held(job: Job, agents: seq<Agent>) {
    exists i :: 0 <= i < |agents| && job in agents[i].jobs
  }

  lemma RegisteringKeepsHeld(jobs: seq<Job>, agents: seq<Agent>, agent: Agent)
    requires HeldByAgents(jobs, agents)
    ensures HeldByAgents(jobs + agent.jobs, agents + [agent])
  {
    forall k | 0 <= k < |jobs + agent.jobs| ensures Held((jobs + agent.jobs)[k], agents + [agent]) {
      if k < |jobs| {
        var i :| 0 <= i < |agents| && jobs[k] in agents[i].jobs;
        assert (agents + [agent])[i] == agents[i];
      } else {
        assert (agents + [agent])[|agents|].jobs[k - |jobs|] == (jobs + agent.jobs)[k];
      }
    }
  }

  /** Every agent with a matching job is indexed under the selector's key. It always is when
      the trigger name is not blank; a blank one is never indexed for its own sake. */
  predicate MatchesAreKeyed(agents: seq<Agent>, triggerType: string, triggerName: string) {
    forall i | 0 <= i < |agents| && AnyMatches(agents[i].jobs, triggerType, triggerName) ::
      HasKey(agents[i].jobs, TriggerKey(triggerType, triggerName))
  }

  lemma NamedMatchesAreKeyed(agents: seq<Agent>, triggerType: string, triggerName: string)
    requires !Blank(triggerName)
    ensures MatchesAreKeyed(agents, triggerType, triggerName)
  {
    hide TrimSpace, ToLower, HasKey, Matches, TriggerKey;
    forall i | 0 <= i < |agents| && AnyMatches(agents[i].jobs, triggerType, triggerName)
      ensures HasKey(agents[i].jobs, TriggerKey(triggerType, triggerName))
    {
      UnkeyedJobsDontMatch(agents[i].jobs, triggerType, triggerName);
      MatchingJobsFound(agents[i].jobs, triggerType, triggerName);
    }
  }

  lemma ScanNext(agents: seq<Agent>, agent: Agent, triggerType: string, triggerName: string)
    ensures var jobs := MatchingJobs(agent.jobs, triggerType, triggerName);
            Scan(agents + [agent], triggerType, triggerName)
            == Scan(agents, triggerType, triggerName) + (if jobs == [] then [] else [Match(Some(agent.identity), jobs)])
    ensures MatchingJobs(agent.jobs, triggerType, triggerName) != [] <==> AnyMatches(agent.jobs, triggerType, triggerName)
  {
    MatchingJobsFound(agent.jobs, triggerType, triggerName);
    hide MatchingJobs, AnyMatches;
    var longer := agents + [agent];
    assert longer[..|longer| - 1] == agents;
  }

  /** For any selector, blank names included: what the index leads to is the scan of all agents
      exactly when every agent with a matching job is indexed under its key. */
  lemma {:induction false} IndexScanIff(agents: seq<Agent>, triggerType: string, triggerName: string)
    ensures var indexed := Scan(Indexed(agents, TriggerKey(triggerType, triggerName)), triggerType, triggerName);
            && |indexed| <= |Scan(agents, triggerType, triggerName)|
            && (indexed == Scan(agents, triggerType, triggerName) <==> MatchesAreKeyed(agents, triggerType, triggerName))
            && (|indexed| == |Scan(agents, triggerType, triggerName)| ==> MatchesAreKeyed(agents, triggerType, triggerName))
  {
    hide TriggerKey, HasKey, AnyMatches, MatchingJobs, Scan;
    if agents == [] {
      NothingScanned(triggerType, triggerName);
    } else {
      var n, key := |agents| - 1, TriggerKey(triggerType, triggerName);
      var before, agent := agents[..n], agents[n];
      IndexScanIff(before, triggerType, triggerName);
      assert agents == before + [agent];
      ScanNext(before, agent, triggerType, triggerName);
      ScanNext(Indexed(before, key), agent, triggerType, triggerName);
      assert Indexed(agents, key) == Indexed(before, key) + (if HasKey(agent.jobs, key) then [agent] else []);
      assert Indexed(before, key) + [] == Indexed(before, key);
      KeyedNext(before, agent, triggerType, triggerName);
    }
  }

  lemma NothingScanned(triggerType: string, triggerName: string)
    ensures Scan([], triggerType, triggerName) == []
  {
  }

  lemma KeyedNext(agents: seq<Agent>, agent: Agent, triggerType: string, triggerName: string)
    ensures MatchesAreKeyed(agents + [agent], triggerType, triggerName)
            <==> MatchesAreKeyed(agents, triggerType, triggerName)
                 && (AnyMatches(agent.jobs, triggerType, triggerName)
                     ==> HasKey(agent.jobs, TriggerKey(triggerType, triggerName)))
  {
    hide AnyMatches, HasKey, TriggerKey;
    var longer := agents + [agent];
    assert longer[|agents|] == agent;
    assert forall i | 0 <= i < |agents| :: longer[i] == agents[i];
  }

  /** The lookup, for every selector: it answers with the scan of the agents exactly when every
      agent with a matching job is indexed under the key and, should there be none, no listed
      job matches either. For jobs held by agents the first half is all it takes. */
  lemma LookupIsScanIff(agents: seq<Agent>, jobs: seq<Job>, triggerType: string, triggerName: string)
    ensures var answer := Answer(Indexed(agents, TriggerKey(triggerType, triggerName)), jobs, triggerType, triggerName);
            && (answer == Scan(agents, triggerType, triggerName) <==>
                  MatchesAreKeyed(agents, triggerType, triggerName)
                  && (Scan(agents, triggerType, triggerName) != [] || !AnyMatches(jobs, triggerType, triggerName)))
            && (HeldByAgents(jobs, agents) ==>
                  (answer == Scan(agents, triggerType, triggerName) <==> MatchesAreKeyed(agents, triggerType, triggerName)))
            && (!Blank(triggerName) ==> MatchesAreKeyed(agents, triggerType, triggerName))
  {
    hide TriggerKey, Indexed, Matches, AnyMatches, MatchesAreKeyed, Scan, ScanJobs, HeldByAgents, Blank;
    IndexScanIff(agents, triggerType, triggerName);
    MatchingJobsFound(jobs, triggerType, triggerName);
    if !Blank(triggerName) {
      NamedMatchesAreKeyed(agents, triggerType, triggerName);
    }
    if HeldByAgents(jobs, agents) && AnyMatches(jobs, triggerType, triggerName) {
      HeldMatchIsScanned(jobs, agents, triggerType, triggerName);
    }
    AnswersDiffer(agents, jobs, triggerType, triggerName);
  }

  lemma HeldMatchIsScanned(jobs: seq<Job>, agents: seq<Agent>, triggerType: string, triggerName: string)
    requires HeldByAgents(jobs, agents) && AnyMatches(jobs, triggerType, triggerName)
    ensures Scan(agents, triggerType, triggerName) != []
  {
    hide Matches;
    var i :| 0 <= i < |jobs| && Matches(jobs[i], triggerType, triggerName);
    assert Held(jobs[i], agents);
    var a :| 0 <= a < |agents| && jobs[i] in agents[a].jobs;
    var k :| 0 <= k < |agents[a].jobs| && agents[a].jobs[k] == jobs[i];
    ScanIsExact(agents, triggerType, triggerName);
    AgentPositionsExact(agents, triggerType, triggerName, a);
    assert AnyMatches(agents[a].jobs, triggerType, triggerName);
  }

  /** An answer made of agents is never one made of single jobs. */
  lemma AnswersDiffer(agents: seq<Agent>, jobs: seq<Job>, triggerType: string, triggerName: string)
    ensures Scan(agents, triggerType, triggerName) == ScanJobs(jobs, triggerType, triggerName)
            ==> Scan(agents, triggerType, triggerName) == []
  {
    hide MatchingJobs, Matches;
    ScanIsExact(agents, triggerType, triggerName);
    LastScannedJob(jobs, triggerType, triggerName);
    var found := Scan(agents, triggerType, triggerName);
    assert found != [] ==> found[|found| - 1].identity.Some?;
  }

  lemma {:induction false} LastScannedJob(jobs: seq<Job>, triggerType: string, triggerName: string)
    ensures var found := ScanJobs(jobs, triggerType, triggerName);
            found != [] ==> found[|found| - 1].identity == None
  {
    hide Matches;
    if jobs != [] {
      LastScannedJob(jobs[..|jobs| - 1], triggerType, triggerName);
    }
  }

  /** Strictly ascending positions below n. */
  predicate Ascending(where: seq<nat>, n: nat) {
    && (forall i | 0 <= i < |where| :: where[i] < n)
    && (forall i, j | 0 <= i < j < |where| :: where[i] < where[j])
  }

  lemma AscendingNext(where: seq<nat>, n: nat)
    requires Ascending(where, n)
    ensures Ascending(where, n + 1) && Ascending(where + [n], n + 1)
  {
  }

  /** Where the matching jobs are. */
  function JobPositions(jobs: seq<Job>, triggerType: string, triggerName: string): (where: seq<nat>)
    ensures Ascending(where, |jobs|)
  {
    if jobs == [] then []
    else
      var n := |jobs| - 1;
      var before := JobPositions(jobs[..n], triggerType, triggerName);
      AscendingNext(before, n);
      if Matches(jobs[n], triggerType, triggerName) then before + [n] else before
  }

  /** Where the agents with a matching job are. */
  function AgentPositions(agents: seq<Agent>, triggerType: string, triggerName: string): (where: seq<nat>)
    ensures Ascending(where, |agents|)
  {
    if agents == [] then []
    else
      var n := |agents| - 1;
      var before := AgentPositions(agents[..n], triggerType, triggerName);
      AscendingNext(before, n);
      if AnyMatches(agents[n].jobs, triggerType, triggerName) then before + [n] else before
  }

  lemma {:induction false} JobPositionsExact(jobs: seq<Job>, triggerType: string, triggerName: string, k: nat)
    requires k < |jobs|
    ensures k in JobPositions(jobs, triggerType, triggerName) <==> Matches(jobs[k], triggerType, triggerName)
  {
    hide Matches;
    var n := |jobs| - 1;
    var before := JobPositions(jobs[..n], triggerType, triggerName);
    assert n !in before;
    if k < n {
      JobPositionsExact(jobs[..n], triggerType, triggerName, k);
    }
  }

  lemma {:induction false} AgentPositionsExact(agents: seq<Agent>, triggerType: string, triggerName: string, k: nat)
    requires k < |agents|
    ensures k in AgentPositions(agents, triggerType, triggerName) <==> AnyMatches(agents[k].jobs, triggerType, triggerName)
  {
    hide AnyMatches;
    var n := |agents| - 1;
    var before := AgentPositions(agents[..n], triggerType, triggerName);
    assert n !in before;
    if k < n {
      AgentPositionsExact(agents[..n], triggerType, triggerName, k);
    }
  }

  /** The matching jobs are the matching subsequence of the jobs. */
  lemma {:induction false} MatchingJobsExact(jobs: seq<Job>, triggerType: string, triggerName: string)
    ensures var where, found := JobPositions(jobs, triggerType, triggerName), MatchingJobs(jobs, triggerType, triggerName);
            |found| == |where| && forall i | 0 <= i < |where| :: found[i] == jobs[where[i]]
  {
    hide Matches;
    if jobs != [] {
      MatchingJobsExact(jobs[..|jobs| - 1], triggerType, triggerName);
    }
  }

  /** A scan finds, in registration order and once each, exactly the agents having a matching
      job, with exactly those jobs. */
  lemma {:induction false} ScanIsExact(agents: seq<Agent>, triggerType: string, triggerName: string)
    ensures var where, found := AgentPositions(agents, triggerType, triggerName), Scan(agents, triggerType, triggerName);
            |found| == |where|
            && forall i | 0 <= i < |where| ::
                 found[i] == Match(Some(agents[where[i]].identity), MatchingJobs(agents[where[i]].jobs, triggerType, triggerName))
  {
    hide AnyMatches, MatchingJobs;
    if agents != [] {
      var n := |agents| - 1;
      ScanIsExact(agents[..n], triggerType, triggerName);
      MatchingJobsFound(agents[n].jobs, triggerType, triggerName);
    }
  }

  /** The lookup answers each listed job on its own exactly when no agent with a matching job is
      indexed under the key; for a blank trigger name that takes another trigger of such an
      agent sharing the key. */
  lemma JobsAnsweredAloneIff(agents: seq<Agent>, jobs: seq<Job>, triggerType: string, triggerName: string)
    ensures Answer(Indexed(agents, TriggerKey(triggerType, triggerName)), jobs, triggerType, triggerName)
            == ScanJobs(jobs, triggerType, triggerName)
            <==> forall i | 0 <= i < |agents| ::
                   !(HasKey(agents[i].jobs, TriggerKey(triggerType, triggerName))
                     && AnyMatches(agents[i].jobs, triggerType, triggerName))
  {
    hide TriggerKey, Matches, AnyMatches, HasKey, Scan, ScanJobs;
    AnswersDiffer(Indexed(agents, TriggerKey(triggerType, triggerName)), jobs, triggerType, triggerName);
    NoneFoundIff(agents, triggerType, triggerName);
  }

  lemma {:induction false} NoneFoundIff(agents: seq<Agent>, triggerType: string, triggerName: string)
    ensures Scan(Indexed(agents, TriggerKey(triggerType, triggerName)), triggerType, triggerName) == []
            <==> forall i | 0 <= i < |agents| ::
                   !(HasKey(agents[i].jobs, TriggerKey(triggerType, triggerName))
                     && AnyMatches(agents[i].jobs, triggerType, triggerName))
  {
    hide TriggerKey, HasKey, AnyMatches, MatchingJobs, Scan;
    if agents == [] {
      NothingScanned(triggerType, triggerName);
    } else {
      var n, key := |agents| - 1, TriggerKey(triggerType, triggerName);
      var before := agents[..n];
      NoneFoundIff(before, triggerType, triggerName);
      ScanNext(Indexed(before, key), agents[n], triggerType, triggerName);
      assert Indexed(before, key) + [] == Indexed(before, key);
      assert forall i | 0 <= i < n :: before[i] == agents[i];
    }
  }

  /** Such a name exists: its only agent is scanned but not looked up. */
  lemma BlankNameMissesAgent() returns (agent: Agent)
    ensures var answer := Answer(Indexed([agent], TriggerKey("event", "")), agent.jobs, "event", "");
            answer == [Match(None, agent.jobs)] && Scan([agent], "event", "") == [Match(Some(agent.identity), agent.jobs)]
  {
    var job := Job("j", "event", "");
    agent := Agent(AgentIdentity("a", "a"), [job]);
    OneBlankJob(agent, job, "event", "");
  }

  lemma OneBlankJob(agent: Agent, job: Job, triggerType: string, triggerName: string)
    requires agent.jobs == [job] && Blank(triggerName) && job.triggerName == triggerName && job.triggerType == triggerType
    ensures Answer(Indexed([agent], TriggerKey(triggerType, triggerName)), agent.jobs, triggerType, triggerName)
            == [Match(None, agent.jobs)]
    ensures Scan([agent], triggerType, triggerName) == [Match(Some(agent.identity), agent.jobs)]
  {
    hide ToLower, TrimSpace, TriggerKey;
    var agents, key := [agent], TriggerKey(triggerType, triggerName);
    assert agents[..0] == [] && agent.jobs[..0] == [] && Matches(job, triggerType, triggerName);
    assert !HasKey(agent.jobs, key);
    assert Indexed(agents, key) == Indexed([], key) + [];
    assert MatchingJobs(agent.jobs, triggerType, triggerName) == MatchingJobs([], triggerType, triggerName) + [job];
    assert MatchingJobs([], triggerType, triggerName) == [] && [] + [job] == [job];
    NothingScanned(triggerType, triggerName);
    ScanNext([], agent, triggerType, triggerName);
    assert [] + agents == agents;
    assert ScanJobs(agent.jobs, triggerType, triggerName) == ScanJobs([], triggerType, triggerName) + [Match(None, [job])];
  }

  /** A job matches a selector when types agree but for case and padding and names but for padding.
      For types without ':' that is what having one trigger key means. */
  lemma MatchesIff(job: Job, triggerType: string, triggerName: string)
    ensures Matches(job, triggerType, triggerName) <==>
      ToLower(TrimSpace(job.triggerType)) == ToLower(TrimSpace(triggerType)) && TrimSpace(job.triggerName) == TrimSpace(triggerName)
    ensures TriggerKey(triggerType, triggerName) == ToLower(TrimSpace(triggerType)) + ":" + TrimSpace(triggerName)
    ensures ':' !in ToLower(TrimSpace(job.triggerType)) && ':' !in ToLower(TrimSpace(triggerType)) ==>
      (Matches(job, triggerType, triggerName) <==>
         TriggerKey(job.triggerType, job.triggerName) == TriggerKey(triggerType, triggerName))
  {
    hide TrimSpace, ToLower;
    var a, b := ToLower(TrimSpace(job.triggerType)), ToLower(TrimSpace(triggerType));
    if ':' !in a && ':' !in b && TriggerKey(job.triggerType, job.triggerName) == TriggerKey(triggerType, triggerName) {
      SplitAtColon(a, TrimSpace(job.triggerName), b, TrimSpace(triggerName));
    }
  }

  lemma SplitAtColon(x: string, u: string, y: string, v: string)
    requires ':' !in x && ':' !in y && x + ":" + u == y + ":" + v
    ensures x == y && u == v
  {
    var s := x + ":" + u;
    assert s[|x|] == ':' && s[|y|] == ':';
    assert forall i | 0 <= i < |x| :: s[i] == x[i] && x[i] in x;
    assert forall i | 0 <= i < |y| :: s[i] == y[i] && y[i] in y;
    assert |x| == |y|;
    assert s[..|x|] == x && s[..|y|] == y && s[|x| + 1..] == u && s[|y| + 1..] == v;
  }

  /** Different selectors with one key, which is why found agents are filtered again. */
  lemma KeysCollide(kind: string, name: string)
    requires Trimmed(kind) && NoUpper(kind) && Trimmed(name) && kind != "" && name != ""
    ensures TriggerKey(kind + ":" + kind, name) == TriggerKey(kind, kind + ":" + name)
    ensures !Matches(Job("", kind + ":" + kind, name), kind, kind + ":" + name)
  {
    var kind', name' := kind + ":" + kind, kind + ":" + name;
    assert Trimmed(kind') && NoUpper(kind') && Trimmed(name');
    LowerFixed(kind);
    LowerFixed(kind');
    hide ToLower, TrimSpace;
    assert kind + ":" + kind + ":" + name == kind + ":" + (kind + ":" + name);
    assert |name'| > |name|;
  }
}
