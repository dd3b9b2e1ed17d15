/** The engine's database quota, driven by fleet heartbeat reports
    (cmd/thecrowler/fleet_db_quota.go, pkg/database/fleet_db_budget.go). */
module FleetQuota {
  import opened Wrappers
  import opened Text

  // -------------------------------------------------------------- the data

  /** Go's int. */
  type Int64 = n: int | MIN_INT64 <= n <= MAX_INT64

  datatype Member = Member(originType: string, originName: string)

  datatype Allocation = Allocation(originType: string, originName: string, maxConnections: Int64)

  /** A decoded heartbeat report; times are instants, zero being the zero time. */
  datatype Report = Report(
    schemaVersion: string,
    parentEventID: string,
    generatedAt: int,
    effectiveMaxOpen: Int64,
    reservedConnections: Int64,
    usableConnections: Int64,
    memberCount: Int64,
    allocationCount: Int64,
    members: seq<Allocation>,
    valid: bool)

  const ENGINE := "crowler-engine"
  const ZERO_TIME := 0

  datatype Stamp = Stamp(generatedAt: int, parentEventID: string)

  function StampOf(r: Report): Stamp {
    Stamp(r.generatedAt, r.parentEventID)
  }

  // ------------------------------------------------------ reading a report

  /** NormalizeFleetMembers of a single member: its identity, or nothing. */
  function NormalizeMember(originType: string, originName: string): Option<Member> {
    var kind, name := ToLower(TrimSpace(originType)), TrimSpace(originName);
    if name == "" || kind !in {"crowler-api", ENGINE, "crowler-events"} then None else Some(Member(kind, name))
  }

  function Identity(a: Allocation): Option<Member> {
    NormalizeMember(a.originType, a.originName)
  }

  /** The wrapping total the source keeps. */
  function Allocated(members: seq<Allocation>): Int64 {
    if members == [] then 0 else Wrap64(Allocated(members[..|members| - 1]) + members[|members| - 1].maxConnections)
  }

  predicate WellFormedMembers(members: seq<Allocation>) {
    && (forall i | 0 <= i < |members| :: members[i].maxConnections > 0 && Identity(members[i]).Some?)
    && (forall i, j | 0 <= i < j < |members| :: Identity(members[i]) != Identity(members[j]))
  }

  /** decodeEngineFleetDBReport accepts the report. */
  predicate Acceptable(r: Report) {
    && r.schemaVersion == "1" && !Blank(r.parentEventID) && r.generatedAt != ZERO_TIME && r.valid
    && r.effectiveMaxOpen > 0 && r.reservedConnections >= 0 && r.usableConnections >= 0
    && r.allocationCount == |r.members| && r.memberCount == |r.members|
    && Wrap64(r.reservedConnections + r.usableConnections) == r.effectiveMaxOpen
    && WellFormedMembers(r.members)
    && (r.members != [] ==> Allocated(r.members) == r.usableConnections)
  }

  method DecodeReport(r: Report) returns (accepted: bool)
    ensures accepted <==> Acceptable(r)
  {
    hide Identity, Blank, Wrap64, WellFormedMembers;
    if r.schemaVersion != "1" || Blank(r.parentEventID) || r.generatedAt == ZERO_TIME || !r.valid {
      return false;
    }
    if r.effectiveMaxOpen <= 0 || r.reservedConnections < 0 || r.usableConnections < 0
       || r.memberCount < 0 || r.allocationCount != |r.members| || r.memberCount != |r.members|
       || Wrap64(r.reservedConnections + r.usableConnections) != r.effectiveMaxOpen {
      return false;
    }
    var seen: set<Option<Member>> := {};
    var total: Int64 := 0;
    MemberStep(r.members, 0);
    for n := 0 to |r.members|
      invariant WellFormedMembers(r.members[..n])
      invariant seen == set i | 0 <= i < n :: Identity(r.members[i])
      invariant total == Allocated(r.members[..n])
    {
      MemberStep(r.members, n);
      var member := Identity(r.members[n]);
      if r.members[n].maxConnections <= 0 || member.None? {
        return false;
      }
      if member in seen {
        return false;
      }
      assert r.members[..n + 1][..n] == r.members[..n];
      seen := seen + {member};
      total := Wrap64(total + r.members[n].maxConnections);
    }
    assert r.members[..|r.members|] == r.members;
    accepted := r.members == [] || total == r.usableConnections;
  }

  /** One more allocation keeps the list well formed exactly when it is positive, named and new. */
  lemma MemberStep(members: seq<Allocation>, n: nat)
    requires n <= |members|
    ensures n == 0 ==> WellFormedMembers(members[..n])
    ensures n < |members| ==>
              (WellFormedMembers(members[..n + 1]) <==>
                 WellFormedMembers(members[..n]) && members[n].maxConnections > 0 && Identity(members[n]).Some?
                 && Identity(members[n]) !in set i | 0 <= i < n :: Identity(members[i]))
    ensures WellFormedMembers(members) ==> WellFormedMembers(members[..n]) && (n < |members| ==> WellFormedMembers(members[..n + 1]))
  {
    hide Identity;
    if n < |members| {
      var earlier := set i | 0 <= i < n :: Identity(members[i]);
      assert forall i | 0 <= i < n :: members[..n + 1][i] == members[i] && members[..n][i] == members[i];
      assert forall i | 0 <= i < n :: Identity(members[i]) in earlier;
      assert members[..n + 1][n] == members[n];
    }
  }

  /** The first allocation naming `self`, or zero. */
  function QuotaFrom(members: seq<Allocation>, self: Member): int {
    if members == [] then 0
    else if Identity(members[0]) == Some(self) then members[0].maxConnections
    else QuotaFrom(members[1..], self)
  }

  function OwnQuota(r: Report, self: Member): int {
    QuotaFrom(r.members, self)
  }

  // --------------------------------------------------------------- the state

  /** engineDBQuota, with the reports accepted since dynamic mode was last entered and the
      pool limits (open, idle) applied so far. */
  datatype State = State(
    dynamic: bool,
    quota: int,
    last: Stamp,
    effectiveMaxIdle: int,
    hasValidReport: bool,
    accepted: seq<(Stamp, int)>,
    poolCalls: seq<(int, int)>)

  const START := State(false, 0, Stamp(ZERO_TIME, ""), 0, false, [], [])

  /** configureEngineDBQuota */
  function Configure(s: State, heartbeat: bool, maxOpen: int, maxIdle: int): State {
    var s' := s.(dynamic := heartbeat, effectiveMaxIdle := maxIdle);
    if heartbeat then s'
    else if s.dynamic then
      s'.(quota := maxOpen, hasValidReport := false, last := Stamp(ZERO_TIME, ""), accepted := [])
    else s'.(quota := maxOpen)
  }

  /** applyEngineDBQuotaLocked */
  function ApplyLimits(s: State, quota: int, poolAccepts: bool): State {
    var idle := if s.effectiveMaxIdle > quota then quota else s.effectiveMaxIdle;
    if poolAccepts then s.(quota := quota, poolCalls := s.poolCalls + [(quota, idle)]) else s
  }

  /** applyEngineDBQuotaAfterConnect */
  function AfterConnect(s: State, resolvedMaxOpen: int, poolAccepts: bool): State {
    if !s.dynamic then s.(quota := resolvedMaxOpen)
    else ApplyLimits(s, if s.hasValidReport then s.quota else 1, poolAccepts)
  }

  /** Strictly later, first by time and then by event id. */
  predicate Newer(a: Stamp, b: Stamp) {
    a.generatedAt > b.generatedAt || (a.generatedAt == b.generatedAt && !LexLe(a.parentEventID, b.parentEventID))
  }

  /** processEngineHeartbeatReport */
  function Process(s: State, self: Member, r: Report, poolAccepts: bool): State {
    if !Acceptable(r) || OwnQuota(r, self) <= 0 || !s.dynamic || !Newer(StampOf(r), s.last) || !poolAccepts then s
    else
      ApplyLimits(s, OwnQuota(r, self), true).(
        last := StampOf(r),
        hasValidReport := true,
        accepted := s.accepted + [(StampOf(r), OwnQuota(r, self))])
  }

  // ------------------------------------------------ the state, in place

  class EngineDBQuota {
    var dynamic: bool
    var quota: int
    var lastGeneratedAt: int
    var lastParentEventID: string
    var effectiveMaxIdle: int
    var hasValidReport: bool
    ghost var accepted: seq<(Stamp, int)>
    ghost var poolCalls: seq<(int, int)>

    ghost function Value(): State
      reads this
    {
      State(dynamic, quota, Stamp(lastGeneratedAt, lastParentEventID), effectiveMaxIdle, hasValidReport, accepted, poolCalls)
    }

    constructor ()
      ensures Value() == START
    {
      dynamic, quota, lastGeneratedAt, lastParentEventID := false, 0, ZERO_TIME, "";
      effectiveMaxIdle, hasValidReport, accepted, poolCalls := 0, false, [], [];
    }

    method ConfigureQuota(heartbeat: bool, maxOpen: int, maxIdle: int)
      modifies this
      ensures Value() == Configure(old(Value()), heartbeat, maxOpen, maxIdle)
    {
      var wasDynamic := dynamic;
      dynamic := heartbeat;
      effectiveMaxIdle := maxIdle;
      if !dynamic {
        quota := maxOpen;
        if wasDynamic {
          hasValidReport := false;
          lastGeneratedAt := ZERO_TIME;
          lastParentEventID := "";
          accepted := [];
        }
      }
    }

    /** `poolAccepts` is what the connection pool answers. */
    method ApplyLocked(newQuota: int, poolAccepts: bool) returns (failed: bool)
      modifies this
      ensures failed == !poolAccepts
      ensures Value() == ApplyLimits(old(Value()), newQuota, poolAccepts)
    {
      var idle := effectiveMaxIdle;
      if idle > newQuota {
        idle := newQuota;
      }
      if !poolAccepts {
        return true;
      }
      poolCalls := poolCalls + [(newQuota, idle)];
      quota := newQuota;
      failed := false;
    }

    method ApplyAfterConnect(resolvedMaxOpen: int, poolAccepts: bool) returns (failed: bool)
      modifies this
      ensures Value() == AfterConnect(old(Value()), resolvedMaxOpen, poolAccepts)
    {
      if !dynamic {
        quota := resolvedMaxOpen;
        return false;
      }
      var next := quota;
      if !hasValidReport {
        next := 1;
      }
      failed := ApplyLocked(next, poolAccepts);
    }

    method ProcessReport(self: Member, r: Report, poolAccepts: bool)
      modifies this
      ensures Value() == Process(old(Value()), self, r, poolAccepts)
    {
      hide Acceptable, Identity;
      var acceptable := DecodeReport(r);
      if !acceptable {
        return;
      }
      var own := 0;
      var n := 0;
      while n < |r.members|
        invariant 0 <= n <= |r.members| && own == 0
        invariant QuotaFrom(r.members[n..], self) == OwnQuota(r, self)
      {
        assert r.members[n..][0] == r.members[n] && r.members[n..][1..] == r.members[n + 1..];
        if Identity(r.members[n]) == Some(self) {
          own := r.members[n].maxConnections;
          break;
        }
        n := n + 1;
      }
      if own <= 0 {
        return;
      }
      if !dynamic {
        return;
      }
      if r.generatedAt < lastGeneratedAt
         || (r.generatedAt == lastGeneratedAt && LexLe(r.parentEventID, lastParentEventID)) {
        return;
      }
      var failed := ApplyLocked(own, poolAccepts);
      if failed {
        return;
      }
      lastGeneratedAt := r.generatedAt;
      lastParentEventID := r.parentEventID;
      hasValidReport := true;
      accepted := accepted + [(StampOf(r), own)];
    }
  }
}
