/** Convergence of the fleet quota: what it ends up as does not depend on how heartbeat
    reports are ordered or repeated. */
module FleetQuotaProperties {
  import opened Wrappers
  import opened Text
  import opened FleetQuota

  // ------------------------------------------------------- order of stamps

  lemma NewerTotal(a: Stamp, b: Stamp)
    ensures Newer(a, b) || Newer(b, a) || a == b
    ensures !(Newer(a, b) && Newer(b, a))
    ensures !Newer(a, a)
  {
    LexTotal(a.parentEventID, b.parentEventID);
    LexReflexive(a.parentEventID);
  }

  lemma NewerTransitive(a: Stamp, b: Stamp, c: Stamp)
    requires Newer(a, b) && Newer(b, c)
    ensures Newer(a, c)
  {
    if a.generatedAt == b.generatedAt == c.generatedAt {
      LexTotal(a.parentEventID, b.parentEventID);
      LexTotal(b.parentEventID, c.parentEventID);
      if LexLe(a.parentEventID, c.parentEventID) {
        LexTransitive(b.parentEventID, a.parentEventID, c.parentEventID);
      }
    }
  }

  // ------------------------------------------------------------ whole runs

  /** What can happen to the quota; the pool may refuse any change. */
  datatype Event =
    | Reconfigured(heartbeat: bool, maxOpen: int, maxIdle: int)
    | Reconnected(resolvedMaxOpen: int, poolAccepts: bool)
    | Delivered(report: Report, poolAccepts: bool)

  function Handle(s: State, self: Member, e: Event): State {
    match e
    case Reconfigured(heartbeat, maxOpen, maxIdle) => Configure(s, heartbeat, maxOpen, maxIdle)
    case Reconnected(maxOpen, accepts) => AfterConnect(s, maxOpen, accepts)
    case Delivered(r, accepts) => Process(s, self, r, accepts)
  }

  function HandleAll(s: State, self: Member, events: seq<Event>): State
    decreases |events|
  {
    if events == [] then s else HandleAll(Handle(s, self, events[0]), self, events[1..])
  }

  /** Accepted stamps strictly increase, the last of them is the remembered one and rules the
      quota, static mode remembers none, and idle never exceeds open in the pool. */
  predicate Authoritative(s: State) {
    && (!s.dynamic ==> s.accepted == [])
    && (s.hasValidReport <==> s.accepted != [])
    && s.last == (if s.accepted == [] then Stamp(ZERO_TIME, "") else s.accepted[|s.accepted| - 1].0)
    && (s.accepted != [] ==> s.quota == s.accepted[|s.accepted| - 1].1)
    && (forall i, j | 0 <= i < j < |s.accepted| :: Newer(s.accepted[j].0, s.accepted[i].0))
    && (forall i | 0 <= i < |s.accepted| :: Newer(s.accepted[i].0, Stamp(ZERO_TIME, "")))
    && (forall i | 0 <= i < |s.poolCalls| :: s.poolCalls[i].1 <= s.poolCalls[i].0)
  }

  lemma HandleKeepsAuthority(s: State, self: Member, e: Event)
    requires Authoritative(s)
    ensures Authoritative(Handle(s, self, e))
  {
    hide Acceptable, OwnQuota;
    if e.Delivered? {
      var stamp := StampOf(e.report);
      if Newer(stamp, s.last) {
        forall i | 0 <= i < |s.accepted| ensures Newer(stamp, s.accepted[i].0) {
          if i < |s.accepted| - 1 {
            NewerTransitive(stamp, s.last, s.accepted[i].0);
          }
        }
        if s.accepted != [] {
          NewerTransitive(stamp, s.last, Stamp(ZERO_TIME, ""));
        }
      }
    }
  }

  /** Over every run of reconfigurations, reconnections and reports, whatever the pool does. */
  lemma {:induction false} RunKeepsAuthority(s: State, self: Member, events: seq<Event>)
    requires Authoritative(s)
    ensures Authoritative(HandleAll(s, self, events))
    decreases |events|
  {
    if events != [] {
      HandleKeepsAuthority(s, self, events[0]);
      RunKeepsAuthority(Handle(s, self, events[0]), self, events[1..]);
    }
  }

  // ------------------------------------------------------------ convergence

  /** A report that names this engine and passes decoding. */
  predicate Eligible(self: Member, r: Report) {
    Acceptable(r) && OwnQuota(r, self) > 0
  }

  /** Reports and reconnections only, with a pool that accepts every change. */
  predicate Smooth(events: seq<Event>) {
    forall i | 0 <= i < |events| ::
      !events[i].Reconfigured? && events[i].poolAccepts
  }

  predicate HasReport(events: seq<Event>, r: Report) {
    exists i :: 0 <= i < |events| && events[i].Delivered? && events[i].report == r
  }

  /** Where a smooth run ends: no eligible report is newer than the remembered stamp, and the
      quota and stamp are either untouched or those of one eligible report delivered. */
  lemma {:induction false} RunEndsAtGreatest(s: State, self: Member, events: seq<Event>)
    requires s.dynamic && Smooth(events)
    ensures var end := HandleAll(s, self, events);
            && end.dynamic
            && (end.last == s.last || Newer(end.last, s.last))
            && (forall r | HasReport(events, r) && Eligible(self, r) :: !Newer(StampOf(r), end.last))
            && (if end.last == s.last
                then end.hasValidReport == s.hasValidReport && (s.hasValidReport ==> end.quota == s.quota)
                else end.hasValidReport
                     && exists r :: HasReport(events, r) && Eligible(self, r) && StampOf(r) == end.last
                                    && end.quota == OwnQuota(r, self))
    decreases |events|
  {
    hide Acceptable, OwnQuota;
    if events == [] {
      return;
    }
    var next := Handle(s, self, events[0]);
    RunEndsAtGreatest(next, self, events[1..]);
    var end := HandleAll(s, self, events);
    NewerTotal(s.last, s.last);
    forall r | HasReport(events[1..], r) ensures HasReport(events, r) {
      var i :| 0 <= i < |events[1..]| && events[1..][i].Delivered? && events[1..][i].report == r;
      assert events[i + 1].report == r;
    }
    forall r | HasReport(events, r) && Eligible(self, r) ensures !Newer(StampOf(r), end.last) {
      var i :| 0 <= i < |events| && events[i].Delivered? && events[i].report == r;
      if i == 0 {
        FirstIsSettled(s, self, events[0], end.last);
      } else {
        assert events[1..][i - 1].report == r;
      }
    }
    if next.last != s.last {
      assert events[0].Delivered? && HasReport(events, events[0].report);
      if end.last != next.last {
        NewerTransitive(end.last, next.last, s.last);
      }
      NewerTotal(end.last, s.last);
    }
  }

  lemma FirstIsSettled(s: State, self: Member, e: Event, end: Stamp)
    requires s.dynamic && e.Delivered? && e.poolAccepts && Eligible(self, e.report)
    requires end == Handle(s, self, e).last || Newer(end, Handle(s, self, e).last)
    ensures !Newer(StampOf(e.report), end)
  {
    hide Acceptable, OwnQuota;
    var next := Handle(s, self, e).last;
    NewerTotal(StampOf(e.report), next);
    NewerTotal(StampOf(e.report), end);
    NewerTotal(next, end);
    if Newer(StampOf(e.report), end) && end != next {
      NewerTransitive(StampOf(e.report), end, next);
    }
  }

  /** The stamp a smooth run ends at is as late as every eligible report delivered, and at equal
      times its event id is none of the lesser. */
  lemma EndsAtLatest(s: State, self: Member, events: seq<Event>, r: Report)
    requires s.dynamic && Smooth(events) && HasReport(events, r) && Acceptable(r) && OwnQuota(r, self) > 0
    ensures var end := HandleAll(s, self, events).last;
            && r.generatedAt <= end.generatedAt
            && (r.generatedAt == end.generatedAt ==> LexLe(r.parentEventID, end.parentEventID))
  {
    hide HandleAll, Acceptable, OwnQuota, Smooth;
    RunEndsAtGreatest(s, self, events);
    assert Eligible(self, r);
  }

  /** An accepted report is applied to the pool at once: as many open connections as it grants this
      engine, and as many idle ones as configured but no more than that. */
  lemma AcceptedIsApplied(s: State, self: Member, r: Report)
    requires s.dynamic && Acceptable(r) && OwnQuota(r, self) > 0
    requires r.generatedAt > s.last.generatedAt
    ensures var after, quota := Handle(s, self, Delivered(r, true)), OwnQuota(r, self);
            && after.quota == quota && after.last == Stamp(r.generatedAt, r.parentEventID)
            && after.poolCalls == s.poolCalls + [(quota, if s.effectiveMaxIdle <= quota then s.effectiveMaxIdle else quota)]
            && after.accepted == s.accepted + [(Stamp(r.generatedAt, r.parentEventID), quota)]
    ensures Handle(s, self, Delivered(r, false)) == s
  {
    hide Acceptable, OwnQuota;
  }

  /** A static engine has the quota it is configured or reconnected with and leaves the pool alone;
      entering dynamic mode changes neither quota nor stamp, leaving it forgets the reports. */
  lemma ConfiguredQuota(s: State, self: Member, maxOpen: int, maxIdle: int)
    ensures var after := Handle(s, self, Reconfigured(false, maxOpen, maxIdle));
            && !after.dynamic && after.quota == maxOpen && after.effectiveMaxIdle == maxIdle && after.poolCalls == s.poolCalls
            && (s.dynamic ==> after.last == Stamp(0, "") && !after.hasValidReport)
    ensures var after := Handle(s, self, Reconfigured(true, maxOpen, maxIdle));
            && after.dynamic && after.effectiveMaxIdle == maxIdle
            && after.quota == s.quota && after.last == s.last && after.hasValidReport == s.hasValidReport
            && after.poolCalls == s.poolCalls
    ensures !s.dynamic ==> forall accepts :: Handle(s, self, Reconnected(maxOpen, accepts)) == s.(quota := maxOpen)
  {
  }

  /** Until a report has been accepted a dynamic engine reconnects with a single connection. */
  lemma ReconnectsCautiously(s: State, self: Member, resolvedMaxOpen: int)
    requires s.dynamic && !s.hasValidReport
    ensures var after := Handle(s, self, Reconnected(resolvedMaxOpen, true));
            && after.quota == 1 && after.last == s.last
            && after.poolCalls == s.poolCalls + [(1, if s.effectiveMaxIdle <= 1 then s.effectiveMaxIdle else 1)]
  {
  }

  predicate SameReports(a: seq<Event>, b: seq<Event>) {
    && (forall i | 0 <= i < |a| && a[i].Delivered? :: HasReport(b, a[i].report))
    && (forall i | 0 <= i < |b| && b[i].Delivered? :: HasReport(a, b[i].report))
  }

  /** Among the eligible reports of a run a stamp names one quota. */
  predicate StampsIdentify(self: Member, events: seq<Event>) {
    forall i, j | 0 <= i < |events| && 0 <= j < |events| && events[i].Delivered? && events[j].Delivered?
      && Eligible(self, events[i].report) && Eligible(self, events[j].report)
      && StampOf(events[i].report) == StampOf(events[j].report) ::
      OwnQuota(events[i].report, self) == OwnQuota(events[j].report, self)
  }

  /** Any reordering or repetition of the same reports, interleaved with any reconnections,
      leaves the same stamp, and the same quota once a report has been accepted: that of the
      lexicographically greatest (generated_at, parent_event_id) report naming this engine. */
  lemma ReportsConverge(s: State, self: Member, a: seq<Event>, b: seq<Event>)
    requires s.dynamic && Smooth(a) && Smooth(b) && SameReports(a, b) && StampsIdentify(self, a)
    ensures var end, end' := HandleAll(s, self, a), HandleAll(s, self, b);
            && end.last == end'.last && end.hasValidReport == end'.hasValidReport
            && (end.hasValidReport ==> end.quota == end'.quota)
            && (end.last != s.last ==>
                  exists r :: HasReport(a, r) && Eligible(self, r) && StampOf(r) == end.last && OwnQuota(r, self) == end.quota
                    && forall r' | HasReport(a, r') && Eligible(self, r') :: r' == r || !Newer(StampOf(r'), StampOf(r)))
  {
    hide HandleAll, Acceptable, OwnQuota, Smooth;
    RunEndsAtGreatest(s, self, a);
    RunEndsAtGreatest(s, self, b);
    var end, end' := HandleAll(s, self, a), HandleAll(s, self, b);
    NewerTotal(end.last, end'.last);
    ReportsCarryOver(a, b);
    ReportsCarryOver(b, a);
    assert end.last == end'.last;
    if end.last != s.last {
      var r :| HasReport(a, r) && Eligible(self, r) && StampOf(r) == end.last && end.quota == OwnQuota(r, self);
      var r' :| HasReport(b, r') && Eligible(self, r') && StampOf(r') == end'.last && end'.quota == OwnQuota(r', self);
      assert HasReport(a, r');
    }
  }

  lemma ReportsCarryOver(a: seq<Event>, b: seq<Event>)
    requires SameReports(a, b)
    ensures forall r | HasReport(a, r) :: HasReport(b, r)
    ensures SameReports(b, a)
  {
  }

  // ---------------------------------------------- quotas and usable capacity

  /** The total without wrap-around. */
  function TrueTotal(members: seq<Allocation>): int {
    if members == [] then 0 else TrueTotal(members[..|members| - 1]) + members[|members| - 1].maxConnections
  }

  lemma {:induction false} TotalWraps(members: seq<Allocation>)
    ensures Allocated(members) == Wrap64(TrueTotal(members))
  {
    if members != [] {
      TotalWraps(members[..|members| - 1]);
      WrapAbsorbs(TrueTotal(members[..|members| - 1]), members[|members| - 1].maxConnections);
    }
  }

  lemma WrapAbsorbs(a: int, b: int)
    ensures Wrap64(Wrap64(a) + b) == Wrap64(a + b)
  {
  }

  lemma {:induction false} MemberWithinTotal(members: seq<Allocation>, i: nat)
    requires WellFormedMembers(members) && i < |members|
    ensures 0 < members[i].maxConnections <= TrueTotal(members)
  {
    TotalPositive(members[..|members| - 1]);
    if i < |members| - 1 {
      MemberWithinTotal(members[..|members| - 1], i);
    }
  }

  lemma {:induction false} TotalPositive(members: seq<Allocation>)
    requires WellFormedMembers(members)
    ensures TrueTotal(members) >= 0
  {
    if members != [] {
      TotalPositive(members[..|members| - 1]);
    }
  }

  lemma {:induction false} QuotaIsAMembers(members: seq<Allocation>, self: Member)
    ensures QuotaFrom(members, self) == 0 ||
      exists i :: 0 <= i < |members| && Identity(members[i]) == Some(self) && members[i].maxConnections == QuotaFrom(members, self)
  {
    if members != [] && Identity(members[0]) != Some(self) {
      QuotaIsAMembers(members[1..], self);
      if QuotaFrom(members, self) != 0 {
        var i :| 0 <= i < |members[1..]| && Identity(members[1..][i]) == Some(self)
                 && members[1..][i].maxConnections == QuotaFrom(members[1..], self);
        assert members[i + 1] == members[1..][i];
      }
    }
  }

  predicate Names(a: Allocation, self: Member) {
    ToLower(TrimSpace(a.originType)) == self.originType && TrimSpace(a.originName) == self.originName
  }

  /** Which allocation is an engine's own in an accepted report: the one that names it, wherever
      it stands in the list. */
  lemma QuotaIsOwn(r: Report, self: Member, i: nat)
    requires Acceptable(r) && i < |r.members|
    requires Names(r.members[i], self)
    ensures OwnQuota(r, self) == r.members[i].maxConnections > 0
  {
    hide TrimSpace, ToLower, Blank;
    assert Identity(r.members[i]).Some?;
    assert Identity(r.members[i]) == Some(self);
    hide Identity;
    OwnIsFound(r.members, self, i);
  }

  lemma {:induction false} OwnIsFound(members: seq<Allocation>, self: Member, i: nat)
    requires WellFormedMembers(members) && i < |members| && Identity(members[i]) == Some(self)
    ensures QuotaFrom(members, self) == members[i].maxConnections
    decreases i
  {
    hide Identity;
    if i > 0 {
      assert Identity(members[0]) != Identity(members[i]);
      assert members[1..][i - 1] == members[i];
      OwnIsFound(members[1..], self, i - 1);
    }
  }

  /** And no report has a quota for an engine it does not name. */
  lemma QuotaNeedsOwn(r: Report, self: Member)
    requires OwnQuota(r, self) != 0
    ensures exists i :: 0 <= i < |r.members| && Names(r.members[i], self) && r.members[i].maxConnections == OwnQuota(r, self)
  {
    hide TrimSpace, ToLower;
    QuotaIsAMembers(r.members, self);
  }

  /** The kinds of process a report may allot connections to. */
  predicate KnownKind(originType: string) {
    ToLower(TrimSpace(originType)) in {"crowler-api", "crowler-engine", "crowler-events"}
  }

  predicate SameProcess(a: Allocation, b: Allocation) {
    ToLower(TrimSpace(a.originType)) == ToLower(TrimSpace(b.originType)) && TrimSpace(a.originName) == TrimSpace(b.originName)
  }

  /** A report is accepted exactly when it is of version 1, identified, dated and marked valid, counts
      its allocations, divides its connections, and allots some to each of its processes once,
      which together take up what is usable up to 64-bit wrap-around. */
  lemma AcceptedIff(r: Report)
    ensures Acceptable(r) <==>
      && r.schemaVersion == "1" && TrimSpace(r.parentEventID) != "" && r.generatedAt != 0 && r.valid
      && r.reservedConnections >= 0 && r.usableConnections >= 0
      && r.effectiveMaxOpen == r.reservedConnections + r.usableConnections > 0
      && |r.members| == r.memberCount == r.allocationCount
      && (forall i | 0 <= i < |r.members| ::
            r.members[i].maxConnections > 0 && KnownKind(r.members[i].originType) && TrimSpace(r.members[i].originName) != "")
      && (forall i, j | 0 <= i < j < |r.members| :: !SameProcess(r.members[i], r.members[j]))
      && (r.members != [] ==> Wrap64(TrueTotal(r.members)) == r.usableConnections)
  {
    hide TrimSpace, ToLower, TrueTotal, FleetQuota.Allocated;
    TotalWraps(r.members);
    forall i, j | 0 <= i < |r.members| && 0 <= j < |r.members| && Identity(r.members[i]).Some? && Identity(r.members[j]).Some?
      ensures Identity(r.members[i]) == Identity(r.members[j]) <==> SameProcess(r.members[i], r.members[j])
    {
    }
    assert forall i | 0 <= i < |r.members| ::
      Identity(r.members[i]).Some? <==> KnownKind(r.members[i].originType) && TrimSpace(r.members[i].originName) != "";
  }

  /** An accepted report divides its open connections into reserved and usable ones exactly: the
      64-bit sum cannot wrap unnoticed. */
  lemma CapacityAddsUp(r: Report)
    requires Acceptable(r)
    ensures r.reservedConnections + r.usableConnections == r.effectiveMaxOpen > 0
    ensures |r.members| == r.memberCount == r.allocationCount
  {
  }

  /** An accepted report shares out exactly its usable connections precisely when its
      allocations add up without wrapping around. */
  lemma AllocationsAddUpIff(r: Report)
    requires Acceptable(r) && r.members != []
    ensures TrueTotal(r.members) == r.usableConnections <==> TrueTotal(r.members) <= MAX_INT64
  {
    TotalWraps(r.members);
    TotalPositive(r.members);
  }

  /** Then no engine's quota exceeds the report's usable connections. */
  lemma QuotaWithinUsable(r: Report, self: Member)
    requires Acceptable(r) && TrueTotal(r.members) <= MAX_INT64
    ensures OwnQuota(r, self) <= r.usableConnections
  {
    QuotaIsAMembers(r.members, self);
    if OwnQuota(r, self) > 0 {
      var i :| 0 <= i < |r.members| && r.members[i].maxConnections == OwnQuota(r, self);
      MemberWithinTotal(r.members, i);
      AllocationsAddUpIff(r);
    }
  }

  function Engine(name: string, maxConnections: Int64): Allocation {
    Allocation(ENGINE, name, maxConnections)
  }

  /** Event details pass through float64 on their way here. The largest float64 below 2^63 is
      2^63 - 1024, and it is written back as these digits, so they arrive as they were sent. */
  const LARGEST_QUOTA: Int64 := 9_223_372_036_854_775_000

  /** With wrap-around it can: three allocations whose 64-bit sum is the usable 4. */
  lemma WrappedReportOverAllocates() returns (r: Report)
    ensures Acceptable(r) && r.usableConnections == 4
    ensures OwnQuota(r, Member(ENGINE, "a")) == LARGEST_QUOTA
  {
    hide Identity, Blank, TrueTotal, Acceptable, OwnQuota, Wrap64;
    var a, b, c := Engine("a", LARGEST_QUOTA), Engine("b", LARGEST_QUOTA), Engine("c", 1620);
    EngineNamed("a", LARGEST_QUOTA);
    EngineNamed("b", LARGEST_QUOTA);
    EngineNamed("c", 1620);
    TotalOfThree(a, b, c);
    assert Wrap64(TrueTotal([a, b, c])) == 4 by {
      assert TrueTotal([a, b, c]) == 0x1_0000_0000_0000_0004;
      WrapIsPeriodic(4);
    }
    r := ThreeEngines("a", a, b, c, 3, 4);
  }

  /** Three differently named engines make an acceptable report when their wrapped total is
      the usable capacity. */
  lemma ThreeEngines(id: string, a: Allocation, b: Allocation, c: Allocation, reserved: Int64, usable: Int64)
      returns (r: Report)
    requires !Blank(id) && reserved >= 0 && usable > 0 && reserved + usable <= MAX_INT64
    requires a.maxConnections > 0 && b.maxConnections > 0 && c.maxConnections > 0
    requires Identity(a).Some? && Identity(b).Some? && Identity(c).Some?
    requires Identity(a) != Identity(b) && Identity(b) != Identity(c) && Identity(a) != Identity(c)
    requires Wrap64(TrueTotal([a, b, c])) == usable
    ensures Acceptable(r) && r.usableConnections == usable
    ensures OwnQuota(r, Identity(a).value) == a.maxConnections
  {
    hide Identity, Blank, TrueTotal;
    r := Report("1", id, 1, reserved + usable, reserved, usable, 3, 3, [a, b, c], true);
    TotalWraps(r.members);
  }

  lemma WrapIsPeriodic(n: Int64)
    ensures Wrap64(n + 0x1_0000_0000_0000_0000) == n
  {
  }

  lemma TotalOfThree(a: Allocation, b: Allocation, c: Allocation)
    ensures TrueTotal([a, b, c]) == a.maxConnections + b.maxConnections + c.maxConnections
  {
    assert [a, b, c][..2] == [a, b] && [a, b][..1] == [a] && [a][..0] == [];
    assert TrueTotal([a, b]) == TrueTotal([a]) + b.maxConnections;
  }

  /** One engine of a one-letter name is its own normal form. */
  lemma EngineNamed(name: string, maxConnections: Int64)
    requires |name| == 1 && !IsSpace(name[0])
    ensures Identity(Engine(name, maxConnections)) == Some(Member(ENGINE, name))
    ensures !Blank(name)
  {
    assert Trimmed(name);
    EngineIsNormal();
    hide TrimSpace, ToLower, IsSpace, Trimmed, Identity;
    assert TrimSpace(name) == name;
    EngineIdentity(name, maxConnections);
  }

  lemma EngineIdentity(name: string, maxConnections: Int64)
    requires ToLower(TrimSpace(ENGINE)) == ENGINE && TrimSpace(name) == name != ""
    ensures Identity(Engine(name, maxConnections)) == Some(Member(ENGINE, name))
  {
    hide TrimSpace, ToLower;
  }

  lemma EngineIsNormal()
    ensures ToLower(TrimSpace(ENGINE)) == ENGINE
  {
    assert Trimmed(ENGINE);
    LowerFixed(ENGINE);
  }
}
