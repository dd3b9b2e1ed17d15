/** One leased counter of the key-value store (pkg/common/kvstore.go): a semaphore whose
    expired leases are only cleaned up by the next acquire. */
module LeasedCounter {
  import opened Wrappers

  datatype Lease = Lease(slots: int, owner: string, acquiredAt: int, expiresAt: int)

  datatype Counter = Counter(max: int, current: int, leases: map<string, Lease>, version: int)

  datatype CounterError = BadMax | NegativeCurrent | CurrentAboveMax | CorruptedAfterCleanup | LeaseNotFound | CorruptedAfterRelease

  datatype Acquired = Granted(leaseID: string) | Refused | AcquireFailed(error: CounterError)

  /** What a caller asks for; the lease id is a fresh UUID. */
  datatype Request = Request(slots: int, ttl: int, owner: string, now: int, leaseID: string)

  predicate Expired(lease: Lease, now: int) {
    now > lease.expiresAt
  }

  function Live(leases: map<string, Lease>, now: int): map<string, Lease> {
    map id | id in leases && !Expired(leases[id], now) :: leases[id]
  }

  /** The slots of all leases together; the order of summation does not matter. */
  ghost function TotalSlots(leases: map<string, Lease>): int
    decreases |leases|
  {
    if leases == map[] then 0
    else
      var id :| id in leases;
      leases[id].slots + TotalSlots(leases - {id})
  }

  lemma {:induction false} TotalSlotsSplit(leases: map<string, Lease>, id: string)
    requires id in leases
    ensures TotalSlots(leases) == leases[id].slots + TotalSlots(leases - {id})
    decreases |leases|
  {
    var first :| first in leases && TotalSlots(leases) == leases[first].slots + TotalSlots(leases - {first});
    if first != id {
      TotalSlotsSplit(leases - {first}, id);
      TotalSlotsSplit(leases - {id}, first);
      assert leases - {first} - {id} == leases - {id} - {first};
    }
  }

  lemma TotalSlotsAdd(leases: map<string, Lease>, id: string, lease: Lease)
    requires id !in leases
    ensures TotalSlots(leases[id := lease]) == TotalSlots(leases) + lease.slots
  {
    TotalSlotsSplit(leases[id := lease], id);
    assert leases[id := lease] - {id} == leases;
  }

  predicate PositiveSlots(leases: map<string, Lease>) {
    forall id | id in leases :: leases[id].slots > 0
  }

  lemma {:induction false} TotalSlotsOfPart(part: map<string, Lease>, whole: map<string, Lease>)
    requires PositiveSlots(whole) && part.Keys <= whole.Keys && forall id | id in part :: part[id] == whole[id]
    ensures 0 <= TotalSlots(part) <= TotalSlots(whole)
    decreases |whole|
  {
    if whole != map[] {
      var id :| id in whole;
      TotalSlotsSplit(whole, id);
      if id in part {
        TotalSlotsSplit(part, id);
        TotalSlotsOfPart(part - {id}, whole - {id});
      } else {
        TotalSlotsOfPart(part, whole - {id});
      }
    } else {
      assert part == map[];
    }
  }

  // ------------------------------------------------------------ operations

  /** CreateCounterBase's initial value. */
  function NewCounter(max: int): Counter {
    Counter(max, 0, map[], 1)
  }

  /** The lazy cleanup of expired leases. */
  ghost function Clean(c: Counter, now: int): Counter {
    var live := Live(c.leases, now);
    if live == c.leases then c
    else Counter(c.max, c.current - (TotalSlots(c.leases) - TotalSlots(live)), live, c.version + 1)
  }

  /** TryAcquire's critical section. The counter is copied but its lease table is shared, so
      an error after the cleanup would leave the table changed and the rest as it was. */
  ghost function Acquire(c: Counter, r: Request): (Counter, Acquired) {
    if c.max <= 0 then (c, AcquireFailed(BadMax))
    else if c.current < 0 then (c, AcquireFailed(NegativeCurrent))
    else if c.current > c.max then (c, AcquireFailed(CurrentAboveMax))
    else
      var cleaned := Clean(c, r.now);
      if cleaned.current < 0 then (c.(leases := cleaned.leases), AcquireFailed(CorruptedAfterCleanup))
      else if cleaned.max - cleaned.current < r.slots then (cleaned, Refused)
      else
        (cleaned.(leases := cleaned.leases[r.leaseID := Lease(r.slots, r.owner, r.now, r.now + r.ttl)],
                  current := cleaned.current + r.slots,
                  version := cleaned.version + 1),
         Granted(r.leaseID))
  }

  /** Release's critical section, with the same sharing of the lease table. */
  function ReleaseLease(c: Counter, leaseID: string): (Counter, Option<CounterError>) {
    if leaseID !in c.leases then (c, Some(LeaseNotFound))
    else
      var remaining := c.leases - {leaseID};
      var current := c.current - c.leases[leaseID].slots;
      if current < 0 then (c.(leases := remaining), Some(CorruptedAfterRelease))
      else (c.(leases := remaining, current := current, version := c.version + 1), None)
  }

  // ------------------------------------------------------------- invariant

  ghost predicate Consistent(c: Counter) {
    && c.max > 0
    && PositiveSlots(c.leases)
    && c.current == TotalSlots(c.leases)
    && 0 <= c.current <= c.max
  }

  /** A later state of the same counter: the version counts every change of the leases. */
  predicate Advances(before: Counter, after: Counter) {
    && after.max == before.max
    && before.version <= after.version
    && (after.leases != before.leases ==> before.version < after.version)
  }

  lemma CleanConsistent(c: Counter, now: int)
    requires Consistent(c)
    ensures Consistent(Clean(c, now)) && Advances(c, Clean(c, now))
    ensures Clean(c, now).leases == Live(c.leases, now)
    ensures Clean(c, now).current == TotalSlots(Live(c.leases, now))
  {
    TotalSlotsOfPart(Live(c.leases, now), c.leases);
  }

  /** The leases whose deadline has not passed. */
  function Unexpired(leases: map<string, Lease>, now: int): map<string, Lease> {
    map id | id in leases && now <= leases[id].expiresAt :: leases[id]
  }

  lemma LiveIsUnexpired(leases: map<string, Lease>, now: int)
    ensures Live(leases, now) == Unexpired(leases, now)
  {
  }

  /** Acquiring keeps the counter consistent, never reports corruption, and grants exactly
      when the live leases leave room. */
  lemma AcquireConsistent(c: Counter, r: Request)
    requires Consistent(c) && r.slots > 0 && r.leaseID !in c.leases
    ensures var (after, result) := Acquire(c, r);
            && Consistent(after) && Advances(c, after)
            && !result.AcquireFailed?
            && (result.Granted? <==> r.slots <= c.max - TotalSlots(Unexpired(c.leases, r.now)))
            && after.leases == if result.Granted?
                 then Unexpired(c.leases, r.now)[r.leaseID := Lease(r.slots, r.owner, r.now, r.now + r.ttl)]
                 else Unexpired(c.leases, r.now)
  {
    LiveIsUnexpired(c.leases, r.now);
    CleanConsistent(c, r.now);
    TotalSlotsAdd(Live(c.leases, r.now), r.leaseID, Lease(r.slots, r.owner, r.now, r.now + r.ttl));
  }

  lemma ReleaseConsistent(c: Counter, leaseID: string)
    requires Consistent(c)
    ensures var (after, error) := ReleaseLease(c, leaseID);
            && Consistent(after) && Advances(c, after)
            && error == (if leaseID in c.leases then None else Some(LeaseNotFound))
            && after.leases == c.leases - {leaseID}
  {
    if leaseID in c.leases {
      TotalSlotsSplit(c.leases, leaseID);
      TotalSlotsOfPart(c.leases - {leaseID}, c.leases);
    } else {
      assert c.leases - {leaseID} == c.leases;
    }
  }

  // ------------------------------------------- refinement of an eager semaphore

  datatype Op = AcquireOp(request: Request) | ReleaseOp(leaseID: string, now: int)

  datatype Answer = Yes | No

  function TimeOf(op: Op): int {
    match op case AcquireOp(r) => r.now case ReleaseOp(_, now) => now
  }

  /** The source's counter. */
  ghost function LazyStep(c: Counter, op: Op): (Counter, Answer) {
    match op
    case AcquireOp(r) => var (after, result) := Acquire(c, r); (after, if result.Granted? then Yes else No)
    case ReleaseOp(id, _) => var (after, error) := ReleaseLease(c, id); (after, if error.None? then Yes else No)
  }

  /** The requests granted that have not run out: each lasts for its own ttl from when it was made. */
  function StillHeld(held: map<string, Request>, now: int): map<string, Request> {
    map id | id in held && now <= held[id].now + held[id].ttl :: held[id]
  }

  ghost function SlotsHeld(held: map<string, Request>): int
    decreases |held|
  {
    if held == map[] then 0
    else
      var id :| id in held;
      held[id].slots + SlotsHeld(held - {id})
  }

  /** The specification: it holds exactly the requests granted, not released and not run out. */
  ghost function EagerStep(max: int, held: map<string, Request>, op: Op): (map<string, Request>, Answer) {
    var standing := StillHeld(held, TimeOf(op));
    match op
    case AcquireOp(r) =>
      if r.slots <= max - SlotsHeld(standing) then (standing[r.leaseID := r], Yes) else (standing, No)
    case ReleaseOp(id, _) => (standing - {id}, if id in standing then Yes else No)
  }

  ghost function LazyRun(c: Counter, ops: seq<Op>): (Counter, seq<Answer>)
    decreases |ops|
  {
    if ops == [] then (c, [])
    else
      var (c', answer) := LazyStep(c, ops[0]);
      var (end, answers) := LazyRun(c', ops[1..]);
      (end, [answer] + answers)
  }

  ghost function EagerRun(max: int, held: map<string, Request>, ops: seq<Op>): (map<string, Request>, seq<Answer>)
    decreases |ops|
  {
    if ops == [] then (held, [])
    else
      var (held', answer) := EagerStep(max, held, ops[0]);
      var (end, answers) := EagerRun(max, held', ops[1..]);
      (end, [answer] + answers)
  }

  /** A non-decreasing clock, positive requests, and lease ids never used before. */
  predicate Plausible(ops: seq<Op>, clock: int, used: set<string>)
    decreases |ops|
  {
    ops == [] ||
    (clock <= TimeOf(ops[0])
     && (ops[0].AcquireOp? ==> ops[0].request.slots > 0 && ops[0].request.ttl > 0 && ops[0].request.leaseID !in used)
     && Plausible(ops[1..], TimeOf(ops[0]), if ops[0].AcquireOp? then used + {ops[0].request.leaseID} else used))
  }

  /** The lease a granted request gets. */
  function LeaseFor(r: Request): Lease {
    Lease(r.slots, r.owner, r.now, r.now + r.ttl)
  }

  function LeasesFor(held: map<string, Request>): map<string, Lease> {
    map id | id in held :: LeaseFor(held[id])
  }

  /** What the two machines agree on: the leases that have not run out. */
  ghost predicate Related(c: Counter, max: int, held: map<string, Request>, clock: int, used: set<string>) {
    && Consistent(c) && c.max == max
    && Unexpired(c.leases, clock) == LeasesFor(StillHeld(held, clock))
    && c.leases.Keys <= used && held.Keys <= used
  }

  lemma {:induction false} SlotsAgree(held: map<string, Request>)
    ensures SlotsHeld(held) == TotalSlots(LeasesFor(held))
    decreases |held|
  {
    if held != map[] {
      var id :| id in held && SlotsHeld(held) == held[id].slots + SlotsHeld(held - {id});
      SlotsAgree(held - {id});
      TotalSlotsSplit(LeasesFor(held), id);
      assert LeasesFor(held) - {id} == LeasesFor(held - {id});
    }
  }

  lemma UnexpiredLater(leases: map<string, Lease>, clock: int, later: int)
    requires clock <= later
    ensures Unexpired(Unexpired(leases, clock), later) == Unexpired(leases, later)
  {
  }

  lemma HeldLater(held: map<string, Request>, clock: int, later: int)
    requires clock <= later
    ensures LeasesFor(StillHeld(held, later)) == Unexpired(LeasesFor(StillHeld(held, clock)), later)
    ensures StillHeld(StillHeld(held, later), later) == StillHeld(held, later)
  {
  }

  lemma StepRelated(c: Counter, max: int, held: map<string, Request>, clock: int, used: set<string>, op: Op)
    requires Related(c, max, held, clock, used) && Plausible([op], clock, used)
    ensures var (c', lazy), (held', eager) := LazyStep(c, op), EagerStep(max, held, op);
            && Related(c', max, held', TimeOf(op), if op.AcquireOp? then used + {op.request.leaseID} else used)
            && (lazy != eager <==> ReleasesExpired(c, op))
            && (lazy != eager ==> lazy == Yes)
  {
    hide Unexpired, StillHeld, LeasesFor, TotalSlots, SlotsHeld, Acquire, ReleaseLease, Consistent;
    var now := TimeOf(op);
    UnexpiredLater(c.leases, clock, now);
    HeldLater(held, clock, now);
    HeldLater(held, now, now);
    var standing := StillHeld(held, now);
    HeldKeys(held, now);
    match op
    case AcquireOp(r) =>
      AcquireConsistent(c, r);
      SlotsAgree(standing);
      AcquiredRelated(c.leases, standing, r);
      UnexpiredKeys(c.leases, now);
    case ReleaseOp(id, _) =>
      ReleaseConsistent(c, id);
      ReleasedRelated(c.leases, standing, id, now);
  }

  lemma HeldKeys(held: map<string, Request>, now: int)
    ensures StillHeld(held, now).Keys <= held.Keys
  {
  }

  lemma UnexpiredKeys(leases: map<string, Lease>, now: int)
    ensures Unexpired(leases, now).Keys <= leases.Keys
  {
  }

  lemma AcquiredRelated(leases: map<string, Lease>, standing: map<string, Request>, r: Request)
    requires r.ttl > 0 && StillHeld(standing, r.now) == standing && Unexpired(leases, r.now) == LeasesFor(standing)
    ensures Unexpired(Unexpired(leases, r.now)[r.leaseID := LeaseFor(r)], r.now)
            == LeasesFor(StillHeld(standing[r.leaseID := r], r.now))
    ensures Unexpired(Unexpired(leases, r.now), r.now) == LeasesFor(StillHeld(standing, r.now))
  {
  }

  lemma ReleasedRelated(leases: map<string, Lease>, standing: map<string, Request>, id: string, now: int)
    requires StillHeld(standing, now) == standing && Unexpired(leases, now) == LeasesFor(standing)
    ensures Unexpired(leases - {id}, now) == LeasesFor(StillHeld(standing - {id}, now))
    ensures id in standing <==> id in leases && now <= leases[id].expiresAt
  {
    assert id in standing <==> id in Unexpired(leases, now);
    var left := Unexpired(leases, now) - {id};
    assert Unexpired(leases - {id}, now) == left;
    assert forall other | other in standing - {id} :: (standing - {id})[other] == StillHeld(standing, now)[other];
    assert StillHeld(standing - {id}, now) == standing - {id};
    assert left == LeasesFor(standing - {id});
  }

  /** A release at a time when its lease has expired but is still in the table. */
  ghost predicate ReleasesExpired(c: Counter, op: Op) {
    op.ReleaseOp? && op.leaseID in c.leases && op.now > c.leases[op.leaseID].expiresAt
  }

  /** The counter before operation `i` of a run. */
  ghost function Before(c: Counter, ops: seq<Op>, i: nat): Counter
    requires i <= |ops|
    decreases i
  {
    if i == 0 then c else Before(LazyStep(c, ops[0]).0, ops[1..], i - 1)
  }

  /** Over every plausible run the lazily cleaned counter answers every acquire exactly as a
      semaphore that holds each granted request until its ttl has passed; a release is answered differently
      exactly when it is of a lease that has expired and not been cleaned up, and then the
      counter accepts it and the semaphore does not; and it never holds more than Max. */
  lemma {:induction false} LazyRefinesEager(c: Counter, max: int, held: map<string, Request>, clock: int,
                                            used: set<string>, ops: seq<Op>)
    requires Related(c, max, held, clock, used) && Plausible(ops, clock, used)
    ensures var (end, lazy), (_, eager) := LazyRun(c, ops), EagerRun(max, held, ops);
            && Consistent(end) && c.version <= end.version
            && |lazy| == |eager| == |ops|
            && forall i | 0 <= i < |ops| ::
                 && (lazy[i] != eager[i] <==> ReleasesExpired(Before(c, ops, i), ops[i]))
                 && (lazy[i] != eager[i] ==> lazy[i] == Yes)
    decreases |ops|
  {
    if ops != [] {
      StepRelated(c, max, held, clock, used, ops[0]);
      hide LazyStep, EagerStep, Related, ReleasesExpired, Consistent;
      var c', held' := LazyStep(c, ops[0]).0, EagerStep(max, held, ops[0]).0;
      VersionAdvances(c, ops[0]);
      LazyRefinesEager(c', max, held', TimeOf(ops[0]),
                       if ops[0].AcquireOp? then used + {ops[0].request.leaseID} else used, ops[1..]);
      forall i | 0 < i < |ops| ensures Before(c, ops, i) == Before(c', ops[1..], i - 1) {
      }
    }
  }

  predicate Releases(op: Op, id: string) {
    op.ReleaseOp? && op.leaseID == id
  }

  function EndTime(clock: int, ops: seq<Op>): int
    decreases |ops|
  {
    if ops == [] then clock else EndTime(TimeOf(ops[0]), ops[1..])
  }

  /** The lease of a granted request, while nobody releases it: there with the request's own
      slots and deadline up to now + ttl, and counted no longer afterwards. */
  predicate Lasting(c: Counter, r: Request, t: int) {
    && (r.leaseID in Unexpired(c.leases, t) <==> t <= r.now + r.ttl)
    && (r.leaseID in c.leases ==> c.leases[r.leaseID] == LeaseFor(r))
  }

  lemma {:induction false} LeaseLasts(c: Counter, r: Request, clock: int, used: set<string>, ops: seq<Op>, t: int)
    requires Consistent(c) && c.leases.Keys <= used && r.leaseID in used && Lasting(c, r, clock)
    requires Plausible(ops, clock, used) && EndTime(clock, ops) <= t
    requires forall i | 0 <= i < |ops| :: !Releases(ops[i], r.leaseID)
    ensures Lasting(LazyRun(c, ops).0, r, t)
    decreases |ops|
  {
    if ops == [] {
    } else {
      var op := ops[0];
      StepLasts(c, r, clock, used, op);
      hide Lasting, Consistent, LazyStep;
      LeaseLasts(LazyStep(c, op).0, r, TimeOf(op), if op.AcquireOp? then used + {op.request.leaseID} else used, ops[1..], t);
    }
  }

  lemma StepLasts(c: Counter, r: Request, clock: int, used: set<string>, op: Op)
    requires Consistent(c) && c.leases.Keys <= used && r.leaseID in used && Lasting(c, r, clock)
    requires Plausible([op], clock, used) && !Releases(op, r.leaseID)
    ensures var after := LazyStep(c, op).0;
            && Consistent(after) && Lasting(after, r, TimeOf(op))
            && after.leases.Keys <= if op.AcquireOp? then used + {op.request.leaseID} else used
  {
    hide Acquire, ReleaseLease, Consistent, TotalSlots;
    match op
    case AcquireOp(request) => AcquireConsistent(c, request);
    case ReleaseOp(id, _) => ReleaseConsistent(c, id);
  }

  /** Once granted, a request holds its slots at time `t` exactly when t <= now + ttl, over every
      plausible run in which its lease is not released. */
  lemma GrantLasts(c: Counter, r: Request, used: set<string>, ops: seq<Op>, t: int)
    requires Consistent(c) && c.leases.Keys <= used && Plausible([AcquireOp(r)], r.now, used) && Acquire(c, r).1.Granted?
    requires Plausible(ops, r.now, used + {r.leaseID}) && EndTime(r.now, ops) <= t
    requires forall i | 0 <= i < |ops| :: !Releases(ops[i], r.leaseID)
    ensures var end := LazyRun(Acquire(c, r).0, ops).0;
            && (r.leaseID in Unexpired(end.leases, t) <==> t <= r.now + r.ttl)
            && (t <= r.now + r.ttl ==> end.leases[r.leaseID] == Lease(r.slots, r.owner, r.now, r.now + r.ttl))
  {
    hide Acquire, Consistent, LazyRun, TotalSlots;
    AcquireConsistent(c, r);
    LeaseLasts(Acquire(c, r).0, r, r.now, used + {r.leaseID}, ops, t);
  }

  lemma VersionAdvances(c: Counter, op: Op)
    requires Consistent(c) && (op.AcquireOp? ==> op.request.slots > 0 && op.request.leaseID !in c.leases)
    ensures c.version <= LazyStep(c, op).0.version
  {
    match op
    case AcquireOp(r) => AcquireConsistent(c, r);
    case ReleaseOp(id, _) => ReleaseConsistent(c, id);
  }

  /** A new counter starts out as the empty semaphore. */
  lemma NewCounterRefines(max: int, clock: int, ops: seq<Op>)
    requires max > 0 && Plausible(ops, clock, {})
    ensures var (end, lazy), (_, eager) := LazyRun(NewCounter(max), ops), EagerRun(max, map[], ops);
            && Consistent(end)
            && |lazy| == |eager| == |ops|
            && forall i | 0 <= i < |ops| ::
                 && (lazy[i] != eager[i] <==> ReleasesExpired(Before(NewCounter(max), ops, i), ops[i]))
                 && (lazy[i] != eager[i] ==> lazy[i] == Yes)
  {
    LazyRefinesEager(NewCounter(max), max, map[], clock, {}, ops);
  }
}
