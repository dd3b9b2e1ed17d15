/** What the whole store interface keeps of the counters made by CreateCounterBase, as long as
    no other entry shares their lease tables, and what happens when one does. */
module KeyValueProperties {
  import opened Wrappers
  import opened Text
  import opened LeasedCounter
  import opened KeyValueStore

  /** The operations that change the store, and a caller making a lease table of its own. */
  datatype StoreOp =
    | Create(key: string, max: int, source: string, id: nat)
    | MakeTable(id: nat, leases: map<string, Lease>)
    | TryAcquire(key: string, request: Request)
    | Release(key: string, leaseID: string)
    | Set(key: string, value: Value, properties: Properties, typeName: string)
    | Increment(key: string, ctxID: string, step: int)
    | Delete(key: string, ctxID: string, persistentToo: bool)
    | DeleteMany(sweep: Sweep)

  ghost function Apply(store: Store, op: StoreOp): Store {
    match op
    case Create(key, max, source, id) => CreatedStore(store, key, max, source, id).0
    case MakeTable(id, leases) => store.(tables := store.tables[id := leases])
    case TryAcquire(key, r) => AcquiredStore(store, key, r).0
    case Release(key, id) => ReleasedStore(store, key, id).0
    case Set(key, value, properties, typeName) =>
      store.(entries := SetEntries(store.entries, key, value, properties, typeName).0)
    case Increment(key, ctxID, step) => store.(entries := IncrementedEntries(store.entries, key, ctxID, step).0)
    case Delete(key, ctxID, persistentToo) => store.(entries := DeletedEntries(store.entries, key, ctxID, persistentToo).0)
    case DeleteMany(sweep) => store.(entries := SweptEntries(store.entries, sweep))
  }

  /** The value's lease table, if it has one, has been made. */
  predicate TableMade(tables: Tables, value: Value) {
    value.CounterValue? && value.record.table.Some? ==> value.record.table.value in tables
  }

  /** A table that is made is new, so is the id of every lease asked for, and a counter value can
      only be stored with a table that has been made. */
  ghost predicate Possible(store: Store, op: StoreOp, used: set<string>) {
    && (op.Create? || op.MakeTable? ==> NewTable(store.tables, op.id))
    && (op.TryAcquire? ==> op.request.leaseID !in used)
    && (op.Set? ==> TableMade(store.tables, op.value))
  }

  function UsedAfter(op: StoreOp, used: set<string>): set<string> {
    if op.TryAcquire? then used + {op.request.leaseID} else used
  }

  /** NewKeyValueStore. */
  const EMPTY := Store(map[], map[])

  predicate HoldsCounter(store: Store, full: string) {
    full in store.entries && IsCounterEntry(store.entries[full])
  }

  function TableOf(store: Store, full: string): Option<nat>
    requires HoldsCounter(store, full)
  {
    store.entries[full].value.record.table
  }

  /** A counter as CreateCounterBase makes them, at full key `full`. */
  ghost predicate CounterStands(store: Store, full: string) {
    && HoldsCounter(store, full) && Allocated(store.tables, TableOf(store, full))
    && store.entries[full].properties.persistent && store.entries[full].properties.isStatic
    && !store.entries[full].properties.sessionValid
    && Consistent(CounterIn(store, full))
  }

  // ------------------------------------------------- who shares a lease table

  /** The key addresses the entry without the fallback to the shorter full key. */
  predicate Names(key: string, f: string) {
    !Blank(key) && f == FullKey(key, "")
  }

  /** While the counter at `full` stands, some sequence of operations can make WithCounter work
      on the entry at `f`: only an entry hidden behind `full` itself is out of reach. */
  ghost predicate Reach(f: string, full: string) {
    f != full && (f + ":" != full || exists key :: Names(key, f))
  }

  predicate SameTable(store: Store, f: string, full: string)
    requires HoldsCounter(store, full)
  {
    HoldsCounter(store, f) && TableOf(store, f) == TableOf(store, full)
  }

  /** No other counter entry that can be reached has the counter's lease table. */
  ghost predicate Private(store: Store, full: string)
    requires HoldsCounter(store, full)
  {
    forall f | f in store.entries && Reach(f, full) :: !SameTable(store, f, full)
  }

  /** The Set stores a counter value holding the counter's own lease table, in reach. */
  ghost predicate Shares(store: Store, op: StoreOp, full: string)
    requires HoldsCounter(store, full)
  {
    op.Set? && !Blank(op.key) &&
    var f := FullKey(TrimSpace(op.key), op.properties.ctxID);
    var ignored := op.properties.isStatic && f in store.entries && store.entries[f].properties.isStatic;
    && Reach(f, full) && !ignored && SetProperties(op.properties, op.typeName).kind == COUNTER
    && op.value.CounterValue? && op.value.record.table == TableOf(store, full)
  }

  /** The only two operations that can take a standing counter away: a non-static Set on its
      full key, and DeleteByCID with the persistent flag on its context. */
  predicate TakesAway(op: StoreOp, full: string) {
    match op
    case Set(key, _, properties, _) => !Blank(key) && FullKey(TrimSpace(key), properties.ctxID) == full && !properties.isStatic
    case DeleteMany(ByContext(ctxID, persistentToo)) => persistentToo && InContext(full, ctxID)
    case _ => false
  }

  /** The operation goes through WithCounter to this very entry. */
  predicate Targets(store: Store, op: StoreOp, full: string) {
    match op
    case TryAcquire(key, _) => CounterKey(store.entries, key) == Some(full)
    case Release(key, _) => CounterKey(store.entries, key) == Some(full)
    case _ => false
  }

  lemma AddressedIsReached(entries: Entries, key: string, f: string, full: string)
    requires full in entries && !Blank(key) && CounterKey(entries, key) == Some(f) && f != full
    ensures Reach(f, full)
  {
    var direct := FullKey(key, "");
    if direct in entries {
      assert Names(key, f);
    } else {
      assert f + ":" == direct;
    }
  }

  // ------------------------------------------------------------ one operation

  lemma CreatedCounterStands(store: Store, key: string, max: int, source: string, id: nat)
    requires NewTable(store.tables, id)
    ensures var (store', error) := CreatedStore(store, key, max, source, id);
            && (error.None? <==> max > 0 && FullKey(key, "") !in store.entries)
            && (error.None? ==> CounterStands(store', FullKey(key, "")))
            && (error.Some? ==> store' == store)
  {
    hide FullKey;
  }

  /** Every lease table in the store has been made. */
  predicate TablesMade(store: Store) {
    forall f | f in store.entries :: TableMade(store.tables, store.entries[f].value)
  }

  lemma OperationKeepsTablesMade(store: Store, op: StoreOp, used: set<string>)
    requires TablesMade(store) && Possible(store, op, used)
    ensures TablesMade(Apply(store, op))
  {
    hide FullKey, TrimSpace, InContext, Acquire, ReleaseLease, SetProperties;
  }

  /** So the table a counter is created with is its own. */
  lemma CreatedCounterIsPrivate(store: Store, key: string, max: int, source: string, id: nat)
    requires NewTable(store.tables, id) && TablesMade(store)
    requires CreatedStore(store, key, max, source, id).1.None?
    ensures var created, full := CreatedStore(store, key, max, source, id).0, FullKey(key, "");
            CounterStands(created, full) && Private(created, full) && CounterIn(created, full) == NewCounter(max)
  {
    CreatedCounterStands(store, key, max, source, id);
    hide FullKey, Reach;
    var created, full := CreatedStore(store, key, max, source, id).0, FullKey(key, "");
    forall f | f in created.entries && Reach(f, full) ensures !SameTable(created, f, full) {
      assert f != full ==> TableMade(store.tables, store.entries[f].value);
    }
  }

  /** One operation on the store, seen from one standing counter whose lease table is private:
      unless the operation takes it away the counter stands, its version counts its changes,
      and only acquires and releases addressed to it change it or its table at all. */
  lemma OperationKeepsCounter(store: Store, op: StoreOp, full: string, used: set<string>)
    requires CounterStands(store, full) && Private(store, full) && Possible(store, op, used)
    requires CounterIn(store, full).leases.Keys <= used && !TakesAway(op, full)
    ensures CounterStands(Apply(store, op), full)
    ensures Advances(CounterIn(store, full), CounterIn(Apply(store, op), full))
    ensures CounterIn(Apply(store, op), full).leases.Keys <= UsedAfter(op, used)
    ensures !Targets(store, op, full) ==>
              Apply(store, op).entries[full] == store.entries[full]
              && CounterIn(Apply(store, op), full) == CounterIn(store, full)
  {
    hide FullKey, InContext, TrimSpace, Acquire, ReleaseLease, Private, Consistent;
    match op
    case TryAcquire(key, r) =>
      if !Blank(key) && r.slots > 0 && CounterAt(store.entries, key).Ok? {
        AcquireKeeps(store, key, r, full);
      }
    case Release(key, id) =>
      if !Blank(key) && CounterAt(store.entries, key).Ok? {
        ReleaseKeeps(store, key, id, full);
      }
    case _ =>
  }

  lemma AcquireKeeps(store: Store, key: string, r: Request, full: string)
    requires CounterStands(store, full) && Private(store, full)
    requires r.leaseID !in CounterIn(store, full).leases && r.slots > 0
    requires !Blank(key) && CounterAt(store.entries, key).Ok?
    ensures var after := AcquiredStore(store, key, r).0;
            && CounterStands(after, full)
            && Advances(CounterIn(store, full), CounterIn(after, full))
            && CounterIn(after, full).leases.Keys <= CounterIn(store, full).leases.Keys + {r.leaseID}
            && (CounterKey(store.entries, key) != Some(full) ==>
                  after.entries[full] == store.entries[full] && CounterIn(after, full) == CounterIn(store, full))
  {
    hide Clean, FullKey, TrimSpace, TotalSlots;
    var f := CounterAt(store.entries, key).value;
    if f == full {
      AcquireConsistent(CounterIn(store, full), r);
    } else {
      AddressedIsReached(store.entries, key, f, full);
      assert !SameTable(store, f, full);
    }
    hide CounterAt, CounterKey, Acquire, Reach, Blank;
  }

  lemma ReleaseKeeps(store: Store, key: string, leaseID: string, full: string)
    requires CounterStands(store, full) && Private(store, full)
    requires !Blank(key) && CounterAt(store.entries, key).Ok?
    ensures var after := ReleasedStore(store, key, leaseID).0;
            && CounterStands(after, full)
            && Advances(CounterIn(store, full), CounterIn(after, full))
            && CounterIn(after, full).leases.Keys <= CounterIn(store, full).leases.Keys
            && (CounterKey(store.entries, key) != Some(full) ==>
                  after.entries[full] == store.entries[full] && CounterIn(after, full) == CounterIn(store, full))
  {
    hide FullKey, TrimSpace, TotalSlots;
    var f := CounterAt(store.entries, key).value;
    if f == full {
      ReleaseConsistent(CounterIn(store, full), leaseID);
    } else {
      AddressedIsReached(store.entries, key, f, full);
      assert !SameTable(store, f, full);
    }
    hide CounterAt, CounterKey, ReleaseLease, Reach, Blank;
  }

  lemma KeepsItsTable(store: Store, op: StoreOp, full: string, used: set<string>)
    requires CounterStands(store, full) && Possible(store, op, used) && !TakesAway(op, full) && !op.Set?
    ensures HoldsCounter(Apply(store, op), full) && TableOf(Apply(store, op), full) == TableOf(store, full)
  {
    hide FullKey, TrimSpace, InContext, Acquire, ReleaseLease;
  }

  /** The lease table stays private through the operation exactly when the operation is not a
      Set that stores it under another key. */
  lemma PrivacyKeptIff(store: Store, op: StoreOp, full: string, used: set<string>)
    requires CounterStands(store, full) && Private(store, full) && Possible(store, op, used)
    requires CounterIn(store, full).leases.Keys <= used && !TakesAway(op, full)
    ensures HoldsCounter(Apply(store, op), full)
    ensures Private(Apply(store, op), full) <==> !Shares(store, op, full)
  {
    hide FullKey, TrimSpace, Reach, Apply, TakesAway, Possible, Advances;
    OperationKeepsCounter(store, op, full, used);
    if op.Set? {
      SetSharesIff(store, op, full);
    } else {
      KeepsItsTable(store, op, full, used);
      forall f | f in Apply(store, op).entries && Reach(f, full) ensures !SameTable(Apply(store, op), f, full) {
        if HoldsCounter(Apply(store, op), f) {
          OnlySetStoresTables(store, op, f, full, used);
        }
      }
    }
  }

  lemma SetSharesIff(store: Store, op: StoreOp, full: string)
    requires CounterStands(store, full) && Private(store, full) && op.Set? && !TakesAway(op, full)
    ensures HoldsCounter(Apply(store, op), full)
    ensures Private(Apply(store, op), full) <==> !Shares(store, op, full)
  {
    hide FullKey, TrimSpace, Reach, Consistent;
    if Shares(store, op, full) {
      var f := FullKey(TrimSpace(op.key), op.properties.ctxID);
      assert f in Apply(store, op).entries && SameTable(Apply(store, op), f, full);
    } else {
      forall f | f in Apply(store, op).entries && Reach(f, full) ensures !SameTable(Apply(store, op), f, full) {
        assert f in store.entries ==> !SameTable(store, f, full);
      }
    }
  }

  /** Every other operation leaves an entry with the table it had, or with a new one. */
  lemma OnlySetStoresTables(store: Store, op: StoreOp, f: string, full: string, used: set<string>)
    requires !op.Set? && HoldsCounter(Apply(store, op), f) && Possible(store, op, used)
    requires HoldsCounter(store, full) && Allocated(store.tables, TableOf(store, full))
    requires HoldsCounter(Apply(store, op), full) && Apply(store, op).entries[full].value.record.table == TableOf(store, full)
    ensures TableOf(Apply(store, op), f) == TableOf(store, full) ==> HoldsCounter(store, f) && SameTable(store, f, full)
  {
    hide FullKey, TrimSpace, InContext, Acquire, ReleaseLease;
  }

  /** An operation that takes the counter away leaves something else or nothing at its full key. */
  lemma TakenAway(store: Store, op: StoreOp, full: string)
    requires CounterStands(store, full) && TakesAway(op, full)
    ensures !CounterStands(Apply(store, op), full)
  {
    hide FullKey, InContext, TrimSpace;
  }

  /** So a counter with a private table outlives an operation exactly when that operation is
      neither a non-static Set on its full key nor DeleteByCID with the persistent flag. */
  lemma KeptIffNotTaken(store: Store, op: StoreOp, full: string, used: set<string>)
    requires CounterStands(store, full) && Private(store, full) && Possible(store, op, used)
    requires CounterIn(store, full).leases.Keys <= used
    ensures CounterStands(Apply(store, op), full) <==> !TakesAway(op, full)
  {
    hide TakesAway, Apply, CounterStands, Private, Possible;
    if TakesAway(op, full) {
      TakenAway(store, op, full);
    } else {
      OperationKeepsCounter(store, op, full, used);
    }
  }

  /** On a standing counter the source's corruption errors cannot occur: an acquire is granted
      or refused, exactly by the room the live leases leave, and a release either succeeds
      or did not find its lease. */
  lemma NoCorruptionErrors(store: Store, key: string, full: string, r: Request, leaseID: string)
    requires CounterStands(store, full) && CounterKey(store.entries, key) == Some(full) && !Blank(key)
    requires r.slots > 0 && r.ttl > 0 && r.leaseID !in CounterIn(store, full).leases && !Blank(leaseID)
    ensures var c, result := CounterIn(store, full), AcquiredStore(store, key, r).1;
            result == Ok(if r.slots <= c.max - TotalSlots(Unexpired(c.leases, r.now)) then Granted(r.leaseID) else Refused)
    ensures ReleasedStore(store, key, leaseID).1
         == if leaseID in CounterIn(store, full).leases then None else Some(InCounter(LeaseNotFound))
  {
    hide FullKey, Blank;
    AcquireConsistent(CounterIn(store, full), r);
    ReleaseConsistent(CounterIn(store, full), leaseID);
  }

  predicate AnyExpired(leases: map<string, Lease>, now: int) {
    exists id :: id in leases && now > leases[id].expiresAt
  }

  /** The snapshot of a standing counter is never an error. It counts expired leases still in
      the table, so it never overstates what an acquire would find free, and it states exactly
      that precisely when no lease has expired. */
  lemma SnapshotNeverOverstates(store: Store, key: string, now: int)
    requires CounterStands(store, FullKey(key, "")) && !Blank(key)
    ensures InfoOf(store, key).Ok?
    ensures var c, info := CounterIn(store, FullKey(key, "")), InfoOf(store, key).value;
            && info.current == TotalSlots(c.leases) && info.leases == |c.leases|
            && info.available <= c.max - TotalSlots(Unexpired(c.leases, now))
            && (info.available == c.max - TotalSlots(Unexpired(c.leases, now)) <==> !AnyExpired(c.leases, now))
  {
    hide FullKey, Blank;
    var leases := CounterIn(store, FullKey(key, "")).leases;
    TotalSlotsOfPart(Unexpired(leases, now), leases);
    if id :| id in leases && now > leases[id].expiresAt {
      TotalSlotsSplit(leases, id);
      TotalSlotsOfPart(Unexpired(leases, now), leases - {id});
    } else {
      assert Unexpired(leases, now) == leases;
    }
  }

  // ------------------------------------------------------------- whole runs

  ghost function ApplyAll(store: Store, ops: seq<StoreOp>): Store
    decreases |ops|
  {
    if ops == [] then store else ApplyAll(Apply(store, ops[0]), ops[1..])
  }

  /** A run that neither takes the counter away nor stores its lease table under another key,
      in which new tables and lease ids are new. */
  ghost predicate Considerate(store: Store, ops: seq<StoreOp>, full: string, used: set<string>)
    decreases |ops|
  {
    ops == [] ||
    (&& HoldsCounter(store, full) && Possible(store, ops[0], used)
     && !TakesAway(ops[0], full) && !Shares(store, ops[0], full)
     && Considerate(Apply(store, ops[0]), ops[1..], full, UsedAfter(ops[0], used)))
  }

  /** Over every considerate run of the whole interface a counter whose lease table is private
      keeps its maximum, its current count equals the slots of its leases and lies in 0..Max,
      its version never decreases and changes whenever the leases do. */
  lemma {:induction false} RunKeepsCounter(store: Store, ops: seq<StoreOp>, full: string, used: set<string>)
    requires CounterStands(store, full) && Private(store, full)
    requires CounterIn(store, full).leases.Keys <= used && Considerate(store, ops, full, used)
    ensures CounterStands(ApplyAll(store, ops), full) && Private(ApplyAll(store, ops), full)
    ensures Advances(CounterIn(store, full), CounterIn(ApplyAll(store, ops), full))
    decreases |ops|
  {
    if ops != [] {
      hide TakesAway, Apply, Targets, CounterStands, Private, Shares, Possible, CounterIn;
      OperationKeepsCounter(store, ops[0], full, used);
      PrivacyKeptIff(store, ops[0], full, used);
      RunKeepsCounter(Apply(store, ops[0]), ops[1..], full, UsedAfter(ops[0], used));
    }
  }

  /** The operation as the counter sees it: an acquire or a release addressed to it with a valid
      request, or nothing. (The counter's own release does not look at the time.) */
  ghost function Addressed(store: Store, op: StoreOp, full: string): seq<Op> {
    match op
    case TryAcquire(key, r) =>
      if TrimSpace(key) != "" && r.slots > 0 && r.ttl > 0 && CounterKey(store.entries, key) == Some(full) then [AcquireOp(r)] else []
    case Release(key, id) =>
      if TrimSpace(key) != "" && TrimSpace(id) != "" && CounterKey(store.entries, key) == Some(full) then [ReleaseOp(id, 0)] else []
    case _ => []
  }

  ghost function AddressedAll(store: Store, ops: seq<StoreOp>, full: string): seq<Op>
    decreases |ops|
  {
    if ops == [] then [] else Addressed(store, ops[0], full) + AddressedAll(Apply(store, ops[0]), ops[1..], full)
  }

  lemma CounterSteps(store: Store, op: StoreOp, full: string, used: set<string>)
    requires CounterStands(store, full) && Private(store, full) && Possible(store, op, used)
    requires CounterIn(store, full).leases.Keys <= used && !TakesAway(op, full)
    ensures HoldsCounter(Apply(store, op), full)
    ensures CounterIn(Apply(store, op), full) == LazyRun(CounterIn(store, full), Addressed(store, op, full)).0
  {
    OperationKeepsCounter(store, op, full, used);
    hide FullKey, TrimSpace, Private, Consistent, Possible, TakesAway;
    if Addressed(store, op, full) != [] {
      match op
      case TryAcquire(key, r) =>
        AddressedAcquire(store, key, r, full, used);
        OneStep(CounterIn(store, full), AcquireOp(r));
      case Release(key, id) =>
        AddressedRelease(store, key, id, full);
        OneStep(CounterIn(store, full), ReleaseOp(id, 0));
    } else {
      UnaddressedKeeps(store, op, full);
    }
  }

  lemma OneStep(c: Counter, op: Op)
    ensures LazyRun(c, [op]).0 == LazyStep(c, op).0
  {
    hide LazyStep;
    assert [op][1..] == [];
  }

  lemma AddressedAcquire(store: Store, key: string, r: Request, full: string, used: set<string>)
    requires CounterStands(store, full) && CounterIn(store, full).leases.Keys <= used && r.leaseID !in used
    requires !Blank(key) && r.slots > 0 && r.ttl > 0 && CounterKey(store.entries, key) == Some(full)
    ensures HoldsCounter(AcquiredStore(store, key, r).0, full)
    ensures CounterIn(AcquiredStore(store, key, r).0, full) == Acquire(CounterIn(store, full), r).0
  {
    hide FullKey, Acquire, Consistent, CounterKey, Blank;
  }

  lemma AddressedRelease(store: Store, key: string, id: string, full: string)
    requires CounterStands(store, full)
    requires !Blank(key) && !Blank(id) && CounterKey(store.entries, key) == Some(full)
    ensures HoldsCounter(ReleasedStore(store, key, id).0, full)
    ensures CounterIn(ReleasedStore(store, key, id).0, full) == ReleaseLease(CounterIn(store, full), id).0
  {
    hide FullKey, ReleaseLease, Consistent, CounterKey, Blank;
  }

  lemma UnaddressedKeeps(store: Store, op: StoreOp, full: string)
    requires HoldsCounter(store, full) && HoldsCounter(Apply(store, op), full) && Addressed(store, op, full) == []
    requires !Targets(store, op, full) ==> CounterIn(Apply(store, op), full) == CounterIn(store, full)
    ensures CounterIn(Apply(store, op), full) == CounterIn(store, full)
  {
    hide FullKey, TrimSpace, CounterIn;
  }

  /** Seen from a standing counter with its own lease table, a considerate run of the whole store is
      the run of the acquires and releases addressed to it: the store adds nothing to the counter
      whose refinement of a semaphore is proved. */
  lemma {:induction false} StoreRunIsCounterRun(store: Store, ops: seq<StoreOp>, full: string, used: set<string>)
    requires CounterStands(store, full) && Private(store, full)
    requires CounterIn(store, full).leases.Keys <= used && Considerate(store, ops, full, used)
    ensures HoldsCounter(ApplyAll(store, ops), full)
    ensures CounterIn(ApplyAll(store, ops), full) == LazyRun(CounterIn(store, full), AddressedAll(store, ops, full)).0
    decreases |ops|
  {
    if ops != [] {
      hide TakesAway, Apply, Targets, CounterStands, Private, Shares, Possible, CounterIn, LazyRun, Addressed;
      CounterSteps(store, ops[0], full, used);
      OperationKeepsCounter(store, ops[0], full, used);
      PrivacyKeptIff(store, ops[0], full, used);
      StoreRunIsCounterRun(Apply(store, ops[0]), ops[1..], full, UsedAfter(ops[0], used));
      RunsJoin(CounterIn(store, full), Addressed(store, ops[0], full), AddressedAll(Apply(store, ops[0]), ops[1..], full));
    } else {
      NothingRun(CounterIn(store, full));
    }
  }

  lemma NothingRun(c: Counter)
    ensures LazyRun(c, []).0 == c
  {
  }

  lemma {:induction false} RunsJoin(c: Counter, a: seq<Op>, b: seq<Op>)
    ensures LazyRun(c, a + b).0 == LazyRun(LazyRun(c, a).0, b).0
    decreases |a|
  {
    hide LazyStep;
    if a == [] {
      assert a + b == b;
    } else {
      assert (a + b)[1..] == a[1..] + b;
      RunsJoin(LazyStep(c, a[0]).0, a[1..], b);
    }
  }

  /** Nothing a considerate run does can make the counter inconsistent. */
  ghost predicate AlwaysStands(store: Store, full: string, used: set<string>) {
    forall ops | Considerate(store, ops, full, used) :: CounterStands(ApplyAll(store, ops), full)
  }

  // ------------------------------------- what a shared lease table leads to

  /** Full keys are made by createKeyWithCtx, so they start and end with no space. */
  predicate Tidy(entries: Entries) {
    forall f | f in entries :: f != "" && Trimmed(f)
  }

  lemma FullKeyIsTidy(key: string, ctxID: string)
    ensures FullKey(key, ctxID) != "" && Trimmed(FullKey(key, ctxID))
  {
    var k, c := TrimSpace(key), TrimSpace(ctxID);
    var full := FullKey(key, ctxID);
    assert full[0] == if k == "" then ':' else k[0];
    assert full[|full| - 1] == if c == "" then ':' else c[|c| - 1];
    assert !IsSpace(':');
  }

  lemma OperationKeepsTidy(store: Store, op: StoreOp)
    requires Tidy(store.entries)
    ensures Tidy(Apply(store, op).entries)
  {
    hide FullKey, TrimSpace, Trimmed, Swept, Acquire, ReleaseLease, LeasesIn, SetProperties;
    if op.Create? {
      FullKeyIsTidy(op.key, "");
    } else if op.Set? {
      FullKeyIsTidy(TrimSpace(op.key), op.properties.ctxID);
    } else if op.Increment? {
      FullKeyIsTidy(op.key, op.ctxID);
    }
  }

  // ------------------------------------------- from the empty store onwards

  ghost predicate PossibleRun(store: Store, ops: seq<StoreOp>, used: set<string>)
    decreases |ops|
  {
    ops == [] || (Possible(store, ops[0], used) && PossibleRun(Apply(store, ops[0]), ops[1..], UsedAfter(ops[0], used)))
  }

  function UsedAfterAll(ops: seq<StoreOp>, used: set<string>): set<string>
    decreases |ops|
  {
    if ops == [] then used else UsedAfterAll(ops[1..], UsedAfter(ops[0], used))
  }

  lemma {:induction false} RunKeepsShape(store: Store, ops: seq<StoreOp>, used: set<string>)
    requires TablesMade(store) && Tidy(store.entries) && PossibleRun(store, ops, used)
    ensures TablesMade(ApplyAll(store, ops)) && Tidy(ApplyAll(store, ops).entries)
    decreases |ops|
  {
    if ops != [] {
      hide Apply, TablesMade, Tidy, Possible;
      OperationKeepsTablesMade(store, ops[0], used);
      OperationKeepsTidy(store, ops[0]);
      RunKeepsShape(Apply(store, ops[0]), ops[1..], UsedAfter(ops[0], used));
    }
  }

  /** Whatever was done to the store since it was empty, a counter that CreateCounterBase makes
      in it has its lease table to itself, and every considerate run from there on keeps it: its
      maximum is the one asked for, its current count that of its leases, within 0..Max. */
  lemma CreatedCounterIsKept(before: seq<StoreOp>, key: string, max: int, source: string, id: nat, after: seq<StoreOp>)
    requires PossibleRun(EMPTY, before, {}) && NewTable(ApplyAll(EMPTY, before).tables, id)
    requires CreatedStore(ApplyAll(EMPTY, before), key, max, source, id).1.None?
    requires Considerate(CreatedStore(ApplyAll(EMPTY, before), key, max, source, id).0, after, FullKey(key, ""),
                         UsedAfterAll(before, {}))
    ensures var created := CreatedStore(ApplyAll(EMPTY, before), key, max, source, id).0;
            var end, full := ApplyAll(created, after), FullKey(key, "");
            && Private(created, full) && Tidy(created.entries)
            && CounterStands(end, full) && Private(end, full)
            && Advances(NewCounter(max), CounterIn(end, full))
  {
    var store, full := ApplyAll(EMPTY, before), FullKey(key, "");
    var created := CreatedStore(store, key, max, source, id).0;
    assert created == Apply(store, Create(key, max, source, id));
    hide FullKey, CreatedStore, Apply, Private, TablesMade, Tidy, PossibleRun, Considerate, NewTable, Advances;
    EmptyIsShaped();
    RunKeepsShape(EMPTY, before, {});
    CreatedCounterIsPrivate(store, key, max, source, id);
    OperationKeepsTidy(store, Create(key, max, source, id));
    RunKeepsCounter(created, after, full, UsedAfterAll(before, {}));
  }

  lemma EmptyIsShaped()
    ensures TablesMade(EMPTY) && Tidy(EMPTY.entries)
  {
  }

  // -------------------------------------- breaking a counter that is shared

  lemma {:induction false} FreshString(used: set<string>) returns (s: string)
    ensures s !in used && !Blank(s)
    decreases |used|
  {
    var longer := LongerThanAll(used);
    s := longer;
    assert s !in used;
    assert s[0] == 'x' && s[|s| - 1] == 'x' && Trimmed(s);
  }

  /** A run of one letter longer than every string of the set. */
  lemma {:induction false} LongerThanAll(used: set<string>) returns (s: string)
    ensures s != "" && forall i | 0 <= i < |s| :: s[i] == 'x'
    ensures forall t | t in used :: |t| < |s|
    decreases |used|
  {
    s := "x";
    if used != {} {
      var t :| t in used;
      var rest := LongerThanAll(used - {t});
      s := rest + seq(|t|, i => 'x');
      forall u | u in used ensures |u| < |s| {
        assert u == t || u in used - {t};
      }
    }
  }

  lemma {:induction false} EventuallyExpired(leases: map<string, Lease>) returns (now: int)
    ensures Unexpired(leases, now) == map[]
    decreases |leases|
  {
    now := 0;
    if leases != map[] {
      var id :| id in leases;
      var earlier := EventuallyExpired(leases - {id});
      now := if earlier > leases[id].expiresAt then earlier else leases[id].expiresAt + 1;
      forall other | other in leases ensures now > leases[other].expiresAt {
        if other != id {
          assert other in leases - {id} && other !in Unexpired(leases - {id}, earlier);
        }
      }
    }
  }

  lemma TrimmedNames(f: string)
    requires f != "" && Trimmed(f)
    ensures FullKey(f, "") == f + ":" && !Blank(f)
  {
    assert TrimSpace(f) == f;
  }

  /** A key finds the entry at its full key, and one separator shorter when nothing hides it. */
  lemma KeyFindsEntry(entries: Entries, f: string, key: string)
    requires f in entries && IsCounterEntry(entries[f])
    requires FullKey(key, "") == f || (FullKey(key, "") == f + ":" && f + ":" !in entries)
    ensures CounterAt(entries, key) == Ok(f)
  {
    hide FullKey, TrimSpace;
    assert HasSuffix(f + ":", ":") && TrimSuffix(f + ":", ":") == f;
  }

  /** A counter entry in reach can be made addressable without touching it, the counter or any
      table: whatever hides it is replaced and deleted. */
  lemma MakeAddressable(store: Store, f: string, full: string, used: set<string>) returns (ops: seq<StoreOp>, key: string)
    requires HoldsCounter(store, full) && HoldsCounter(store, f) && Reach(f, full) && Tidy(store.entries)
    ensures Considerate(store, ops, full, used) && ApplyAll(store, ops).tables == store.tables
    ensures var entries := ApplyAll(store, ops).entries;
            && full in entries && entries[full] == store.entries[full]
            && !Blank(key) && CounterAt(entries, key) == Ok(f) && entries[f] == store.entries[f]
    ensures forall op | op in ops :: !op.TryAcquire?
  {
    hide FullKey, TrimSpace, Possible, TakesAway, Shares, Apply, CounterAt, UsedAfter;
    if k :| Names(k, f) {
      ops, key := [], k;
      KeyFindsEntry(store.entries, f, key);
    } else {
      ops, key := [], f;
      var hiding := f + ":";
      TrimmedNames(f);
      if hiding in store.entries {
        var plain := Properties(false, false, false, false, "", "", "string");
        ops := [Set(f, Other(""), plain, "string"), Delete(f, "", true)];
        Unhide(store, f, full, used);
      }
      KeyFindsEntry(ApplyAll(store, ops).entries, f, key);
    }
  }

  lemma Unhide(store: Store, f: string, full: string, used: set<string>)
    requires HoldsCounter(store, full) && HoldsCounter(store, f) && f != "" && Trimmed(f) && f + ":" != full
    ensures var plain := Properties(false, false, false, false, "", "", "string");
            var ops := [Set(f, Other(""), plain, "string"), Delete(f, "", true)];
            && Considerate(store, ops, full, used)
            && ApplyAll(store, ops) == store.(entries := store.entries - {f + ":"})
  {
    var plain := Properties(false, false, false, false, "", "", "string");
    var set', delete := Set(f, Other(""), plain, "string"), Delete(f, "", true);
    assert TrimSpace(f) == f && !Blank(f) && FullKey(f, "") == f + ":" by {
      assert TrimSpace("") == "";
    }
    assert !Blank("string") by {
      assert Trimmed("string");
    }
    hide TrimSpace, Trimmed, FullKey;
    var first := Apply(store, set');
    assert first == store.(entries := store.entries[f + ":" := Entry(Other(""), plain)]);
    assert Apply(first, delete) == store.(entries := store.entries - {f + ":"});
    assert [set', delete][1..] == [delete] && [delete][1..] == [];
    assert Considerate(Apply(first, delete), [], full, used);
    assert Considerate(first, [delete], full, used);
    assert ApplyAll(first, [delete]) == ApplyAll(Apply(first, delete), []);
  }

  /** With the counter's table in reach under another key the counter does not stay consistent:
      a lease granted on the one and released on the other leaves a count without leases. */
  lemma SharedTableBreaks(store: Store, key: string, f: string, used: set<string>) returns (ops: seq<StoreOp>)
    requires !Blank(key) && CounterStands(store, FullKey(key, "")) && Tidy(store.entries)
    requires f in store.entries && Reach(f, FullKey(key, "")) && SameTable(store, f, FullKey(key, ""))
    requires CounterIn(store, FullKey(key, "")).leases.Keys <= used
    ensures Considerate(store, ops, FullKey(key, ""), used)
    ensures !CounterStands(ApplyAll(store, ops), FullKey(key, ""))
  {
    var full := FullKey(key, "");
    var first, other := MakeAddressable(store, f, full, used);
    var open := ApplyAll(store, first);
    var id := FreshString(used);
    var now := EventuallyExpired(CounterIn(store, full).leases);
    var last := [TryAcquire(key, Request(1, 1, "", now, id)), Release(other, id)];
    hide Tidy, Reach, FullKey, Blank;
    GrantAndRelease(open, key, full, other, f, now, id, used);
    ops := first + last;
    ConsiderateJoin(store, first, last, full, used);
  }

  lemma GrantAndRelease(store: Store, key: string, full: string, other: string, f: string, now: int, id: string, used: set<string>)
    requires CounterStands(store, full) && Names(key, full) && f != full
    requires HoldsCounter(store, f) && SameTable(store, f, full) && !Blank(other) && CounterAt(store.entries, other) == Ok(f)
    requires id !in used && !Blank(id) && CounterIn(store, full).leases.Keys <= used
    requires Unexpired(CounterIn(store, full).leases, now) == map[]
    ensures var ops := [TryAcquire(key, Request(1, 1, "", now, id)), Release(other, id)];
            Considerate(store, ops, full, used) && !CounterStands(ApplyAll(store, ops), full)
  {
    hide FullKey, Blank, Clean;
    var r := Request(1, 1, "", now, id);
    var acquire, release := TryAcquire(key, r), Release(other, id);
    var c := CounterIn(store, full);
    AcquireConsistent(c, r);
    assert TotalSlots(map[]) == 0;
    var granted := Apply(store, acquire);
    assert granted == WithCounter(store, full, Acquire(c, r).0);
    assert CounterAt(granted.entries, other) == Ok(f);
    var leases := CounterIn(granted, full).leases;
    assert leases == map[id := Lease(1, "", now, now + 1)];
    TotalSlotsSplit(leases, id);
    assert leases - {id} == map[];
    var released := Apply(granted, release);
    assert CounterIn(granted, f).leases == leases;
    assert CounterIn(released, full).leases == map[] && CounterIn(released, full).current == 1;
    var ops := [acquire, release];
    assert ops[1..] == [release] && [release][1..] == [];
    assert ApplyAll(store, ops) == released by {
      assert ApplyAll(granted, [release]) == ApplyAll(released, []);
    }
    assert Considerate(released, [], full, used + {id});
    assert Considerate(granted, [release], full, used + {id});
  }

  lemma {:induction false} ConsiderateJoin(store: Store, a: seq<StoreOp>, b: seq<StoreOp>, full: string, used: set<string>)
    requires Considerate(store, a, full, used) && forall op | op in a :: !op.TryAcquire?
    requires Considerate(ApplyAll(store, a), b, full, used)
    ensures Considerate(store, a + b, full, used) && ApplyAll(store, a + b) == ApplyAll(ApplyAll(store, a), b)
    decreases |a|
  {
    hide Apply, Possible, TakesAway, Shares, HoldsCounter;
    if a == [] {
      assert a + b == b;
    } else {
      assert (a + b)[1..] == a[1..] + b;
      assert UsedAfter(a[0], used) == used;
      ConsiderateJoin(Apply(store, a[0]), a[1..], b, full, used);
    }
  }

  /** A standing counter stays consistent through every considerate run exactly when no other
      reachable entry shares its lease table. */
  lemma StandsAlwaysIffPrivate(store: Store, key: string, used: set<string>)
    requires !Blank(key) && CounterStands(store, FullKey(key, "")) && Tidy(store.entries)
    requires CounterIn(store, FullKey(key, "")).leases.Keys <= used
    ensures AlwaysStands(store, FullKey(key, ""), used) <==> Private(store, FullKey(key, ""))
  {
    var full := FullKey(key, "");
    assert HoldsCounter(store, full);
    hide FullKey, Blank, CounterStands, Reach, Considerate, Tidy;
    if Private(store, full) {
      forall ops | Considerate(store, ops, full, used) ensures CounterStands(ApplyAll(store, ops), full) {
        RunKeepsCounter(store, ops, full, used);
      }
    } else {
      var f :| f in store.entries && Reach(f, full) && SameTable(store, f, full);
      var ops := SharedTableBreaks(store, key, f, used);
    }
  }

  /** So the condition on callers is exact: after an operation that does not take it away, a
      counter with a private table stays consistent through every considerate run if and only
      if the operation is not a Set storing its lease table under another key. */
  lemma HarmlessIffNotShared(store: Store, op: StoreOp, key: string, used: set<string>)
    requires !Blank(key) && CounterStands(store, FullKey(key, "")) && Private(store, FullKey(key, "")) && Tidy(store.entries)
    requires CounterIn(store, FullKey(key, "")).leases.Keys <= used && Possible(store, op, used)
    requires !TakesAway(op, FullKey(key, ""))
    ensures AlwaysStands(Apply(store, op), FullKey(key, ""), UsedAfter(op, used)) <==> !Shares(store, op, FullKey(key, ""))
  {
    var full := FullKey(key, "");
    assert HoldsCounter(store, full);
    hide FullKey, Blank, CounterStands, Private, Shares, Apply, TakesAway, AlwaysStands, Tidy, Possible, CounterIn;
    OperationKeepsCounter(store, op, full, used);
    PrivacyKeptIff(store, op, full, used);
    OperationKeepsTidy(store, op);
    StandsAlwaysIffPrivate(Apply(store, op), key, UsedAfter(op, used));
  }

  /** The shortest way there: a counter read with Get and stored under another name with Set.
      A lease acquired on the copy is found by a release on the original, whose count does not
      know it, and the release reports corruption. */
  lemma CopiedCounterReportsCorruption(store: Store, a: string, b: string, r: Request)
    requires Names(a, FullKey(a, "")) && Names(b, FullKey(b, "")) && FullKey(a, "") != FullKey(b, "")
    requires CounterStands(store, FullKey(a, "")) && CounterIn(store, FullKey(a, "")).leases == map[]
    requires store.entries[FullKey(a, "")].properties.ctxID == ""
    requires FullKey(b, "") !in store.entries
    requires r.ttl > 0 && 0 < r.slots <= CounterIn(store, FullKey(a, "")).max && !Blank(r.leaseID)
    ensures var (value, properties) := GotFrom(store, a, "").value;
            var copied := Apply(store, Set(b, value, properties, ""));
            var (acquired, result) := AcquiredStore(copied, b, r);
            && Possible(store, Set(b, value, properties, ""), {})
            && result == Ok(Granted(r.leaseID))
            && ReleasedStore(acquired, a, r.leaseID).1 == Some(InCounter(CorruptedAfterRelease))
  {
    var fullA, fullB := FullKey(a, ""), FullKey(b, "");
    assert FullKey(TrimSpace(b), "") == fullB by {
      assert TrimSpace(TrimSpace(b)) == TrimSpace(b);
    }
    assert !Blank(COUNTER) by {
      assert Trimmed(COUNTER);
    }
    hide FullKey, TrimSpace, Clean;
    var (value, properties) := GotFrom(store, a, "").value;
    var copied := Apply(store, Set(b, value, properties, ""));
    assert copied.entries == store.entries[fullB := Entry(value, properties)];
    var c := CounterIn(copied, fullB);
    assert c == CounterIn(store, fullA);
    AcquireConsistent(c, r);
    assert Unexpired(c.leases, r.now) == map[] && TotalSlots(map[]) == 0;
    var acquired := AcquiredStore(copied, b, r).0;
    assert acquired == WithCounter(copied, fullB, Acquire(c, r).0);
    assert CounterIn(acquired, fullA).current == 0 && r.leaseID in CounterIn(acquired, fullA).leases;
  }

  /** Counters are addressed by trimmed key, yet the full key of a counter, used as a key,
      reaches the same counter exactly when no entry has that key with one more separator. */
  lemma TrailingColonAliases(entries: Entries, key: string)
    requires FullKey(key, "") in entries
    ensures CounterKey(entries, FullKey(key, "")) == CounterKey(entries, key)
            <==> FullKey(FullKey(key, ""), "") !in entries
  {
    var full := FullKey(key, "");
    FullKeyIsTidy(key, "");
    assert FullKey(full, "") == full + ":" by {
      assert TrimSpace(full) == full;
    }
    hide FullKey, TrimSpace;
    assert TrimSuffix(full + ":", ":") == full && HasSuffix(full + ":", ":");
  }

  // ------------------------------------------------------- plain entries

  /** What Set stores is what Get gives back, with its properties completed, and nothing else
      changes; a static entry is not overwritten by a static one. */
  lemma SetIsRead(store: Store, key: string, value: Value, properties: Properties, typeName: string)
    requires TrimSpace(key) != ""
    ensures var after, full := Apply(store, Set(key, value, properties, typeName)), TrimSpace(key) + ":" + TrimSpace(properties.ctxID);
            var kept := properties.isStatic && full in store.entries && store.entries[full].properties.isStatic;
            && after.tables == store.tables && after.entries.Keys == store.entries.Keys + {full}
            && (forall f | f in store.entries && (f != full || kept) :: after.entries[f] == store.entries[f])
            && (!kept ==> GotFrom(after, key, properties.ctxID) == Some((value, properties.(
                  kind := if TrimSpace(properties.kind) == "" then typeName else properties.kind,
                  persistent := properties.persistent || properties.isStatic))))
  {
    assert TrimSpace(TrimSpace(key)) == TrimSpace(key);
    hide TrimSpace;
  }

  /** Two increments are one by their sum, in 64-bit arithmetic, and counters and other values are
      not incremented at all. */
  lemma IncrementsAddUp(entries: Entries, key: string, ctxID: string, a: int, b: int)
    requires IncrementedEntries(entries, key, ctxID, a).1.Ok?
    ensures var (once, _) := IncrementedEntries(entries, key, ctxID, a);
            var (twice, sum) := IncrementedEntries(once, key, ctxID, b);
            var full := TrimSpace(key) + ":" + TrimSpace(ctxID);
            var start := if full in entries then entries[full].value.n else 0;
            && sum == Ok(Wrap64(start + a + b))
            && full in twice && twice[full].value == Number(Wrap64(start + a + b))
            && (forall f | f in entries && f != full :: f in twice && twice[f] == entries[f])
  {
    hide TrimSpace;
    var full := FullKey(key, ctxID);
    if full in entries {
      WrapTwice(entries[full].value.n + a, b);
    }
  }

  lemma WrapTwice(n: int, b: int)
    ensures Wrap64(Wrap64(n) + b) == Wrap64(n + b)
  {
  }

  /** The key ends with this context. */
  predicate EndsWith(full: string, ctxID: string) {
    var suffix := ":" + TrimSpace(ctxID);
    |suffix| <= |full| && full[|full| - |suffix|..] == suffix
  }

  /** What each sweep leaves. Only the sweeps of everything spare counters, whatever their
      properties; the others go by persistence and context alone. */
  lemma SweepLeaves(store: Store, sweep: Sweep, f: string)
    requires f in store.entries
    ensures var entry, left := store.entries[f], Apply(store, DeleteMany(sweep)).entries;
            && (f in left ==> left[f] == entry)
            && (f in left <==>
                  match sweep
                  case ByContext(ctxID, persistentToo) => !EndsWith(f, ctxID) || (entry.properties.persistent && !persistentToo)
                  case NonPersistent => entry.properties.persistent
                  case NonPersistentByContext(ctxID) => !EndsWith(f, ctxID) || entry.properties.persistent
                  case All => entry.properties.kind == "counter"
                  case AllByContext(ctxID) => !EndsWith(f, ctxID) || entry.properties.kind == "counter"
                  case Session(ctxID) =>
                    !EndsWith(f, ctxID) || (entry.properties.persistent && !entry.properties.sessionValid))
  {
    hide TrimSpace;
  }
}
