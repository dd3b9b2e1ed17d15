/** The shared key-value store (pkg/common/kvstore.go): its map, the counters in it, and
    every operation that writes to it. */
module KeyValueStore {
  import opened Wrappers
  import opened Text
  import opened LeasedCounter

  // -------------------------------------------------------------- the data

  /** A CounterValue as entries hold it. In Go its Leases field is a reference, so the struct
      holds the identity of a lease table; None is the nil map. */
  datatype CounterRecord = CounterRecord(max: int, current: int, table: Option<nat>, version: int)

  datatype Value = CounterValue(record: CounterRecord) | Number(n: int) | Other(text: string)

  datatype Properties = Properties(
    persistent: bool, isStatic: bool, sessionValid: bool, shared: bool, source: string, ctxID: string, kind: string)

  datatype Entry = Entry(value: Value, properties: Properties)

  type Entries = map<string, Entry>

  /** Every lease table there is, by identity: those of the entries and those callers hold. */
  type Tables = map<nat, map<string, Lease>>

  datatype Store = Store(entries: Entries, tables: Tables)

  const COUNTER := "counter"

  datatype KVError =
    | EmptyKey | BadSlots | BadTTL | EmptyLeaseID | BadCounterMax
    | NotFound | NotACounter | CorruptedValue | AlreadyExists | CannotDeleteCounter | UseLeases | NotNumeric
    | InvariantViolated | NilTablePanic
    | InCounter(error: CounterError)

  /** createKeyWithCtx; not injective in general. */
  function FullKey(key: string, ctxID: string): string {
    TrimSpace(key) + ":" + TrimSpace(ctxID)
  }

  /** The entry WithCounter works on: the counter's full key or, failing that, the same text
      without its trailing separator. */
  function CounterKey(entries: Entries, key: string): Option<string> {
    var full := FullKey(key, "");
    if full in entries then Some(full)
    else if HasSuffix(full, ":") && TrimSuffix(full, ":") in entries then Some(TrimSuffix(full, ":"))
    else None
  }

  predicate IsCounterEntry(entry: Entry) {
    entry.properties.kind == COUNTER && entry.value.CounterValue?
  }

  function CounterAt(entries: Entries, key: string): Result<string, KVError> {
    match CounterKey(entries, key)
    case None => Err(NotFound)
    case Some(full) =>
      if entries[full].properties.kind != COUNTER then Err(NotACounter)
      else if !entries[full].value.CounterValue? then Err(CorruptedValue)
      else Ok(full)
  }

  predicate Allocated(tables: Tables, table: Option<nat>) {
    table.Some? && table.value in tables
  }

  /** A nil map reads as an empty one. */
  function LeasesIn(tables: Tables, table: Option<nat>): map<string, Lease> {
    if Allocated(tables, table) then tables[table.value] else map[]
  }

  /** The counter an entry stands for, its lease table looked up. */
  function CounterIn(store: Store, full: string): Counter
    requires full in store.entries && store.entries[full].value.CounterValue?
  {
    var record := store.entries[full].value.record;
    Counter(record.max, record.current, LeasesIn(store.tables, record.table), record.version)
  }

  /** The struct is written back to its entry; the lease table has been changed in place. */
  function WithCounter(store: Store, full: string, c: Counter): Store
    requires full in store.entries && store.entries[full].value.CounterValue?
  {
    var entry := store.entries[full];
    var table := entry.value.record.table;
    Store(
      store.entries[full := entry.(value := CounterValue(CounterRecord(c.max, c.current, table, c.version)))],
      if Allocated(store.tables, table) then store.tables[table.value := c.leases] else store.tables)
  }

  /** make(map[string]CounterLease): an identity no table has. */
  ghost predicate NewTable(tables: Tables, id: nat) {
    id !in tables
  }

  // ------------------------------------------------- what each operation does

  function CreatedStore(store: Store, key: string, max: int, source: string, id: nat): (Store, Option<KVError>) {
    if max <= 0 then (store, Some(BadCounterMax))
    else if FullKey(key, "") in store.entries then (store, Some(AlreadyExists))
    else
      var value := CounterValue(CounterRecord(max, 0, Some(id), 1));
      (Store(store.entries[FullKey(key, "") := Entry(value, Properties(true, true, false, true, source, "", COUNTER))],
             store.tables[id := map[]]),
       None)
  }

  /** A failed acquire leaves the entry as it was, but not the table it has already cleaned.
      Writing a lease into a nil table panics. */
  ghost function AcquiredStore(store: Store, key: string, r: Request): (Store, Result<Acquired, KVError>) {
    if Blank(key) then (store, Err(EmptyKey))
    else if r.slots <= 0 then (store, Err(BadSlots))
    else if r.ttl <= 0 then (store, Err(BadTTL))
    else
      match CounterAt(store.entries, key)
      case Err(error) => (store, Err(error))
      case Ok(full) =>
        var (c', result) := Acquire(CounterIn(store, full), r);
        if result.Granted? && !Allocated(store.tables, store.entries[full].value.record.table) then (store, Err(NilTablePanic))
        else (WithCounter(store, full, c'), if result.AcquireFailed? then Err(InCounter(result.error)) else Ok(result))
  }

  function ReleasedStore(store: Store, key: string, leaseID: string): (Store, Option<KVError>) {
    if Blank(key) then (store, Some(EmptyKey))
    else if Blank(leaseID) then (store, Some(EmptyLeaseID))
    else
      match CounterAt(store.entries, key)
      case Err(error) => (store, Some(error))
      case Ok(full) =>
        var (c', error) := ReleaseLease(CounterIn(store, full), leaseID);
        (WithCounter(store, full, c'), if error.None? then None else Some(InCounter(error.value)))
  }

  /** Get: a counter comes out as its struct, that is, with its own lease table. */
  function GotFrom(store: Store, key: string, ctxID: string): Option<(Value, Properties)> {
    var full := FullKey(key, ctxID);
    if full in store.entries then Some((store.entries[full].value, store.entries[full].properties)) else None
  }

  datatype CounterInfo = CounterInfo(max: int, current: int, available: int, leases: nat, version: int)

  /** GetCounterInfo: no fallback to the shorter key, and no look at what has expired. */
  function InfoOf(store: Store, key: string): Result<CounterInfo, KVError> {
    var full := FullKey(key, "");
    if Blank(key) then Err(EmptyKey)
    else if full !in store.entries then Err(NotFound)
    else if store.entries[full].properties.kind != COUNTER then Err(NotACounter)
    else if !store.entries[full].value.CounterValue? then Err(CorruptedValue)
    else
      var c := CounterIn(store, full);
      if c.current < 0 || c.current > c.max then Err(InvariantViolated)
      else Ok(CounterInfo(c.max, c.current, c.max - c.current, |c.leases|, c.version))
  }

  /** The properties Set stores: static entries are persistent, and a missing type is filled
      in from the value (`typeName` stands for the reflected type). */
  function SetProperties(properties: Properties, typeName: string): Properties {
    properties.(
      kind := if Blank(properties.kind) then typeName else properties.kind,
      persistent := properties.persistent || properties.isStatic)
  }

  function SetEntries(entries: Entries, key: string, value: Value, properties: Properties, typeName: string)
      : (Entries, Option<KVError>)
  {
    if Blank(key) then (entries, Some(EmptyKey))
    else
      var full := FullKey(TrimSpace(key), properties.ctxID);
      if properties.isStatic && full in entries && entries[full].properties.isStatic then (entries, None)
      else (entries[full := Entry(value, SetProperties(properties, typeName))], None)
  }

  function IncrementedEntries(entries: Entries, key: string, ctxID: string, step: int): (Entries, Result<int, KVError>) {
    var full := FullKey(key, ctxID);
    if full !in entries then
      (entries[full := Entry(Number(step), Properties(false, false, true, false, "", "", ""))], Ok(step))
    else if entries[full].properties.kind == COUNTER then (entries, Err(UseLeases))
    else if !entries[full].value.Number? then (entries, Err(NotNumeric))
    else
      var n := Wrap64(entries[full].value.n + step);
      (entries[full := entries[full].(value := Number(n))], Ok(n))
  }

  /** The optional variadic flag: absent and false both spare persistent entries. */
  predicate Spares(persistentToo: bool, entry: Entry) {
    !persistentToo && entry.properties.persistent
  }

  function DeletedEntries(entries: Entries, key: string, ctxID: string, persistentToo: bool): (Entries, Option<KVError>) {
    var full := FullKey(key, ctxID);
    if full !in entries then (entries, Some(NotFound))
    else if entries[full].properties.kind == COUNTER then (entries, Some(CannotDeleteCounter))
    else (if Spares(persistentToo, entries[full]) then entries else entries - {full}, None)
  }

  predicate InContext(full: string, ctxID: string) {
    HasSuffix(full, ":" + TrimSpace(ctxID))
  }

  /** The bulk deletions, by what they delete. */
  datatype Sweep =
    | ByContext(ctxID: string, persistentToo: bool)
    | NonPersistent
    | NonPersistentByContext(ctxID: string)
    | All
    | AllByContext(ctxID: string)
    | Session(ctxID: string)

  predicate Swept(sweep: Sweep, full: string, entry: Entry) {
    match sweep
    case ByContext(ctxID, persistentToo) => InContext(full, ctxID) && !Spares(persistentToo, entry)
    case NonPersistent => !entry.properties.persistent
    case NonPersistentByContext(ctxID) => InContext(full, ctxID) && !entry.properties.persistent
    case All => entry.properties.kind != COUNTER
    case AllByContext(ctxID) => entry.properties.kind != COUNTER && InContext(full, ctxID)
    case Session(ctxID) => InContext(full, ctxID) && (entry.properties.sessionValid || !entry.properties.persistent)
  }

  function SweptEntries(entries: Entries, sweep: Sweep): Entries {
    map full | full in entries && !Swept(sweep, full, entries[full]) :: entries[full]
  }

  // --------------------------------------------------- the imperative store

  class KeyValueStore {
    var entries: Entries
    var tables: Tables

    ghost function State(): Store
      reads this
    {
      Store(entries, tables)
    }

    constructor ()
      ensures State() == Store(map[], map[])
    {
      entries, tables := map[], map[];
    }

    /** `id` is the identity of the lease table the method makes. */
    method CreateCounterBase(key: string, max: int, source: string, id: nat) returns (error: Option<KVError>)
      requires NewTable(tables, id)
      modifies this
      ensures (State(), error) == CreatedStore(old(State()), key, max, source, id)
    {
      if max <= 0 {
        return Some(BadCounterMax);
      }
      var full := FullKey(key, "");
      if full in entries {
        return Some(AlreadyExists);
      }
      tables := tables[id := map[]];
      var counter := CounterRecord(max, 0, Some(id), 1);
      entries := entries[full := Entry(CounterValue(counter), Properties(true, true, false, true, source, "", COUNTER))];
      error := None;
    }

    method Get(key: string, ctxID: string) returns (found: Option<(Value, Properties)>)
      ensures found == GotFrom(State(), key, ctxID)
    {
      var full := FullKey(key, ctxID);
      found := if full in entries then Some((entries[full].value, entries[full].properties)) else None;
    }

    /** The lookup half of WithCounter. */
    method FindCounter(key: string) returns (found: Result<string, KVError>)
      ensures found == CounterAt(entries, key)
    {
      var full := FullKey(key, "");
      if full !in entries {
        if HasSuffix(full, ":") {
          full := TrimSuffix(full, ":");
        }
        if full !in entries {
          return Err(NotFound);
        }
      }
      if entries[full].properties.kind != COUNTER {
        return Err(NotACounter);
      }
      if !entries[full].value.CounterValue? {
        return Err(CorruptedValue);
      }
      found := Ok(full);
    }

    /** Expired leases leave the shared table one at a time, in any order. */
    method CleanExpired(table: Option<nat>, max: int, current: int, version: int, now: int)
        returns (current': int, version': int)
      modifies this`tables
      ensures var before := Counter(max, current, LeasesIn(old(tables), table), version);
              && Counter(max, current', LeasesIn(tables, table), version') == Clean(before, now)
              && tables == if Allocated(old(tables), table) then old(tables)[table.value := Clean(before, now).leases] else old(tables)
    {
      hide Expired, TotalSlots, CleanedOutside;
      current', version' := current, version;
      if !Allocated(tables, table) {
        NothingToClean(now);
        return;
      }
      var id := table.value;
      ghost var before := tables[id];
      CleaningStarts(before, now);
      var pending := tables[id].Keys;
      var changed := false;
      while pending != {}
        invariant id in tables && tables == old(tables)[id := tables[id]]
        invariant CleanedOutside(before, tables[id], pending, now)
        invariant current' == current - (TotalSlots(before) - TotalSlots(tables[id]))
        invariant changed <==> tables[id] != before
        decreases |pending|
      {
        var leaseID :| leaseID in pending;
        CleaningStep(before, tables[id], pending, now, leaseID);
        if Expired(tables[id][leaseID], now) {
          TotalSlotsSplit(tables[id], leaseID);
          current' := current' - tables[id][leaseID].slots;
          tables := tables[id := tables[id] - {leaseID}];
          changed := true;
          assert leaseID in before && leaseID !in tables[id];
        }
        pending := pending - {leaseID};
      }
      CleaningEnds(before, tables[id], now);
      if changed {
        version' := version + 1;
      }
    }

    method TryAcquire(key: string, r: Request) returns (result: Result<Acquired, KVError>)
      modifies this
      ensures (State(), result) == AcquiredStore(old(State()), key, r)
    {
      hide TrimSpace, Clean;
      if Blank(key) {
        return Err(EmptyKey);
      }
      if r.slots <= 0 {
        return Err(BadSlots);
      }
      if r.ttl <= 0 {
        return Err(BadTTL);
      }
      var found := FindCounter(key);
      if found.Err? {
        return Err(found.error);
      }
      var full := found.value;
      var cv := entries[full].value.record;
      WritingBackNothing(State(), full);
      if cv.max <= 0 {
        return Err(InCounter(BadMax));
      }
      if cv.current < 0 {
        return Err(InCounter(NegativeCurrent));
      }
      if cv.current > cv.max {
        return Err(InCounter(CurrentAboveMax));
      }
      var current, version := CleanExpired(cv.table, cv.max, cv.current, cv.version, r.now);
      if current < 0 {
        // The shared table has been cleaned; the copied fields are not written back.
        return Err(InCounter(CorruptedAfterCleanup));
      }
      var available := cv.max - current;
      if available < r.slots {
        entries := entries[full := entries[full].(value := CounterValue(CounterRecord(cv.max, current, cv.table, version)))];
        return Ok(Refused);
      }
      if !Allocated(tables, cv.table) {
        return Err(NilTablePanic);
      }
      var lease := Lease(r.slots, r.owner, r.now, r.now + r.ttl);
      tables := tables[cv.table.value := tables[cv.table.value][r.leaseID := lease]];
      entries := entries[full := entries[full].(
        value := CounterValue(CounterRecord(cv.max, current + r.slots, cv.table, version + 1)))];
      assert tables == old(tables)[cv.table.value := tables[cv.table.value]];
      result := Ok(Granted(r.leaseID));
    }

    method Release(key: string, leaseID: string) returns (error: Option<KVError>)
      modifies this
      ensures (State(), error) == ReleasedStore(old(State()), key, leaseID)
    {
      hide TrimSpace;
      if Blank(key) {
        return Some(EmptyKey);
      }
      if Blank(leaseID) {
        return Some(EmptyLeaseID);
      }
      var found := FindCounter(key);
      if found.Err? {
        return Some(found.error);
      }
      var full := found.value;
      var cv := entries[full].value.record;
      WritingBackNothing(State(), full);
      if !Allocated(tables, cv.table) || leaseID !in tables[cv.table.value] {
        return Some(InCounter(LeaseNotFound));
      }
      var lease := tables[cv.table.value][leaseID];
      tables := tables[cv.table.value := tables[cv.table.value] - {leaseID}];
      var current := cv.current - lease.slots;
      if current < 0 {
        return Some(InCounter(CorruptedAfterRelease));
      }
      entries := entries[full := entries[full].(
        value := CounterValue(CounterRecord(cv.max, current, cv.table, cv.version + 1)))];
      error := None;
    }

    method Set(key: string, value: Value, properties: Properties, typeName: string) returns (error: Option<KVError>)
      modifies this`entries
      ensures (entries, error) == SetEntries(old(entries), key, value, properties, typeName)
    {
      var trimmed := TrimSpace(key);
      if trimmed == "" {
        return Some(EmptyKey);
      }
      var stored := properties;
      if Blank(stored.kind) {
        stored := stored.(kind := typeName);
      }
      var full := FullKey(trimmed, stored.ctxID);
      var setEntry := true;
      if stored.isStatic {
        stored := stored.(persistent := true);
        if full in entries {
          setEntry := false;
          if !entries[full].properties.isStatic {
            entries := entries[full := Entry(value, stored)];
          }
        }
      }
      if setEntry {
        entries := entries[full := Entry(value, stored)];
      }
      error := None;
    }

    method Increment(key: string, ctxID: string, step: int) returns (result: Result<int, KVError>)
      modifies this`entries
      ensures (entries, result) == IncrementedEntries(old(entries), key, ctxID, step)
    {
      var full := FullKey(key, ctxID);
      if full !in entries {
        entries := entries[full := Entry(Number(step), Properties(false, false, true, false, "", "", ""))];
        return Ok(step);
      }
      var entry := entries[full];
      if entry.properties.kind == COUNTER {
        return Err(UseLeases);
      }
      if !entry.value.Number? {
        return Err(NotNumeric);
      }
      var n := Wrap64(entry.value.n + step);
      entries := entries[full := entry.(value := Number(n))];
      result := Ok(n);
    }

    method Delete(key: string, ctxID: string, persistentToo: bool) returns (error: Option<KVError>)
      modifies this`entries
      ensures (entries, error) == DeletedEntries(old(entries), key, ctxID, persistentToo)
    {
      var full := FullKey(key, ctxID);
      if full !in entries {
        return Some(NotFound);
      }
      if entries[full].properties.kind == COUNTER {
        return Some(CannotDeleteCounter);
      }
      if persistentToo || !entries[full].properties.persistent {
        entries := entries - {full};
      }
      error := None;
    }

    /** DeleteByCID, DeleteNonPersistent, DeleteNonPersistentByCID, DeleteAll, DeleteAllByCID
        and CleanSession: entries are deleted while the map is being ranged over. */
    method DeleteSwept(sweep: Sweep)
      modifies this`entries
      ensures entries == SweptEntries(old(entries), sweep)
    {
      hide Swept, SweptOutside;
      SweepStarts(entries, sweep);
      var pending := entries.Keys;
      while pending != {}
        invariant SweptOutside(old(entries), entries, pending, sweep)
        decreases |pending|
      {
        var full :| full in pending;
        SweepStep(old(entries), entries, pending, sweep, full);
        if Swept(sweep, full, entries[full]) {
          entries := entries - {full};
        }
        pending := pending - {full};
      }
      SweepEnds(old(entries), entries, sweep);
    }
  }

  /** Writing back what was read changes nothing. */
  lemma WritingBackNothing(store: Store, full: string)
    requires full in store.entries && store.entries[full].value.CounterValue?
    ensures WithCounter(store, full, CounterIn(store, full)) == store
  {
  }

  lemma NothingToClean(now: int)
    ensures Live(map[], now) == map[]
  {
  }

  /** The lease table when every lease but the pending ones has been looked at. */
  ghost predicate CleanedOutside(before: map<string, Lease>, leases: map<string, Lease>, pending: set<string>, now: int) {
    && pending <= before.Keys
    && forall id :: (id in leases <==> id in before && (id in pending || !Expired(before[id], now)))
                    && (id in leases ==> leases[id] == before[id])
  }

  lemma CleaningStarts(leases: map<string, Lease>, now: int)
    ensures CleanedOutside(leases, leases, leases.Keys, now)
  {
  }

  lemma CleaningStep(before: map<string, Lease>, leases: map<string, Lease>, pending: set<string>, now: int, id: string)
    requires CleanedOutside(before, leases, pending, now) && id in pending
    ensures id in before && id in leases && leases[id] == before[id]
    ensures CleanedOutside(before, if Expired(before[id], now) then leases - {id} else leases, pending - {id}, now)
  {
    hide Expired;
  }

  lemma CleaningEnds(before: map<string, Lease>, leases: map<string, Lease>, now: int)
    requires CleanedOutside(before, leases, {}, now)
    ensures leases == Live(before, now)
  {
    hide Expired;
  }

  /** What is left when every entry but the pending ones has been visited. */
  ghost predicate SweptOutside(before: Entries, now: Entries, pending: set<string>, sweep: Sweep) {
    && pending <= before.Keys
    && forall full :: (full in now <==> full in before && (full in pending || !Swept(sweep, full, before[full])))
                      && (full in now ==> now[full] == before[full])
  }

  lemma SweepStarts(entries: Entries, sweep: Sweep)
    ensures SweptOutside(entries, entries, entries.Keys, sweep)
  {
  }

  lemma SweepStep(before: Entries, now: Entries, pending: set<string>, sweep: Sweep, full: string)
    requires SweptOutside(before, now, pending, sweep) && full in pending
    ensures full in now
    ensures SweptOutside(before, if Swept(sweep, full, now[full]) then now - {full} else now, pending - {full}, sweep)
  {
    hide Swept;
  }

  lemma SweepEnds(before: Entries, now: Entries, sweep: Sweep)
    requires SweptOutside(before, now, {}, sweep)
    ensures now == SweptEntries(before, sweep)
  {
    hide Swept;
  }
}
