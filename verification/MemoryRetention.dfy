/** The in-memory agent memory and retention of the newest records per namespace
    (pkg/agent/memory_store.go). */
module MemoryRetention {
  import opened Wrappers
  import opened Text
  import opened Json

  // -------------------------------------------------------------- the data

  type Value = map<string, Json>

  datatype Record = Record(
    namespace: string, key: string, value: Value, createdAt: int, updatedAt: int, expiresAt: Option<int>)

  type Store = map<string, Record>

  datatype Mode = NoMemory | Ephemeral | Persistent

  /** memoryCompositeKey; not injective when a namespace or key holds "::". */
  function CompositeKey(namespace: string, key: string): string {
    TrimSpace(namespace) + "::" + TrimSpace(key)
  }

  function KeyOf(r: Record): string {
    CompositeKey(r.namespace, r.key)
  }

  predicate Expired(r: Record, now: int) {
    r.expiresAt.Some? && now > r.expiresAt.value
  }

  /** Every record sits under its own composite key. */
  ghost predicate Keyed(s: Store) {
    forall k | k in s :: KeyOf(s[k]) == k
  }

  /** Where the live records of exactly this namespace are. */
  function LiveKeys(s: Store, namespace: string, now: int): (places: set<string>)
    ensures places <= s.Keys
  {
    set k | k in s && s[k].namespace == namespace && !Expired(s[k], now)
  }

  function NewRecord(s: Store, namespace: string, key: string, value: Value, ttl: int, now: int): Record {
    var k := CompositeKey(namespace, key);
    Record(namespace, key, value, if k in s then s[k].createdAt else now, now, if ttl > 0 then Some(now + ttl) else None)
  }

  function Written(s: Store, namespace: string, key: string, value: Value, ttl: int, now: int): Store {
    s[CompositeKey(namespace, key) := NewRecord(s, namespace, key, value, ttl, now)]
  }

  /** Each record of these places once, oldest update first; ties in any order. */
  ghost predicate IsListing(s: Store, places: set<string>, recs: seq<Record>) {
    && (forall i | 0 <= i < |recs| :: KeyOf(recs[i]) in places && KeyOf(recs[i]) in s && s[KeyOf(recs[i])] == recs[i])
    && (forall k | k in places :: k in s && s[k] in recs)
    && (forall i, j | 0 <= i < j < |recs| :: KeyOf(recs[i]) != KeyOf(recs[j]) && recs[i].updatedAt <= recs[j].updatedAt)
  }

  /** The first n of the listed records taken out. */
  function Without(s: Store, recs: seq<Record>, n: nat): Store
    requires n <= |recs|
  {
    if n == 0 then s else Without(s, recs, n - 1) - {KeyOf(recs[n - 1])}
  }

  function Overflow(retention: int, listed: nat): nat {
    if retention > 0 && listed > retention then listed - retention else 0
  }

  /** What retention makes of a store: some listing of the namespace loses all but its last
      `retention` records. */
  ghost predicate Retained(s: Store, namespace: string, retention: int, now: int, after: Store) {
    exists recs :: RetainedBy(s, namespace, retention, now, after, recs)
  }

  ghost predicate RetainedBy(s: Store, namespace: string, retention: int, now: int, after: Store, recs: seq<Record>) {
    IsListing(s, LiveKeys(s, namespace, now), recs) && after == Without(s, recs, Overflow(retention, |recs|))
  }

  // ------------------------------------------------------------- the store

  class InMemoryStore {
    var byNSKey: map<string, Record>

    ghost predicate Valid()
      reads this
    {
      Keyed(byNSKey)
    }

    constructor ()
      ensures Valid() && byNSKey == map[]
    {
      byNSKey := map[];
    }

    /** An expired record is deleted by the read that finds it. */
    method Get(namespace: string, key: string, now: int) returns (found: Option<Record>)
      requires Valid()
      modifies this
      ensures Valid()
      ensures var k := CompositeKey(namespace, key);
              var expiresAt := if k in old(byNSKey) then old(byNSKey)[k].expiresAt else None;
              if expiresAt.Some? && now > expiresAt.value then found == None && byNSKey == old(byNSKey) - {k}
              else byNSKey == old(byNSKey) && found == if k in byNSKey then Some(byNSKey[k]) else None
    {
      hide TrimSpace;
      var k := CompositeKey(namespace, key);
      if k !in byNSKey {
        return None;
      }
      var rec := byNSKey[k];
      if Expired(rec, now) {
        Delete(namespace, key);
        return None;
      }
      found := Some(rec);
    }

    method Set(namespace: string, key: string, value: Value, ttl: int, now: int) returns (ok: bool)
      requires Valid()
      modifies this
      ensures Valid()
      ensures ok <==> !Blank(namespace) && !Blank(key)
      ensures byNSKey == if ok then Written(old(byNSKey), namespace, key, value, ttl, now) else old(byNSKey)
    {
      if Blank(namespace) || Blank(key) {
        return false;
      }
      hide TrimSpace;
      var expiresAt := if ttl > 0 then Some(now + ttl) else None;
      var k := CompositeKey(namespace, key);
      var createdAt := now;
      if k in byNSKey {
        createdAt := byNSKey[k].createdAt;
      }
      byNSKey := byNSKey[k := Record(namespace, key, value, createdAt, now, expiresAt)];
      ok := true;
    }

    method List(namespace: string, now: int) returns (recs: seq<Record>)
      requires Valid()
      ensures IsListing(byNSKey, LiveKeys(byNSKey, namespace, now), recs)
    {
      hide TrimSpace, Expired, CompositeKey;
      var rest := LiveKeys(byNSKey, namespace, now);
      recs := [];
      while rest != {}
        invariant rest <= LiveKeys(byNSKey, namespace, now)
        invariant IsListing(byNSKey, LiveKeys(byNSKey, namespace, now) - rest, recs)
        invariant forall i, k | 0 <= i < |recs| && k in rest :: recs[i].updatedAt <= byNSKey[k].updatedAt
        decreases |rest|
      {
        OldestExists(byNSKey, rest);
        var k :| k in rest && Oldest(byNSKey, rest, k);
        recs := recs + [byNSKey[k]];
        rest := rest - {k};
      }
      assert LiveKeys(byNSKey, namespace, now) - rest == LiveKeys(byNSKey, namespace, now);
    }

    method Delete(namespace: string, key: string)
      requires Valid()
      modifies this
      ensures Valid() && byNSKey == old(byNSKey) - {CompositeKey(namespace, key)}
    {
      byNSKey := byNSKey - {CompositeKey(namespace, key)};
    }

    method DeleteExpired(now: int)
      requires Valid()
      modifies this
      ensures Valid() && byNSKey == map k | k in old(byNSKey) && !Expired(old(byNSKey)[k], now) :: old(byNSKey)[k]
    {
      hide TrimSpace, Expired, CompositeKey;
      var rest := byNSKey.Keys;
      while rest != {}
        invariant Valid() && rest <= byNSKey.Keys <= old(byNSKey).Keys
        invariant forall k | k in byNSKey :: byNSKey[k] == old(byNSKey)[k]
        invariant forall k | k in old(byNSKey) && k !in rest :: k in byNSKey <==> !Expired(old(byNSKey)[k], now)
        decreases |rest|
      {
        var k :| k in rest;
        rest := rest - {k};
        if Expired(byNSKey[k], now) {
          byNSKey := byNSKey - {k};
        }
      }
    }

    method ClearNamespace(namespace: string)
      requires Valid()
      modifies this
      ensures Valid() && byNSKey == map k | k in old(byNSKey) && old(byNSKey)[k].namespace != namespace :: old(byNSKey)[k]
    {
      hide TrimSpace, CompositeKey;
      var rest := byNSKey.Keys;
      while rest != {}
        invariant Valid() && rest <= byNSKey.Keys <= old(byNSKey).Keys
        invariant forall k | k in byNSKey :: byNSKey[k] == old(byNSKey)[k]
        invariant forall k | k in old(byNSKey) && k !in rest :: k in byNSKey <==> old(byNSKey)[k].namespace != namespace
        decreases |rest|
      {
        var k :| k in rest;
        rest := rest - {k};
        if byNSKey[k].namespace == namespace {
          byNSKey := byNSKey - {k};
        }
      }
    }
  }

  predicate Oldest(s: Store, places: set<string>, k: string)
    requires places <= s.Keys && k in places
  {
    forall other | other in places :: s[k].updatedAt <= s[other].updatedAt
  }

  lemma {:induction false} OldestExists(s: Store, places: set<string>)
    requires places != {} && places <= s.Keys
    ensures exists k :: k in places && Oldest(s, places, k)
    decreases |places|
  {
    var one :| one in places;
    var rest := places - {one};
    if rest == {} {
      assert places == {one} && Oldest(s, places, one);
    } else {
      OldestExists(s, rest);
      var k :| k in rest && Oldest(s, rest, k);
      assert Oldest(s, places, if s[one].updatedAt <= s[k].updatedAt then one else k);
    }
  }

  class AgentMemoryRuntime {
    const ephemeral: InMemoryStore
    const persistent: InMemoryStore
    const defaultWriteKey: string

    ghost predicate Valid()
      reads this, ephemeral, persistent
    {
      ephemeral != persistent && ephemeral.Valid() && persistent.Valid() && !Blank(defaultWriteKey)
    }

    constructor ()
      ensures Valid() && fresh(ephemeral) && fresh(persistent)
      ensures ephemeral.byNSKey == map[] && persistent.byNSKey == map[] && defaultWriteKey == "last_result"
    {
      ephemeral := new InMemoryStore();
      persistent := new InMemoryStore();
      defaultWriteKey := "last_result";
      new;
      assert !IsSpace(defaultWriteKey[0]);
    }

    function WriteKey(writeKey: string): string
      reads this
    {
      if Blank(writeKey) then defaultWriteKey else TrimSpace(writeKey)
    }

    function StoreFor(mode: Mode): InMemoryStore
      reads this
    {
      if mode == Ephemeral then ephemeral else persistent
    }

    /** persistStepResult, with the mode, namespace, value, lifetime and retention that the
        identity and the step settle. */
    method PersistStepResult(mode: Mode, namespace: string, writeKey: string, value: Value, ttl: int, retention: int, now: int)
        returns (ok: bool)
      requires Valid()
      modifies ephemeral, persistent
      ensures Valid()
      ensures unchanged(if mode == Ephemeral then persistent else ephemeral)
      ensures var before, after := old(StoreFor(mode).byNSKey), StoreFor(mode).byNSKey;
              if mode == NoMemory || value == map[] then ok && after == before
              else if Blank(namespace) then !ok && after == before
              else
                var key := if TrimSpace(writeKey) == "" then defaultWriteKey else TrimSpace(writeKey);
                ok && Retained(Written(before, namespace, key, value, ttl, now), namespace, retention, now, after)
    {
      hide TrimSpace, Expired, CompositeKey, IsListing, LiveKeys, Written;
      if mode == NoMemory {
        return true;
      }
      var key := WriteKey(writeKey);
      if |value| == 0 {
        assert value == map[];
        return true;
      }
      var store := StoreFor(mode);
      BlankIsTrimmed(writeKey);
      ok := store.Set(namespace, key, value, ttl, now);
      if !ok {
        return;
      }
      var recs := store.List(namespace, now);
      if retention > 0 && |recs| > retention {
        ghost var written := store.byNSKey;
        var overflow := recs[..|recs| - retention];
        for i := 0 to |overflow|
          invariant Valid() && unchanged(if mode == Ephemeral then persistent else ephemeral)
          invariant store.byNSKey == Without(written, recs, i)
        {
          ListedHere(written, namespace, now, recs, i);
          assert overflow[i] == recs[i];
          store.Delete(namespace, overflow[i].key);
        }
        assert RetainedBy(written, namespace, retention, now, store.byNSKey, recs);
      } else {
        assert RetainedBy(store.byNSKey, namespace, retention, now, store.byNSKey, recs);
      }
    }
  }

  lemma ListedHere(s: Store, namespace: string, now: int, recs: seq<Record>, i: nat)
    requires IsListing(s, LiveKeys(s, namespace, now), recs) && i < |recs|
    ensures recs[i].namespace == namespace
  {
    hide Expired, CompositeKey;
  }

  lemma BlankIsTrimmed(s: string)
    ensures Blank(TrimSpace(s)) <==> Blank(s)
  {
  }
}
