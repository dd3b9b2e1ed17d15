/** What retention promises: the newest records of one namespace stay, everything else is left
    alone, and composite keys keep namespaces apart when they hold no ':'. */
module MemoryRetentionProperties {
  import opened Wrappers
  import opened Text
  import opened MemoryRetention

  // ------------------------------------------------------------- one record

  /** A record is live up to and including its expiry, and for ever when it has none. */
  lemma LiveIff(s: Store, namespace: string, now: int, k: string)
    ensures k in LiveKeys(s, namespace, now) <==>
      k in s && s[k].namespace == namespace && (s[k].expiresAt.None? || now <= s[k].expiresAt.value)
  {
  }

  /** What a write leaves: the new value, updated now, created when a record was first put there,
      live for exactly its ttl, and every other record as it was. */
  lemma WriteIs(s: Store, namespace: string, key: string, value: Value, ttl: int, now: int)
    ensures var after, place := Written(s, namespace, key, value, ttl, now), TrimSpace(namespace) + "::" + TrimSpace(key);
            && place in after && after.Keys == s.Keys + {place}
            && after[place].namespace == namespace && after[place].key == key
            && after[place].value == value && after[place].updatedAt == now
            && after[place].createdAt == (if place in s then s[place].createdAt else now)
            && (forall later :: place in LiveKeys(after, namespace, later) <==> ttl <= 0 || later <= now + ttl)
            && (forall k | k in s && k != place :: after[k] == s[k])
  {
    hide TrimSpace;
  }

  // ---------------------------------------------------------------- listings

  /** A listing has one record per place. */
  lemma {:induction false} ListingCounts(s: Store, places: set<string>, recs: seq<Record>)
    requires Keyed(s) && IsListing(s, places, recs)
    ensures |recs| == |places|
    decreases |recs|
  {
    hide KeyOf, LiveKeys;
    if recs == [] {
      assert places == {};
    } else {
      var n := |recs| - 1;
      var k := KeyOf(recs[n]);
      forall other | other in places - {k} ensures s[other] in recs[..n] {
        assert s[other] in recs;
        assert KeyOf(s[other]) == other;
      }
      ListingCounts(s, places - {k}, recs[..n]);
    }
  }

  lemma {:induction false} ListingExists(s: Store, places: set<string>) returns (recs: seq<Record>)
    requires Keyed(s) && places <= s.Keys
    ensures IsListing(s, places, recs)
    decreases |places|
  {
    hide KeyOf;
    recs := [];
    if places != {} {
      OldestExists(s, places);
      var k :| k in places && Oldest(s, places, k);
      var rest := ListingExists(s, places - {k});
      assert forall i | 0 <= i < |rest| :: KeyOf(rest[i]) in places - {k};
      recs := ListingsJoin(s, {k}, [s[k]], places - {k}, rest);
      assert {k} + (places - {k}) == places;
    }
  }

  /** A listing of older records followed by one of newer records. */
  lemma ListingsJoin(s: Store, older: set<string>, a: seq<Record>, newer: set<string>, b: seq<Record>)
      returns (recs: seq<Record>)
    requires IsListing(s, older, a) && IsListing(s, newer, b) && older !! newer
    requires forall k, other | k in older && other in newer :: s[k].updatedAt <= s[other].updatedAt
    ensures recs == a + b && IsListing(s, older + newer, recs)
  {
    hide KeyOf;
    recs := a + b;
    forall i, j | 0 <= i < j < |recs| ensures KeyOf(recs[i]) != KeyOf(recs[j]) && recs[i].updatedAt <= recs[j].updatedAt {
      if i < |a| <= j {
        assert KeyOf(a[i]) in older && KeyOf(b[j - |a|]) in newer;
      }
    }
    forall k | k in older + newer ensures s[k] in recs {
      assert k in older ==> s[k] in a;
      assert k in newer ==> s[k] in b;
    }
  }

  function Places(recs: seq<Record>): set<string> {
    set i | 0 <= i < |recs| :: KeyOf(recs[i])
  }

  lemma {:induction false} WithoutRemoves(s: Store, recs: seq<Record>, n: nat)
    requires n <= |recs|
    ensures Without(s, recs, n) == s - Places(recs[..n])
  {
    hide KeyOf;
    if n == 0 {
      assert s - {} == s;
    } else {
      WithoutRemoves(s, recs, n - 1);
      assert recs[..n] == recs[..n - 1] + [recs[n - 1]];
      assert Places(recs[..n]) == Places(recs[..n - 1]) + {KeyOf(recs[n - 1])};
    }
  }

  /** The taken-out prefix of a listing, as places. */
  lemma EarlierThanRest(s: Store, places: set<string>, recs: seq<Record>, n: nat, k: string, other: string)
    requires Keyed(s) && IsListing(s, places, recs) && n <= |recs|
    requires k in Places(recs[..n]) && other in places && other !in Places(recs[..n])
    ensures k in s && other in s && s[k].updatedAt <= s[other].updatedAt
  {
    hide KeyOf;
    var i :| 0 <= i < n && KeyOf(recs[..n][i]) == k;
    forall l | 0 <= l < n ensures KeyOf(recs[l]) in Places(recs[..n]) {
      assert recs[..n][l] == recs[l];
    }
    var j :| 0 <= j < |recs| && recs[j] == s[other];
    assert KeyOf(recs[j]) == other;
    assert recs[..n][i] == recs[i] && i < n <= j;
  }

  lemma PrefixOfListing(s: Store, places: set<string>, recs: seq<Record>, n: nat)
    requires Keyed(s) && IsListing(s, places, recs) && n <= |recs|
    ensures Places(recs[..n]) <= places && |Places(recs[..n])| == n && |places| == |recs|
    ensures forall k, other | k in Places(recs[..n]) && other in places - Places(recs[..n]) ::
              k in s && other in s && s[k].updatedAt <= s[other].updatedAt
  {
    hide KeyOf;
    ListingCounts(s, places, recs);
    var first := Places(recs[..n]);
    forall k | k in first ensures s[k] in recs[..n] {
      var i :| 0 <= i < n && KeyOf(recs[..n][i]) == k;
      assert s[k] == recs[i] == recs[..n][i];
    }
    forall i | 0 <= i < n ensures KeyOf(recs[i]) in first {
      assert recs[..n][i] == recs[i];
    }
    assert IsListing(s, first, recs[..n]);
    ListingCounts(s, first, recs[..n]);
    forall k, other | k in first && other in places - first ensures s[k].updatedAt <= s[other].updatedAt {
      EarlierThanRest(s, places, recs, n, k, other);
    }
  }

  // ------------------------------------------------------------- retention

  /** Dropping these places keeps as many as the retention allows, none older than a dropped one. */
  predicate KeepsTheNewest(s: Store, places: set<string>, retention: int, dropped: set<string>) {
    && dropped <= places <= s.Keys
    && |places - dropped| == (if 0 < retention < |places| then retention else |places|)
    && forall k, other | k in dropped && other in places - dropped :: s[k].updatedAt <= s[other].updatedAt
  }

  /** The store keeps everything but some live records of the namespace, which are no newer
      than those it keeps, and keeps as many of these as the retention allows. */
  ghost predicate KeepsNewest(s: Store, namespace: string, retention: int, now: int, after: Store) {
    var dropped := s.Keys - after.Keys;
    after == s - dropped && KeepsTheNewest(s, LiveKeys(s, namespace, now), retention, dropped)
  }

  /** Exactly the stores that keep the newest records come out of retention; records that have
      expired but are still there, and other namespaces, are left alone. */
  lemma RetentionKeepsNewestIff(s: Store, namespace: string, retention: int, now: int, after: Store)
    requires Keyed(s)
    ensures Retained(s, namespace, retention, now, after) <==> KeepsNewest(s, namespace, retention, now, after)
  {
    hide LiveKeys, Keyed;
    if Retained(s, namespace, retention, now, after) {
      RetainedKeepsNewest(s, namespace, retention, now, after);
    }
    if KeepsNewest(s, namespace, retention, now, after) {
      KeepsNewestRetained(s, namespace, retention, now, after);
    }
  }

  lemma RetainedKeepsNewest(s: Store, namespace: string, retention: int, now: int, after: Store)
    requires Keyed(s) && Retained(s, namespace, retention, now, after)
    ensures KeepsNewest(s, namespace, retention, now, after)
  {
    var live := LiveKeys(s, namespace, now);
    hide LiveKeys, Keyed, Without, IsListing, Places, KeepsTheNewest;
    var recs :| RetainedBy(s, namespace, retention, now, after, recs);
    var n := Overflow(retention, |recs|);
    WithoutRemoves(s, recs, n);
    PrefixIsOldest(s, live, recs, retention);
    DroppedAre(s, live, Places(recs[..n]), after);
  }

  lemma PrefixIsOldest(s: Store, places: set<string>, recs: seq<Record>, retention: int)
    requires Keyed(s) && IsListing(s, places, recs) && places <= s.Keys
    ensures KeepsTheNewest(s, places, retention, Places(recs[..Overflow(retention, |recs|)]))
    ensures Places(recs[..Overflow(retention, |recs|)]) <= places
  {
    hide Keyed, IsListing, Places;
    var n := Overflow(retention, |recs|);
    PrefixOfListing(s, places, recs, n);
    SubsetSize(places, Places(recs[..n]));
  }

  lemma DroppedAre(s: Store, places: set<string>, dropped: set<string>, after: Store)
    requires dropped <= places <= s.Keys && after == s - dropped
    ensures s.Keys - after.Keys == dropped
  {
  }

  lemma SubsetSize(all: set<string>, part: set<string>)
    requires part <= all
    ensures |all - part| == |all| - |part|
  {
    assert all == part + (all - part);
  }

  lemma KeepsNewestRetained(s: Store, namespace: string, retention: int, now: int, after: Store)
    requires Keyed(s) && KeepsNewest(s, namespace, retention, now, after)
    ensures Retained(s, namespace, retention, now, after)
  {
    var live := LiveKeys(s, namespace, now);
    var dropped := s.Keys - after.Keys;
    hide LiveKeys, Keyed, Without, IsListing, Places, KeepsTheNewest;
    var recs := OldestFirst(s, live, retention, dropped);
    WithoutRemoves(s, recs, |dropped|);
    assert RetainedBy(s, namespace, retention, now, after, recs);
  }

  lemma OldestFirst(s: Store, places: set<string>, retention: int, dropped: set<string>) returns (recs: seq<Record>)
    requires Keyed(s) && KeepsTheNewest(s, places, retention, dropped)
    ensures IsListing(s, places, recs) && Overflow(retention, |recs|) == |dropped| <= |recs|
    ensures Places(recs[..|dropped|]) == dropped
  {
    hide Keyed, IsListing, Places;
    SubsetSize(places, dropped);
    assert dropped + (places - dropped) == places;
    recs := ListingWithPrefix(s, dropped, places - dropped);
    ListingCounts(s, places, recs);
  }

  /** A listing that starts with given places, when these are the older ones. */
  lemma ListingWithPrefix(s: Store, older: set<string>, newer: set<string>) returns (recs: seq<Record>)
    requires Keyed(s) && older + newer <= s.Keys && older !! newer
    requires forall k, other | k in older && other in newer :: s[k].updatedAt <= s[other].updatedAt
    ensures IsListing(s, older + newer, recs)
    ensures |older| <= |recs| && Places(recs[..|older|]) == older
  {
    var a := ListingExists(s, older);
    var b := ListingExists(s, newer);
    recs := ListingsJoin(s, older, a, newer, b);
    ListingCounts(s, older, a);
    PlacesOfListing(s, older, a);
    assert recs[..|older|] == a;
  }

  lemma PlacesOfListing(s: Store, places: set<string>, recs: seq<Record>)
    requires Keyed(s) && IsListing(s, places, recs)
    ensures Places(recs) == places
  {
    hide KeyOf;
    forall k | k in places ensures k in Places(recs) {
      var i :| 0 <= i < |recs| && recs[i] == s[k];
      assert KeyOf(s[k]) == k;
    }
  }

  /** At most `retention` live records are left in the namespace. */
  lemma RetentionBounds(s: Store, namespace: string, retention: int, now: int, after: Store)
    requires Keyed(s) && retention > 0 && Retained(s, namespace, retention, now, after)
    ensures |LiveKeys(after, namespace, now)| <= retention
  {
    RetainedKeepsNewest(s, namespace, retention, now, after);
    hide Keyed, Retained;
    LiveAmongKept(s, namespace, now, s.Keys - after.Keys);
  }

  lemma LiveAmongKept(s: Store, namespace: string, now: int, dropped: set<string>)
    ensures LiveKeys(s - dropped, namespace, now) == LiveKeys(s, namespace, now) - dropped
  {
    hide Expired;
  }

  predicate DistinctTimes(s: Store, places: set<string>)
    requires places <= s.Keys
  {
    forall k, other | k in places && other in places && k != other :: s[k].updatedAt != s[other].updatedAt
  }

  /** With distinct update times there is one outcome. */
  lemma RetentionIsUnique(s: Store, namespace: string, retention: int, now: int, a: Store, b: Store)
    requires Keyed(s) && LiveKeys(s, namespace, now) <= s.Keys && DistinctTimes(s, LiveKeys(s, namespace, now))
    requires Retained(s, namespace, retention, now, a) && Retained(s, namespace, retention, now, b)
    ensures a == b
  {
    hide LiveKeys, Keyed, Retained, KeepsTheNewest, DistinctTimes;
    RetainedKeepsNewest(s, namespace, retention, now, a);
    RetainedKeepsNewest(s, namespace, retention, now, b);
    NewestIsUnique(s, LiveKeys(s, namespace, now), retention, s.Keys - a.Keys, s.Keys - b.Keys);
  }

  lemma NewestIsUnique(s: Store, places: set<string>, retention: int, x: set<string>, y: set<string>)
    requires KeepsTheNewest(s, places, retention, x) && KeepsTheNewest(s, places, retention, y)
    requires DistinctTimes(s, places)
    ensures x == y
  {
    SubsetSize(places, x);
    SubsetSize(places, y);
    assert forall d, e | d in x - y && e in y - x :: SameTime(s, d, e) && d != e;
    assert x - y == {} || y - x == {};
    SameSizeEqual(x, y);
    SameSizeEqual(y, x);
  }

  predicate SameTime(s: Store, k: string, other: string) {
    k in s && other in s && s[k].updatedAt == s[other].updatedAt
  }

  lemma SameSizeEqual(x: set<string>, y: set<string>)
    requires |x| == |y|
    ensures x - y == {} ==> x == y
  {
    if x - y == {} {
      forall k | k in x ensures k in y {
        assert k !in x - y;
      }
      SubsetSize(y, x);
      assert |y - x| == 0 && y == x + (y - x);
    }
  }

  // ------------------------------------------------------ the written record

  /** The other live records of the namespace updated no earlier than the write. */
  function Rivals(s: Store, namespace: string, place: string, now: int): set<string> {
    set k | k in LiveKeys(s, namespace, now) && k != place && s[k].updatedAt >= now
  }

  /** The record just written survives whatever the order of ties exactly when fewer than
      `retention` others are as new; with a clock that moves on there are none. */
  lemma WrittenSurvivesIff(s: Store, namespace: string, place: string, retention: int, now: int)
    requires Keyed(s) && place in LiveKeys(s, namespace, now) && s[place].updatedAt == now && retention > 0
    ensures (forall after | Retained(s, namespace, retention, now, after) :: place in after)
            <==> |Rivals(s, namespace, place, now)| < retention
  {
    hide LiveKeys, Keyed, Retained, KeyOf;
    var rivals := Rivals(s, namespace, place, now);
    if |rivals| < retention {
      forall after | Retained(s, namespace, retention, now, after) ensures place in after {
        FewRivalsSpare(s, namespace, place, retention, now, after);
      }
    } else {
      var after := RivalsEvict(s, namespace, place, retention, now);
    }
  }

  lemma FewRivalsSpare(s: Store, namespace: string, place: string, retention: int, now: int, after: Store)
    requires Keyed(s) && place in LiveKeys(s, namespace, now) && s[place].updatedAt == now && retention > 0
    requires Retained(s, namespace, retention, now, after) && |Rivals(s, namespace, place, now)| < retention
    ensures place in after
  {
    RetainedKeepsNewest(s, namespace, retention, now, after);
    var dropped := s.Keys - after.Keys;
    RivalsAreNewest(s, namespace, place, now);
    hide LiveKeys, Keyed, Retained, Rivals;
    SparedByFew(s, LiveKeys(s, namespace, now), retention, dropped, place, Rivals(s, namespace, place, now));
  }

  lemma SparedByFew(s: Store, places: set<string>, retention: int, dropped: set<string>, place: string, rivals: set<string>)
    requires KeepsTheNewest(s, places, retention, dropped) && place in places && |rivals| < retention
    requires forall k | k in places && k != place && s[k].updatedAt >= s[place].updatedAt :: k in rivals
    ensures place !in dropped
  {
    SubsetSize(places, dropped);
    assert dropped == {} || |places - dropped| == retention;
    assert place in dropped ==> places - dropped <= rivals;
    NoLarger(places - dropped, rivals);
  }

  lemma NoLarger(part: set<string>, all: set<string>)
    ensures part <= all ==> |part| <= |all|
  {
    if part <= all {
      SubsetSize(all, part);
    }
  }

  lemma RivalsEvict(s: Store, namespace: string, place: string, retention: int, now: int) returns (after: Store)
    requires Keyed(s) && place in LiveKeys(s, namespace, now) && s[place].updatedAt == now && retention > 0
    requires |Rivals(s, namespace, place, now)| >= retention
    ensures Retained(s, namespace, retention, now, after) && place !in after
  {
    var live, rivals := LiveKeys(s, namespace, now), Rivals(s, namespace, place, now);
    RivalsAreNewest(s, namespace, place, now);
    hide LiveKeys, Rivals, Without, Keyed, IsListing, Places;
    var recs := OthersFirst(s, live, rivals, retention);
    var n := Overflow(retention, |recs|);
    after := Without(s, recs, n);
    WithoutRemoves(s, recs, n);
    assert RetainedBy(s, namespace, retention, now, after, recs);
  }

  lemma OthersFirst(s: Store, places: set<string>, rivals: set<string>, retention: int) returns (recs: seq<Record>)
    requires Keyed(s) && rivals <= places <= s.Keys && 0 < retention <= |rivals|
    requires forall k, other | k in places - rivals && other in rivals :: s[k].updatedAt <= s[other].updatedAt
    ensures IsListing(s, places, recs) && places - rivals <= Places(recs[..Overflow(retention, |recs|)])
  {
    hide Keyed, IsListing, Places;
    var first := places - rivals;
    assert first + rivals == places;
    recs := ListingWithPrefix(s, first, rivals);
    ListingCounts(s, places, recs);
    SubsetSize(places, rivals);
    var n := Overflow(retention, |recs|);
    assert recs[..n][..|first|] == recs[..|first|];
    PlacesGrow(recs[..n], |first|);
  }

  lemma RivalsAreNewest(s: Store, namespace: string, place: string, now: int)
    requires place in LiveKeys(s, namespace, now) && s[place].updatedAt == now
    ensures var live, rivals := LiveKeys(s, namespace, now), Rivals(s, namespace, place, now);
            && rivals <= live && place in live - rivals
            && (forall k | k in live && k != place && s[k].updatedAt >= now :: k in rivals)
            && forall k, other | k in live - rivals && other in rivals :: s[k].updatedAt <= s[other].updatedAt
  {
    hide LiveKeys;
  }

  lemma PlacesGrow(recs: seq<Record>, n: nat)
    requires n <= |recs|
    ensures Places(recs[..n]) <= Places(recs)
  {
    hide KeyOf;
    forall k | k in Places(recs[..n]) ensures k in Places(recs) {
      var i :| 0 <= i < n && KeyOf(recs[..n][i]) == k;
      assert recs[i] == recs[..n][i];
    }
  }

  // ------------------------------------------------------- other namespaces

  predicate Elsewhere(s: Store, k: string, namespace: string) {
    k in s && s[k].namespace != namespace
  }

  /** A write with retention leaves every record of other namespaces as it was exactly when
      none of them sits under the composite key written to. */
  lemma OtherNamespacesKeptIff(before: Store, namespace: string, key: string, record: Record,
                                retention: int, now: int, after: Store)
    requires Keyed(before) && record.namespace == namespace && record.key == key
    requires Retained(before[CompositeKey(namespace, key) := record], namespace, retention, now, after)
    ensures (forall k | Elsewhere(before, k, namespace) :: k in after && after[k] == before[k])
            <==> !Elsewhere(before, CompositeKey(namespace, key), namespace)
  {
    hide CompositeKey, Retained, LiveKeys;
    var place := CompositeKey(namespace, key);
    var written := before[place := record];
    assert Keyed(written);
    RetainedKeepsNewest(written, namespace, retention, now, after);
    KeptOutside(written, namespace, retention, now, after);
    forall k | Elsewhere(before, k, namespace) && k != place ensures k in after && after[k] == before[k] {
      assert Elsewhere(written, k, namespace);
    }
    assert place in after ==> after[place] == record;
  }

  lemma KeptOutside(s: Store, namespace: string, retention: int, now: int, after: Store)
    requires KeepsNewest(s, namespace, retention, now, after)
    ensures forall k | Elsewhere(s, k, namespace) :: k in after && after[k] == s[k]
    ensures forall k | k in after :: k in s && after[k] == s[k]
  {
    hide Expired;
  }

  /** Composite keys of namespaces without ':' tell namespaces and keys apart. */
  lemma ColonFreeKeysDiffer(a: string, k: string, b: string, m: string)
    requires ':' !in TrimSpace(a) && ':' !in TrimSpace(b) && CompositeKey(a, k) == CompositeKey(b, m)
    ensures TrimSpace(a) == TrimSpace(b) && TrimSpace(k) == TrimSpace(m)
  {
    hide TrimSpace;
    assert CompositeKey(a, k) == TrimSpace(a) + ":" + (":" + TrimSpace(k));
    assert CompositeKey(b, m) == TrimSpace(b) + ":" + (":" + TrimSpace(m));
    SplitAtColon(TrimSpace(a), ":" + TrimSpace(k), TrimSpace(b), ":" + TrimSpace(m));
    assert (":" + TrimSpace(k))[1..] == TrimSpace(k) && (":" + TrimSpace(m))[1..] == TrimSpace(m);
  }

  lemma {:induction false} SplitAtColon(x: string, u: string, y: string, v: string)
    requires ':' !in x && ':' !in y && x + ":" + u == y + ":" + v
    ensures x == y && u == v
  {
    assert (x + ":" + u)[0] == (y + ":" + v)[0];
    assert (x + ":" + u)[1..] == (y + ":" + v)[1..];
    if x == [] {
      assert forall c | c in y :: c != ':';
      assert u == (x + ":" + u)[1..];
    } else {
      assert x[0] in x && y != [];
      assert (x + ":" + u)[1..] == x[1..] + ":" + u && (y + ":" + v)[1..] == y[1..] + ":" + v;
      SplitAtColon(x[1..], u, y[1..], v);
      assert x == [x[0]] + x[1..] && y == [y[0]] + y[1..];
    }
  }

  /** So trimmed namespaces without ':' never touch each other. */
  lemma ColonFreeNamespacesKept(before: Store, namespace: string, key: string, record: Record,
                                retention: int, now: int, after: Store)
    requires Keyed(before) && record.namespace == namespace && record.key == key
    requires Retained(before[CompositeKey(namespace, key) := record], namespace, retention, now, after)
    requires Trimmed(namespace) && ':' !in namespace
    requires forall k | k in before :: Trimmed(before[k].namespace) && ':' !in before[k].namespace
    ensures forall k | Elsewhere(before, k, namespace) :: k in after && after[k] == before[k]
  {
    hide Retained, TrimSpace;
    var place := CompositeKey(namespace, key);
    OtherNamespacesKeptIff(before, namespace, key, record, retention, now, after);
    if Elsewhere(before, place, namespace) {
      ColonFreeKeysDiffer(before[place].namespace, before[place].key, namespace, key);
    }
  }

  /** With "::" inside they do: two namespaces, one place. */
  lemma NestedNamespacesCollide(a: string, b: string, c: string)
    requires Trimmed(a) && Trimmed(b) && Trimmed(c) && a != "" && b != "" && c != ""
    ensures CompositeKey(a + "::" + b, c) == CompositeKey(a, b + "::" + c) && a + "::" + b != a
  {
    assert Trimmed(a + "::" + b) && Trimmed(b + "::" + c);
    hide TrimSpace;
    assert a + "::" + b + "::" + c == a + "::" + (b + "::" + c);
    assert |a + "::" + b| > |a|;
  }
}
