/** When the outcome of a job configuration does not depend on how its parallel groups are
    scheduled, and that the condition is exact. */
module JobResultsProperties {
  import opened Wrappers
  import opened Text
  import opened Json
  import opened JobResults
  import JobGroup

  // ---------------------------------------------- when result keys collide

  lemma {:induction false} CountMonotone(labels: seq<string>, i: nat, j: nat, lbl: string)
    requires i <= j <= |labels|
    ensures Count(labels[..i], lbl) <= Count(labels[..j], lbl)
    decreases j
  {
    if i < j {
      CountMonotone(labels, i, j - 1, lbl);
      CountExtends(labels, j - 1, lbl);
    }
  }

  /** A repeated label never gets the same occurrence number twice. */
  lemma OccurrencesDiffer(labels: seq<string>, i: nat, j: nat)
    requires i < j < |labels| && labels[i] == labels[j]
    ensures 1 <= Occurrence(labels, i) < Occurrence(labels, j)
  {
    CountExtends(labels, i, labels[i]);
    CountMonotone(labels, i + 1, j, labels[i]);
    CountExtends(labels, j, labels[i]);
  }

  /** A suffixed key can be taken apart again: digits hold no '#'. */
  lemma SuffixedInjective(a: string, m: nat, b: string, n: nat)
    requires Suffixed(a, m) == Suffixed(b, n)
    ensures a == b && m == n
  {
    var s, s' := Suffixed(a, m), Suffixed(b, n);
    assert s[|a|] == '#' && s'[|b|] == '#';
    assert forall k | 0 <= k < |Itoa(m)| :: s[|a| + 1 + k] == Itoa(m)[k];
    assert forall k | 0 <= k < |Itoa(n)| :: s'[|b| + 1 + k] == Itoa(n)[k];
    assert |a| == |b|;
    assert a == s[..|a|] && b == s'[..|b|];
    assert Itoa(m) == s[|a| + 1..] && Itoa(n) == s'[|b| + 1..];
    ItoaInjective(m, n);
  }

  predicate DistinctKeys(groups: seq<Group>) {
    forall i, j | 0 <= i < j < |groups| :: Keys(groups)[i] != Keys(groups)[j]
  }

  /** The label of the first group, alone so far, is spelled like the numbered key of the second. */
  predicate Mimics(labels: seq<string>, i: nat, j: nat)
    requires i < |labels| && j < |labels|
  {
    Occurrence(labels, i) <= 1 && Occurrence(labels, j) > 1 && labels[i] == Suffixed(labels[j], Occurrence(labels, j))
  }

  /** Some label is spelled exactly like another label's numbered duplicate. */
  predicate LabelLooksSuffixed(groups: seq<Group>) {
    exists i, j | 0 <= i < |groups| && 0 <= j < |groups| :: Mimics(Labels(groups), i, j)
  }

  lemma SameKeyMimics(labels: seq<string>, i: nat, j: nat)
    requires i < j < |labels| && Key(labels, i) == Key(labels, j)
    ensures Mimics(labels, i, j) || Mimics(labels, j, i)
  {
    if labels[i] == labels[j] {
      OccurrencesDiffer(labels, i, j);
    }
    hide Occurrence, Suffixed;
    if Occurrence(labels, i) > 1 && Occurrence(labels, j) > 1 {
      SuffixedInjective(labels[i], Occurrence(labels, i), labels[j], Occurrence(labels, j));
    }
  }

  /** Result keys are distinct exactly when no label looks like a numbered duplicate. */
  lemma KeysDistinctIff(groups: seq<Group>)
    ensures DistinctKeys(groups) <==> !LabelLooksSuffixed(groups)
  {
    var labels, keys := Labels(groups), Keys(groups);
    assert forall i | 0 <= i < |groups| :: keys[i] == Key(labels, i);
    if i, j :| 0 <= i < |groups| && 0 <= j < |groups| && Mimics(labels, i, j) {
      assert keys[i] == keys[j] && i != j;
    }
    hide Mimics, Key, Labels, Keys;
    if i, j :| 0 <= i < j < |groups| && keys[i] == keys[j] {
      SameKeyMimics(labels, i, j);
    }
  }

  /** In particular job names without '#' give distinct keys. */
  lemma NoHashGivesDistinctKeys(groups: seq<Group>)
    requires forall i | 0 <= i < |groups| :: '#' !in TrimSpace(groups[i].name)
    ensures DistinctKeys(groups)
  {
    hide Occurrence, Itoa;
    var labels := Labels(groups);
    forall i | 0 <= i < |groups| ensures '#' !in labels[i] {
      assert labels[i] == Label(groups, i);
    }
    forall i, j | 0 <= i < |groups| && 0 <= j < |groups| ensures !Mimics(labels, i, j) {
      assert Suffixed(labels[j], Occurrence(labels, j))[|labels[j]|] == '#';
    }
    KeysDistinctIff(groups);
  }

  /** Two jobs of one name and a third named like the second's key do collide. */
  lemma NamedLikeADuplicate(groups: seq<Group>, a: string)
    requires |groups| == 3 && a != ""
    requires TrimSpace(groups[0].name) == a && TrimSpace(groups[1].name) == a && TrimSpace(groups[2].name) == a + "#2"
    ensures !DistinctKeys(groups)
  {
    var labels := Labels(groups);
    assert labels[0] == a && labels[1] == a && labels[2] == a + "#2" && |labels[2]| > |a|;
    hide TrimSpace;
    CountExtends(labels, 0, a);
    CountExtends(labels, 1, a);
    CountExtends(labels, 0, labels[2]);
    CountExtends(labels, 1, labels[2]);
    CountExtends(labels, 2, labels[2]);
    assert labels[..0] == [];
    assert Occurrence(labels, 1) == 2 && Occurrence(labels, 2) == 1;
    assert Suffixed(a, 2) == a + "#2" && Mimics(labels, 2, 1);
    KeysDistinctIff(groups);
  }

  // -------------------------------------- what the messages add up to

  lemma {:induction false} FailureFrom(arrivals: seq<Arrival>, key: string)
    ensures key in FailuresByKey(arrivals) <==>
      exists i :: 0 <= i < |arrivals| && arrivals[i].key == key && arrivals[i].outcome.Err?
    ensures key in FailuresByKey(arrivals) ==>
      exists i :: 0 <= i < |arrivals| && arrivals[i].key == key && arrivals[i].outcome == Err(FailuresByKey(arrivals)[key])
  {
    if arrivals != [] {
      var n := |arrivals| - 1;
      FailureFrom(arrivals[..n], key);
      assert arrivals[n].key == key && arrivals[n].outcome.Err? ==> key in FailuresByKey(arrivals);
      assert forall i | 0 <= i < n :: arrivals[..n][i] == arrivals[i];
    }
  }

  lemma {:induction false} PayloadFrom(arrivals: seq<Arrival>, key: string)
    ensures key in PayloadsByKey(arrivals) <==>
      exists i :: 0 <= i < |arrivals| && arrivals[i].key == key && arrivals[i].outcome.Ok?
    ensures key in PayloadsByKey(arrivals) ==>
      exists i :: 0 <= i < |arrivals| && arrivals[i].key == key && arrivals[i].outcome == Ok(PayloadsByKey(arrivals)[key])
  {
    if arrivals != [] {
      var n := |arrivals| - 1;
      PayloadFrom(arrivals[..n], key);
      assert arrivals[n].key == key && arrivals[n].outcome.Ok? ==> key in PayloadsByKey(arrivals);
      assert forall i | 0 <= i < n :: arrivals[..n][i] == arrivals[i];
    }
  }

  /** No two parallel groups share a result key. */
  predicate DistinctParallelKeys(groups: seq<Group>) {
    forall i, j | 0 <= i < j < |groups| && Parallel(groups[i]) && Parallel(groups[j]) :: Keys(groups)[i] != Keys(groups)[j]
  }

  lemma SameMessages(groups: seq<Group>, order: seq<nat>, order': seq<nat>, k: nat) returns (k': nat)
    requires FinishingOrder(groups, order) && FinishingOrder(groups, order') && k < |order|
    ensures k' < |order'| && Arrivals(groups, order')[k'] == Arrivals(groups, order)[k]
  {
    hide Parallel, ArrivalOf;
    var i := order[k];
    assert i < |groups| && Parallel(groups[i]);
    assert i in order';
    k' :| 0 <= k' < |order'| && order'[k'] == i;
  }

  lemma KeyNamesMessage(groups: seq<Group>, order: seq<nat>, k: nat, order': seq<nat>, k': nat)
    requires DistinctParallelKeys(groups)
    requires FinishingOrder(groups, order) && FinishingOrder(groups, order') && k < |order| && k' < |order'|
    requires Arrivals(groups, order)[k].key == Arrivals(groups, order')[k'].key
    ensures Arrivals(groups, order)[k] == Arrivals(groups, order')[k']
  {
  }

  lemma FailuresAgree(groups: seq<Group>, order: seq<nat>, order': seq<nat>, key: string)
    requires DistinctParallelKeys(groups)
    requires FinishingOrder(groups, order) && FinishingOrder(groups, order')
    requires key in FailuresByKey(Arrivals(groups, order))
    ensures key in FailuresByKey(Arrivals(groups, order'))
    ensures FailuresByKey(Arrivals(groups, order'))[key] == FailuresByKey(Arrivals(groups, order))[key]
  {
    var a, b := Arrivals(groups, order), Arrivals(groups, order');
    FailureFrom(a, key);
    var k :| 0 <= k < |a| && a[k].key == key && a[k].outcome == Err(FailuresByKey(a)[key]);
    var k' := SameMessages(groups, order, order', k);
    FailureFrom(b, key);
    assert b[k'].key == key && b[k'].outcome.Err?;
    var l :| 0 <= l < |b| && b[l].key == key && b[l].outcome == Err(FailuresByKey(b)[key]);
    KeyNamesMessage(groups, order, k, order', l);
  }

  lemma PayloadsAgree(groups: seq<Group>, order: seq<nat>, order': seq<nat>, key: string)
    requires DistinctParallelKeys(groups)
    requires FinishingOrder(groups, order) && FinishingOrder(groups, order')
    requires key in PayloadsByKey(Arrivals(groups, order))
    ensures key in PayloadsByKey(Arrivals(groups, order'))
    ensures PayloadsByKey(Arrivals(groups, order'))[key] == PayloadsByKey(Arrivals(groups, order))[key]
  {
    var a, b := Arrivals(groups, order), Arrivals(groups, order');
    PayloadFrom(a, key);
    var k :| 0 <= k < |a| && a[k].key == key && a[k].outcome == Ok(PayloadsByKey(a)[key]);
    var k' := SameMessages(groups, order, order', k);
    PayloadFrom(b, key);
    assert b[k'].key == key && b[k'].outcome.Ok?;
    var l :| 0 <= l < |b| && b[l].key == key && b[l].outcome == Ok(PayloadsByKey(b)[key]);
    KeyNamesMessage(groups, order, k, order', l);
  }

  /** With distinct parallel keys every finishing order gives one and the same result. */
  lemma FinishingOrderIrrelevant(groups: seq<Group>, order: seq<nat>, order': seq<nat>)
    requires DistinctParallelKeys(groups)
    requires FinishingOrder(groups, order) && FinishingOrder(groups, order')
    ensures Combine(groups, Arrivals(groups, order)) == Combine(groups, Arrivals(groups, order'))
  {
    hide FailuresByKey, PayloadsByKey, DistinctParallelKeys, FinishingOrder, Arrivals, Keys, FirstFailure, SerialFailure, Serials;
    var a, b := Arrivals(groups, order), Arrivals(groups, order');
    forall key | key in FailuresByKey(a) ensures key in FailuresByKey(b) && FailuresByKey(b)[key] == FailuresByKey(a)[key] {
      FailuresAgree(groups, order, order', key);
    }
    forall key | key in FailuresByKey(b) ensures key in FailuresByKey(a) {
      FailuresAgree(groups, order', order, key);
    }
    assert FailuresByKey(a) == FailuresByKey(b);
    forall key | key in PayloadsByKey(a) ensures key in PayloadsByKey(b) && PayloadsByKey(b)[key] == PayloadsByKey(a)[key] {
      PayloadsAgree(groups, order, order', key);
    }
    forall key | key in PayloadsByKey(b) ensures key in PayloadsByKey(a) {
      PayloadsAgree(groups, order', order, key);
    }
    assert PayloadsByKey(a) == PayloadsByKey(b);
  }

  // ----------------------------------- the result, read in definition order

  lemma {:induction false} NoSerialFailure(groups: seq<Group>)
    ensures SerialFailure(groups).None? <==>
      forall i | 0 <= i < |groups| :: groups[i].seedable && (Parallel(groups[i]) || groups[i].outcome.Ok?)
  {
    if groups != [] {
      NoSerialFailure(groups[1..]);
      assert forall i | 1 <= i < |groups| :: groups[i] == groups[1..][i - 1];
      assert forall i | 0 <= i < |groups[1..]| :: groups[1..][i] == groups[i + 1];
    }
  }

  /** The first group in definition order that fails serially or cannot be seeded decides. */
  lemma {:induction false} FirstSerialFailureDecides(groups: seq<Group>, i: nat)
    requires i < |groups|
    requires forall j | 0 <= j < i :: groups[j].seedable && (Parallel(groups[j]) || groups[j].outcome.Ok?)
    requires !groups[i].seedable || (!Parallel(groups[i]) && groups[i].outcome.Err?)
    ensures SerialFailure(groups) == Some(
      if !groups[i].seedable then SeedError(groups[i].name) else GroupError(groups[i].name, groups[i].outcome.error))
    decreases i
  {
    if i > 0 {
      assert groups[1..][i - 1] == groups[i];
      FirstSerialFailureDecides(groups[1..], i - 1);
    }
  }

  lemma {:induction false} FirstFailureAt(keys: seq<string>, failures: map<string, JobError>, i: nat)
    requires i < |keys| && keys[i] in failures
    requires forall j | 0 <= j < i :: keys[j] !in failures
    ensures FirstFailure(keys, failures) == Some(failures[keys[i]])
    decreases i
  {
    if i > 0 {
      FirstFailureAt(keys[1..], failures, i - 1);
    }
  }

  lemma {:induction false} NoFailureFound(keys: seq<string>, failures: map<string, JobError>)
    requires forall j | 0 <= j < |keys| :: keys[j] !in failures
    ensures FirstFailure(keys, failures).None?
  {
    if keys != [] {
      NoFailureFound(keys[1..], failures);
    }
  }

  lemma KeyFails(groups: seq<Group>, order: seq<nat>, i: nat)
    requires DistinctKeys(groups) && FinishingOrder(groups, order) && i < |groups|
    ensures Keys(groups)[i] in FailuresByKey(Arrivals(groups, order)) <==> Parallel(groups[i]) && groups[i].outcome.Err?
    ensures Parallel(groups[i]) && groups[i].outcome.Err? ==>
      FailuresByKey(Arrivals(groups, order))[Keys(groups)[i]] == OutcomeOf(groups[i]).error
  {
    hide Parallel, Keys, FailuresByKey;
    var a, key := Arrivals(groups, order), Keys(groups)[i];
    FailureFrom(a, key);
    if Parallel(groups[i]) {
      var k :| 0 <= k < |order| && order[k] == i;
      assert a[k] == ArrivalOf(groups, i);
    }
  }

  /** Without a serial failure the lowest failing parallel group decides, whatever order the
      groups finished in. */
  lemma LowestParallelFailureDecides(groups: seq<Group>, order: seq<nat>, i: nat)
    requires DistinctKeys(groups) && FinishingOrder(groups, order) && SerialFailure(groups).None?
    requires i < |groups| && Parallel(groups[i]) && groups[i].outcome.Err?
    requires forall j | 0 <= j < i :: Parallel(groups[j]) ==> groups[j].outcome.Ok?
    ensures Combine(groups, Arrivals(groups, order)) == Err(GroupError(groups[i].name, groups[i].outcome.error))
  {
    hide Keys, FailuresByKey, SerialFailure, Parallel, DistinctKeys, FinishingOrder, Serials, PayloadsByKey, FirstFailure;
    forall j | 0 <= j <= i ensures Keys(groups)[j] in FailuresByKey(Arrivals(groups, order)) <==> j == i {
      KeyFails(groups, order, j);
    }
    KeyFails(groups, order, i);
    FirstFailureAt(Keys(groups), FailuresByKey(Arrivals(groups, order)), i);
  }

  /** `x` is the message of a serial group below `n`. */
  predicate FromSerial(groups: seq<Group>, n: nat, x: Arrival)
    requires n <= |groups|
  {
    exists i :: 0 <= i < n && !Parallel(groups[i]) && x == ArrivalOf(groups, i)
  }

  lemma {:induction false} SerialsHold(groups: seq<Group>, n: nat)
    requires n <= |groups|
    ensures forall k | 0 <= k < |Serials(groups, n)| :: FromSerial(groups, n, Serials(groups, n)[k])
    ensures forall i | 0 <= i < n && !Parallel(groups[i]) :: ArrivalOf(groups, i) in Serials(groups, n)
    ensures |Serials(groups, n)| <= n
    ensures (exists i :: 0 <= i < n && Parallel(groups[i])) ==> |Serials(groups, n)| < n
  {
    hide Parallel, ArrivalOf;
    if n > 0 {
      SerialsHold(groups, n - 1);
      var before := Serials(groups, n - 1);
      if !Parallel(groups[n - 1]) {
        assert Serials(groups, n)[|before|] == ArrivalOf(groups, n - 1);
        assert FromSerial(groups, n, ArrivalOf(groups, n - 1));
      }
      forall x | FromSerial(groups, n - 1, x) ensures FromSerial(groups, n, x) {
      }
      hide FromSerial;
      forall k | 0 <= k < |Serials(groups, n)| ensures FromSerial(groups, n, Serials(groups, n)[k]) {
        if k < |before| {
          assert Serials(groups, n)[k] == before[k];
        }
      }
    }
  }

  lemma SerialKeyPays(groups: seq<Group>, i: nat)
    requires DistinctKeys(groups) && SerialFailure(groups).None? && i < |groups|
    ensures Keys(groups)[i] in PayloadsByKey(Serials(groups, |groups|)) <==> !Parallel(groups[i])
    ensures !Parallel(groups[i]) ==>
      groups[i].outcome == Ok(PayloadsByKey(Serials(groups, |groups|))[Keys(groups)[i]])
  {
    hide Parallel, Keys, PayloadsByKey, Serials, SerialFailure;
    var serials, key := Serials(groups, |groups|), Keys(groups)[i];
    SerialsHold(groups, |groups|);
    NoSerialFailure(groups);
    PayloadFrom(serials, key);
    if !Parallel(groups[i]) {
      var k :| 0 <= k < |serials| && serials[k] == ArrivalOf(groups, i);
      assert serials[k].key == key && serials[k].outcome.Ok?;
    }
    if key in PayloadsByKey(serials) {
      var k :| 0 <= k < |serials| && serials[k].key == key && serials[k].outcome == Ok(PayloadsByKey(serials)[key]);
      assert FromSerial(groups, |groups|, serials[k]);
      var j :| 0 <= j < |groups| && !Parallel(groups[j]) && serials[k] == ArrivalOf(groups, j);
      assert Keys(groups)[j] == Keys(groups)[i];
    }
  }

  lemma ParallelKeyPays(groups: seq<Group>, order: seq<nat>, i: nat)
    requires DistinctKeys(groups) && FinishingOrder(groups, order) && i < |groups|
    ensures Keys(groups)[i] in PayloadsByKey(Arrivals(groups, order)) <==> Parallel(groups[i]) && groups[i].outcome.Ok?
    ensures Parallel(groups[i]) && groups[i].outcome.Ok? ==>
      groups[i].outcome == Ok(PayloadsByKey(Arrivals(groups, order))[Keys(groups)[i]])
  {
    hide Parallel, Keys, PayloadsByKey;
    var a, key := Arrivals(groups, order), Keys(groups)[i];
    PayloadFrom(a, key);
    if Parallel(groups[i]) {
      var k :| 0 <= k < |order| && order[k] == i;
      assert a[k] == ArrivalOf(groups, i);
    }
  }

  lemma SomeParallel(groups: seq<Group>)
    ensures (exists i :: 0 <= i < |groups| && ToLower(TrimSpace(groups[i].process)) == "parallel")
            <==> exists i :: 0 <= i < |groups| && Parallel(groups[i])
  {
    if i :| 0 <= i < |groups| && ToLower(TrimSpace(groups[i].process)) == "parallel" {
      assert Parallel(groups[i]);
    }
  }

  /** Without failures and with a parallel group, the result holds every group's payload
      under its own key and nothing else, whatever order the groups finished in. */
  lemma EveryPayloadUnderItsKey(groups: seq<Group>, order: seq<nat>)
    requires DistinctKeys(groups) && FinishingOrder(groups, order) && SerialFailure(groups).None?
    requires exists i :: 0 <= i < |groups| && ToLower(TrimSpace(groups[i].process)) == "parallel"
    requires forall i | 0 <= i < |groups| :: groups[i].outcome.Ok?
    ensures var result := Combine(groups, Arrivals(groups, order));
            && result.Ok? && result.value.Obj?
            && result.value.fields.Keys == (set i | 0 <= i < |groups| :: Keys(groups)[i])
            && forall i | 0 <= i < |groups| :: groups[i].outcome == Ok(result.value.fields[Keys(groups)[i]])
  {
    SomeParallel(groups);
    hide Keys, FailuresByKey, PayloadsByKey, SerialFailure, Serials, Parallel, DistinctKeys, TrimSpace, ToLower;
    var a, serials := Arrivals(groups, order), Serials(groups, |groups|);
    forall j | 0 <= j < |groups| ensures Keys(groups)[j] !in FailuresByKey(a) {
      KeyFails(groups, order, j);
    }
    NoFailureFound(Keys(groups), FailuresByKey(a));
    SerialsHold(groups, |groups|);
    var fields := PayloadsByKey(serials) + PayloadsByKey(a);
    assert Combine(groups, a) == Ok(Obj(fields));
    forall i | 0 <= i < |groups| ensures Keys(groups)[i] in fields && groups[i].outcome == Ok(fields[Keys(groups)[i]]) {
      SerialKeyPays(groups, i);
      ParallelKeyPays(groups, order, i);
    }
    forall key | key in fields ensures exists i :: 0 <= i < |groups| && Keys(groups)[i] == key {
      PayloadKeysAreGroupKeys(groups, order, key);
    }
  }

  lemma PayloadKeysAreGroupKeys(groups: seq<Group>, order: seq<nat>, key: string)
    requires FinishingOrder(groups, order)
    requires key in PayloadsByKey(Serials(groups, |groups|)) || key in PayloadsByKey(Arrivals(groups, order))
    ensures exists i :: 0 <= i < |groups| && Keys(groups)[i] == key
  {
    hide Parallel, Keys, PayloadsByKey, Serials;
    var a, serials := Arrivals(groups, order), Serials(groups, |groups|);
    PayloadFrom(a, key);
    PayloadFrom(serials, key);
    SerialsHold(groups, |groups|);
    if key in PayloadsByKey(a) {
      var k :| 0 <= k < |a| && a[k].key == key;
      assert Keys(groups)[order[k]] == key;
    } else {
      var k :| 0 <= k < |serials| && serials[k].key == key;
      assert FromSerial(groups, |groups|, serials[k]);
      var i :| 0 <= i < |groups| && serials[k] == ArrivalOf(groups, i);
      assert Keys(groups)[i] == key;
    }
  }

  /** With serial groups only, none of which fails, the last group's payload is the answer, and an
      empty object answers for no group at all. */
  lemma SerialAnswerIsLast(groups: seq<Group>)
    requires forall i | 0 <= i < |groups| :: ToLower(TrimSpace(groups[i].process)) != "parallel"
    requires forall i | 0 <= i < |groups| :: groups[i].seedable && groups[i].outcome.Ok?
    ensures FinishingOrder(groups, [])
    ensures var answer := Combine(groups, Arrivals(groups, []));
            answer == Ok(if groups == [] then Obj(map[]) else groups[|groups| - 1].outcome.value)
  {
    NoParallel(groups);
    hide TrimSpace, ToLower, Parallel, Keys, Serials;
    NoSerialFailure(groups);
    NoFailureFound(Keys(groups), FailuresByKey(Arrivals(groups, [])));
    AllSerial(groups, |groups|);
  }

  lemma NoParallel(groups: seq<Group>)
    requires forall i | 0 <= i < |groups| :: ToLower(TrimSpace(groups[i].process)) != "parallel"
    ensures forall i | 0 <= i < |groups| :: !Parallel(groups[i])
  {
  }

  lemma {:induction false} AllSerial(groups: seq<Group>, n: nat)
    requires n <= |groups| && forall i | 0 <= i < |groups| :: !Parallel(groups[i])
    ensures |Serials(groups, n)| == n && (n > 0 ==> Serials(groups, n)[n - 1] == ArrivalOf(groups, n - 1))
  {
    hide Parallel, ArrivalOf;
    if n > 0 {
      AllSerial(groups, n - 1);
    }
  }

  /** A group's name without its padding, or its position when it has none. */
  function Named(groups: seq<Group>, i: nat): string
    requires i < |groups|
  {
    if TrimSpace(groups[i].name) != "" then TrimSpace(groups[i].name) else "group-" + Itoa(i)
  }

  /** The earlier groups named alike. */
  function Namesakes(groups: seq<Group>, i: nat): set<nat>
    requires i < |groups|
  {
    set j | 0 <= j < i && Named(groups, j) == Named(groups, i)
  }

  /** The first group of a name gets the name as its key, the second the name and "#2", and so on. */
  lemma KeyOfGroup(groups: seq<Group>, i: nat)
    requires i < |groups|
    ensures Keys(groups)[i]
            == if Namesakes(groups, i) == {} then Named(groups, i)
               else Named(groups, i) + "#" + Itoa(|Namesakes(groups, i)| + 1)
  {
    hide TrimSpace, Itoa, Count;
    var labels := Labels(groups);
    assert forall j | 0 <= j < |groups| :: labels[j] == Named(groups, j);
    CountExtends(labels, i, labels[i]);
    CountIsSize(labels, i, labels[i]);
    assert Namesakes(groups, i) == Occurrences(labels, i, labels[i]);
  }

  function Occurrences(labels: seq<string>, i: nat, lbl: string): set<nat>
    requires i <= |labels|
  {
    set j | 0 <= j < i && labels[j] == lbl
  }

  lemma {:induction false} CountIsSize(labels: seq<string>, i: nat, lbl: string)
    requires i <= |labels|
    ensures Count(labels[..i], lbl) == |Occurrences(labels, i, lbl)|
  {
    if i > 0 {
      CountIsSize(labels, i - 1, lbl);
      CountExtends(labels, i - 1, lbl);
      hide Count;
      var before := Occurrences(labels, i - 1, lbl);
      assert Occurrences(labels, i, lbl) == before + (if labels[i - 1] == lbl then {i - 1} else {});
    }
  }

  // --------------------------------------------- the condition is exact

  function WithOutcomes(groups: seq<Group>, f: nat -> Result<Json, JobGroup.Failure>): (changed: seq<Group>)
    ensures |changed| == |groups|
  {
    seq(|groups|, i requires 0 <= i < |groups| => groups[i].(outcome := f(i)))
  }

  /** The other parallel groups below `n`, in definition order. */
  function Others(groups: seq<Group>, last: nat, n: nat): seq<nat>
    requires n <= |groups|
  {
    if n == 0 then []
    else Others(groups, last, n - 1) + (if n - 1 != last && Parallel(groups[n - 1]) then [n - 1] else [])
  }

  /** What the list promises: every other parallel group below `n`, once. */
  predicate ListsOthers(groups: seq<Group>, last: nat, n: nat, order: seq<nat>)
    requires n <= |groups|
  {
    && (forall k | 0 <= k < |order| :: order[k] < n && order[k] != last && Parallel(groups[order[k]]))
    && (forall i | 0 <= i < n && i != last && Parallel(groups[i]) :: i in order)
    && (forall k, l | 0 <= k < l < |order| :: order[k] != order[l])
  }

  lemma {:induction false} OthersListed(groups: seq<Group>, last: nat, n: nat)
    requires n <= |groups|
    ensures ListsOthers(groups, last, n, Others(groups, last, n))
  {
    hide Parallel, Others, ListsOthers;
    if n == 0 {
      NoOthersYet(groups, last);
    } else {
      OthersListed(groups, last, n - 1);
      NextListed(groups, last, n - 1, Others(groups, last, n - 1));
      OthersNext(groups, last, n);
    }
  }

  lemma NoOthersYet(groups: seq<Group>, last: nat)
    ensures ListsOthers(groups, last, 0, Others(groups, last, 0))
  {
  }

  lemma OthersNext(groups: seq<Group>, last: nat, n: nat)
    requires 0 < n <= |groups|
    ensures Others(groups, last, n)
            == if n - 1 != last && Parallel(groups[n - 1]) then Others(groups, last, n - 1) + [n - 1] else Others(groups, last, n - 1)
  {
    hide Parallel;
  }

  lemma NextListed(groups: seq<Group>, last: nat, n: nat, order: seq<nat>)
    requires n < |groups| && ListsOthers(groups, last, n, order)
    ensures n != last && Parallel(groups[n]) ==> ListsOthers(groups, last, n + 1, order + [n])
    ensures !(n != last && Parallel(groups[n])) ==> ListsOthers(groups, last, n + 1, order)
  {
    hide Parallel;
    var longer := order + [n];
    assert longer[|order|] == n;
    forall i | i in order ensures i in longer {
    }
  }

  function FinishingLast(groups: seq<Group>, last: nat): seq<nat>
    requires last < |groups|
  {
    Others(groups, last, |groups|) + [last]
  }

  lemma FinishingLastIsOrder(groups: seq<Group>, last: nat)
    requires last < |groups| && Parallel(groups[last])
    ensures FinishingOrder(groups, FinishingLast(groups, last))
  {
    OthersListed(groups, last, |groups|);
    hide Others;
    LastAdded(groups, last, Others(groups, last, |groups|));
  }

  lemma LastAdded(groups: seq<Group>, last: nat, before: seq<nat>)
    requires last < |groups| && Parallel(groups[last]) && ListsOthers(groups, last, |groups|, before)
    ensures FinishingOrder(groups, before + [last])
  {
    hide Parallel;
    var order := before + [last];
    assert order[|before|] == last && order[..|before|] == before;
    forall i | i in before ensures i in order {
      assert i in order[..|before|];
    }
  }

  lemma KeysIgnoreOutcomes(groups: seq<Group>, f: nat -> Result<Json, JobGroup.Failure>)
    ensures Keys(WithOutcomes(groups, f)) == Keys(groups)
    ensures forall i | 0 <= i < |groups| :: Parallel(WithOutcomes(groups, f)[i]) == Parallel(groups[i])
  {
    assert Labels(WithOutcomes(groups, f)) == Labels(groups);
  }

  lemma LastOfOrder(groups: seq<Group>, last: nat)
    requires last < |groups|
    ensures FinishingLast(groups, last) != [] && FinishingLast(groups, last)[|FinishingLast(groups, last)| - 1] == last
  {
  }

  /** The payload under the key of the group that finished last is that group's. */
  lemma LastFinisherOwnsKey(groups: seq<Group>, last: nat)
    requires forall i | 0 <= i < |groups| :: groups[i].seedable && groups[i].outcome.Ok?
    requires last < |groups| && Parallel(groups[last])
    ensures FinishingOrder(groups, FinishingLast(groups, last))
    ensures var result := Combine(groups, Arrivals(groups, FinishingLast(groups, last)));
            && result.Ok? && result.value.Obj? && Keys(groups)[last] in result.value.fields
            && groups[last].outcome == Ok(result.value.fields[Keys(groups)[last]])
  {
    hide Keys, Serials, SerialFailure, Parallel, FinishingLast;
    FinishingLastIsOrder(groups, last);
    var order := FinishingLast(groups, last);
    var a := Arrivals(groups, order);
    NoSerialFailure(groups);
    SerialsHold(groups, |groups|);
    forall key ensures key !in FailuresByKey(a) {
      FailureFrom(a, key);
    }
    NoFailureFound(Keys(groups), FailuresByKey(a));
    assert order[|order| - 1] == last by {
      LastOfOrder(groups, last);
    }
    assert a[|a| - 1] == ArrivalOf(groups, last);
  }

  /** Two parallel groups sharing a key make the result depend on which finishes last. */
  lemma CollisionMakesOrderMatter(groups: seq<Group>, p: nat, q: nat, f: nat -> Result<Json, JobGroup.Failure>)
    requires p < q < |groups| && Parallel(groups[p]) && Parallel(groups[q])
    requires Keys(groups)[p] == Keys(groups)[q] && f(p) != f(q)
    requires forall i | 0 <= i < |groups| :: f(i).Ok?
    requires forall i | 0 <= i < |groups| :: groups[i].seedable
    ensures var changed := WithOutcomes(groups, f);
            FinishingOrder(changed, FinishingLast(changed, p)) && FinishingOrder(changed, FinishingLast(changed, q))
    ensures var changed := WithOutcomes(groups, f);
            Combine(changed, Arrivals(changed, FinishingLast(changed, p)))
            != Combine(changed, Arrivals(changed, FinishingLast(changed, q)))
  {
    var changed := WithOutcomes(groups, f);
    KeysIgnoreOutcomes(groups, f);
    hide Keys, Combine, FinishingLast, FinishingOrder, Parallel;
    LastFinisherOwnsKey(changed, p);
    LastFinisherOwnsKey(changed, q);
  }

  /** Whatever the groups yield, every finishing order gives the same result. */
  ghost predicate ScheduleProof(groups: seq<Group>) {
    forall f: nat -> Result<Json, JobGroup.Failure>, order: seq<nat>, order': seq<nat> ::
      FinishingOrder(WithOutcomes(groups, f), order) && FinishingOrder(WithOutcomes(groups, f), order') ==>
        Combine(WithOutcomes(groups, f), Arrivals(WithOutcomes(groups, f), order))
        == Combine(WithOutcomes(groups, f), Arrivals(WithOutcomes(groups, f), order'))
  }

  lemma UnseedableDecides(groups: seq<Group>, arrivals: seq<Arrival>, arrivals': seq<Arrival>)
    requires exists i :: 0 <= i < |groups| && !groups[i].seedable
    ensures Combine(groups, arrivals) == Combine(groups, arrivals')
  {
    hide Keys, Parallel, SerialFailure, Serials, PayloadsByKey, FailuresByKey, FirstFailure;
    NoSerialFailure(groups);
  }

  /** The condition is exact: whatever the groups yield, failures included, it takes distinct
      parallel keys, unless a group that cannot be seeded fails the execution anyway. */
  lemma ScheduleProofIff(groups: seq<Group>)
    ensures ScheduleProof(groups) <==> DistinctParallelKeys(groups) || exists i :: 0 <= i < |groups| && !groups[i].seedable
  {
    hide Keys, Combine, FinishingLast, FinishingOrder, Parallel;
    if i :| 0 <= i < |groups| && !groups[i].seedable {
      forall f: nat -> Result<Json, JobGroup.Failure>, order: seq<nat>, order': seq<nat>
        | FinishingOrder(WithOutcomes(groups, f), order) && FinishingOrder(WithOutcomes(groups, f), order')
        ensures Combine(WithOutcomes(groups, f), Arrivals(WithOutcomes(groups, f), order))
             == Combine(WithOutcomes(groups, f), Arrivals(WithOutcomes(groups, f), order'))
      {
        var changed := WithOutcomes(groups, f);
        assert !changed[i].seedable;
        UnseedableDecides(changed, Arrivals(changed, order), Arrivals(changed, order'));
      }
    } else if DistinctParallelKeys(groups) {
      forall f: nat -> Result<Json, JobGroup.Failure>, order: seq<nat>, order': seq<nat>
        | FinishingOrder(WithOutcomes(groups, f), order) && FinishingOrder(WithOutcomes(groups, f), order')
        ensures Combine(WithOutcomes(groups, f), Arrivals(WithOutcomes(groups, f), order))
             == Combine(WithOutcomes(groups, f), Arrivals(WithOutcomes(groups, f), order'))
      {
        KeysIgnoreOutcomes(groups, f);
        FinishingOrderIrrelevant(WithOutcomes(groups, f), order, order');
      }
    } else {
      var p, q :| 0 <= p < q < |groups| && Parallel(groups[p]) && Parallel(groups[q]) && Keys(groups)[p] == Keys(groups)[q];
      var f: nat -> Result<Json, JobGroup.Failure> := i => Ok(Bool(i == p));
      CollisionMakesOrderMatter(groups, p, q, f);
    }
  }
}
