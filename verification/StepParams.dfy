/** How a step's params receive the previous step's result
    (pkg/agent/input_resolver.go, pkg/agent/setup.go). */
module StepParams {
  import opened Wrappers
  import opened Json

  type Params = map<string, Json>

  const INPUT := "input"
  const OUTPUT := "output"
  const CONFIG := "config"

  function Entry(m: Params, key: string): Json {
    if key in m then m[key] else Null
  }

  /** mergeStepInput */
  function MergeStepInput(params: Params, payload: Json): Params {
    if INPUT !in params then params[INPUT := payload]
    else if params[INPUT].Obj? && payload.Obj? then params[INPUT := Obj(params[INPUT].fields + payload.fields)]
    else params
  }

  /** mergePriorConfig; absent when either side is not a mapping. */
  function MergePriorConfig(params: Params, prior: Json): Option<Params> {
    if prior.Null? then Some(params)
    else if !prior.Obj? then None
    else if Entry(params, CONFIG).Null? then Some(params[CONFIG := prior])
    else if !params[CONFIG].Obj? then None
    else Some(params[CONFIG := Obj(params[CONFIG].fields + prior.fields)])
  }

  /** mergePriorResultKey */
  function MergePriorResultKey(params: Params, key: string, value: Json): Params {
    if key !in params then params[key := value]
    else if params[key].Obj? && value.Obj? then params[key := Obj(params[key].fields + value.fields)]
    else params
  }

  /** Folding a whole previous result into the params, key by key. */
  function MergePrior(params: Params, last: Params): Option<Params> {
    match MergePriorConfig(params, Entry(last, CONFIG))
    case None => None
    case Some(configured) =>
      Some(map k | k in configured.Keys + (last.Keys - {OUTPUT, CONFIG}) ::
             if k in last && k != OUTPUT && k != CONFIG then MergePriorResultKey(configured, k, last[k])[k]
             else configured[k])
  }

  /** Folding a previous result in loses nothing the step states itself: its keys stay, its
      scalars and lists stand, its mappings keep the keys the result does not set; what only
      the result has is added, and the result's payload is not folded in. */
  lemma MergeKeepsExplicit(params: Params, last: Params)
    requires MergePrior(params, last).Some?
    ensures var merged := MergePrior(params, last).value;
            && params.Keys <= merged.Keys <= params.Keys + (last.Keys - {OUTPUT})
            && (OUTPUT in params ==> merged[OUTPUT] == params[OUTPUT])
            && (forall k | k in params :: Stands(params[k], merged[k], k == CONFIG, Entry(last, k)))
            && (forall k | k in last && k !in params && k != OUTPUT && k != CONFIG :: k in merged && merged[k] == last[k])
  {
    hide Stands;
    forall k | k in params ensures Stands(params[k], MergePrior(params, last).value[k], k == CONFIG, Entry(last, k)) {
      StatedValueStands(params, last, k);
    }
  }

  /** What becomes of a stated value when the previous result's is folded in; only an empty
      config gives way. */
  predicate Stands(stated: Json, merged: Json, isConfig: bool, prior: Json) {
    if stated.Obj? then
      && merged.Obj? && stated.fields.Keys <= merged.fields.Keys
      && forall f | f in stated.fields && merged.fields[f] != stated.fields[f] ::
           prior.Obj? && f in prior.fields && merged.fields[f] == prior.fields[f]
    else merged == stated || (isConfig && stated.Null?)
  }

  lemma StatedValueStands(params: Params, last: Params, k: string)
    requires MergePrior(params, last).Some? && k in params
    ensures k in MergePrior(params, last).value
    ensures Stands(params[k], MergePrior(params, last).value[k], k == CONFIG, Entry(last, k))
  {
  }

  /** `current` is `base` with the previous result's `done` keys folded in. */
  predicate PartlyMerged(current: Params, base: Params, last: Params, done: set<string>)
    requires done <= last.Keys
  {
    && current.Keys == base.Keys + (done - {OUTPUT, CONFIG})
    && forall k | k in current :: current[k] == MergedEntry(base, last, done, k)
  }

  function MergedEntry(base: Params, last: Params, done: set<string>, k: string): Json
    requires done <= last.Keys
    requires k in base || k in done
  {
    if k in done && k != OUTPUT && k != CONFIG then MergePriorResultKey(base, k, last[k])[k]
    else Entry(base, k)
  }

  lemma KeyMerged(current: Params, base: Params, last: Params, done: set<string>, key: string)
    requires done <= last.Keys && PartlyMerged(current, base, last, done)
    requires key in last && key !in done && key != OUTPUT && key != CONFIG
    ensures PartlyMerged(MergePriorResultKey(current, key, last[key]), base, last, done + {key})
  {
    var next := MergePriorResultKey(current, key, last[key]);
    assert key in current <==> key in base;
    assert key in current ==> current[key] == base[key];
    forall k | k in next ensures next[k] == MergedEntry(base, last, done + {key}, k) {
      if k != key {
        assert next[k] == current[k];
      }
    }
  }

  lemma ConfigMerged(current: Params, params: Params, last: Params, done: set<string>)
    requires done <= last.Keys && PartlyMerged(current, params, last, done)
    requires CONFIG in last && CONFIG !in done
    ensures var configured, base := MergePriorConfig(current, last[CONFIG]), MergePriorConfig(params, last[CONFIG]);
            && (configured.Some? <==> base.Some?)
            && (base.Some? ==> PartlyMerged(configured.value, base.value, last, done + {CONFIG}))
  {
    assert CONFIG in current <==> CONFIG in params;
    assert CONFIG in current ==> current[CONFIG] == params[CONFIG];
    var configured, base := MergePriorConfig(current, last[CONFIG]), MergePriorConfig(params, last[CONFIG]);
    OnlyConfigChanges(current, last[CONFIG]);
    OnlyConfigChanges(params, last[CONFIG]);
    ConfigDecides(current, params, last[CONFIG]);
    hide MergePriorConfig, MergedEntry;
    if base.Some? {
      var a, b := configured.value, base.value;
      forall k | k in a ensures (k in b || k in done + {CONFIG}) && a[k] == MergedEntry(b, last, done + {CONFIG}, k) {
        if k == CONFIG {
          ConfigEntry(b, last, done + {CONFIG});
        } else {
          SameEntry(params, b, last, done, done + {CONFIG}, k);
        }
      }
    }
  }

  lemma OnlyConfigChanges(params: Params, prior: Json)
    ensures var merged := MergePriorConfig(params, prior);
            merged.Some? ==> forall k | k != CONFIG ::
              (k in merged.value <==> k in params) && (k in params ==> merged.value[k] == params[k])
  {
  }

  lemma ConfigDecides(a: Params, b: Params, prior: Json)
    requires (CONFIG in a <==> CONFIG in b) && (CONFIG in a ==> a[CONFIG] == b[CONFIG])
    ensures var x, y := MergePriorConfig(a, prior), MergePriorConfig(b, prior);
            && (x.Some? <==> y.Some?)
            && (x.Some? ==> (CONFIG in x.value <==> CONFIG in y.value)
                            && (CONFIG in x.value ==> x.value[CONFIG] == y.value[CONFIG]))
  {
  }

  lemma SameEntry(a: Params, b: Params, last: Params, done: set<string>, done': set<string>, k: string)
    requires done <= last.Keys && done' <= last.Keys && (k in done <==> k in done') && (k in a || k in done)
    requires (k in a <==> k in b) && (k in a ==> a[k] == b[k])
    ensures MergedEntry(a, last, done, k) == MergedEntry(b, last, done', k)
  {
  }

  lemma ConfigEntry(base: Params, last: Params, done: set<string>)
    requires done <= last.Keys && CONFIG in base
    ensures MergedEntry(base, last, done, CONFIG) == base[CONFIG]
  {
  }

  lemma MergeEnds(params: Params, last: Params)
    ensures PartlyMerged(params, params, last, {})
    ensures CONFIG !in last ==> MergePriorConfig(params, Entry(last, CONFIG)) == Some(params)
    ensures CONFIG in last && MergePriorConfig(params, last[CONFIG]).None? ==> MergePrior(params, last).None?
  {
  }

  lemma AllMerged(current: Params, base: Params, params: Params, last: Params)
    requires MergePriorConfig(params, Entry(last, CONFIG)) == Some(base)
    requires PartlyMerged(current, base, last, last.Keys)
    ensures MergePrior(params, last) == Some(current)
  {
    assert current == MergePrior(params, last).value;
  }

  lemma OutputIgnored(current: Params, base: Params, last: Params, done: set<string>)
    requires done <= last.Keys && PartlyMerged(current, base, last, done)
    requires OUTPUT in last
    ensures PartlyMerged(current, base, last, done + {OUTPUT})
  {
    assert done + {OUTPUT} - {OUTPUT, CONFIG} == done - {OUTPUT, CONFIG};
  }

  /** The source merges while ranging over a Go map; whatever the order, the params end up
      the same, and a bad config is an error whatever was merged before it. */
  method MergePriorInAnyOrder(params: Params, last: Params) returns (merged: Option<Params>)
    ensures merged == MergePrior(params, last)
  {
    hide PartlyMerged, MergePriorConfig, MergePriorResultKey, MergePrior;
    var current := params;
    var pending := last.Keys;
    ghost var base := params;
    MergeEnds(params, last);
    assert last.Keys - pending == {};
    while pending != {}
      invariant pending <= last.Keys
      invariant PartlyMerged(current, base, last, last.Keys - pending)
      invariant if CONFIG in pending then base == params else MergePriorConfig(params, Entry(last, CONFIG)) == Some(base)
      decreases |pending|
    {
      var key :| key in pending;
      ghost var done := last.Keys - pending;
      assert last.Keys - (pending - {key}) == done + {key};
      if key == CONFIG {
        ConfigMerged(current, params, last, done);
        var configured := MergePriorConfig(current, last[key]);
        if configured.None? {
          return None;
        }
        current := configured.value;
        base := MergePriorConfig(params, last[key]).value;
      } else if key != OUTPUT {
        KeyMerged(current, base, last, done, key);
        current := MergePriorResultKey(current, key, last[key]);
      } else {
        OutputIgnored(current, base, last, done);
      }
      pending := pending - {key};
    }
    merged := Some(current);
    assert last.Keys - pending == last.Keys;
    AllMerged(current, base, params, last);
  }
}
