/**
 * `prefixPluginTranslations`: namespace a plugin's translation keys.
 */
module PrefixTranslations {
  import opened JsValues
  import opened Strings

  function PrefixedKey(pluginId: string, k: string): string
  {
    pluginId + "." + k
  }

  /** Distinct keys stay distinct once prefixed. */
  lemma PrefixedKeyInjective(pluginId: string, k1: string, k2: string)
    ensures PrefixedKey(pluginId, k1) == PrefixedKey(pluginId, k2) ==> k1 == k2
  {
    var n := |pluginId| + 1;
    assert PrefixedKey(pluginId, k1)[n..] == k1;
    assert PrefixedKey(pluginId, k2)[n..] == k2;
  }

  /** What the accumulator holds once the keys in `done` are written;
      `origin` records which key each entry came from. */
  ghost predicate Written(acc: map<string, string>, origin: map<string, string>,
                          trad: map<string, string>, pluginId: string, done: set<string>)
  {
    done <= trad.Keys &&
    (forall k :: k in done ==> PrefixedKey(pluginId, k) in acc && acc[PrefixedKey(pluginId, k)] == trad[k]) &&
    (forall key :: key in acc ==> key in origin && origin[key] in done && key == PrefixedKey(pluginId, origin[key])) &&
    |acc| == |done|
  }

  /** One step of the reduce: writing the next key keeps `Written`. */
  lemma WriteStep(acc: map<string, string>, origin: map<string, string>,
                  trad: map<string, string>, pluginId: string, done: set<string>, current: string)
    requires Written(acc, origin, trad, pluginId, done)
    requires current in trad && current !in done
    ensures var key := PrefixedKey(pluginId, current);
      Written(acc[key := trad[current]], origin[key := current], trad, pluginId, done + {current})
  {
    var key := PrefixedKey(pluginId, current);
    if key in origin {
      PrefixedKeyInjective(pluginId, origin[key], current);
    }
    assert key !in acc;
    forall k | k in done ensures PrefixedKey(pluginId, k) != key {
      PrefixedKeyInjective(pluginId, k, current);
    }
    assert |acc[key := trad[current]]| == |acc| + 1;
  }

  /** Once every key is written the accumulator is the whole answer. */
  lemma AllWritten(acc: map<string, string>, origin: map<string, string>,
                   trad: map<string, string>, pluginId: string)
    requires Written(acc, origin, trad, pluginId, trad.Keys)
    ensures forall k :: k in trad ==> PrefixedKey(pluginId, k) in acc && acc[PrefixedKey(pluginId, k)] == trad[k]
    ensures forall key :: key in acc ==> exists k :: k in trad && key == PrefixedKey(pluginId, k)
    ensures forall key :: key in acc ==> StartsWith(key, pluginId + ".")
    ensures |acc| == |trad|
  {
    forall key | key in acc ensures exists k :: k in trad && key == PrefixedKey(pluginId, k) {
      assert origin[key] in trad;
    }
    forall key | key in acc ensures StartsWith(key, pluginId + ".") {
      assert key[..|pluginId| + 1] == pluginId + ".";
    }
    assert |trad| == |trad.Keys|;
  }

  /** The reduce itself: every key of `trad` is written once, under its
      prefixed name. */
  method WriteAll(trad: map<string, string>, pluginId: string)
    returns (acc: map<string, string>, ghost origin: map<string, string>)
    ensures Written(acc, origin, trad, pluginId, trad.Keys)
  {
    acc := map[];
    var remaining := trad.Keys;
    ghost var done: set<string> := {};
    origin := map[];
    while remaining != {}
      invariant remaining <= trad.Keys && done == trad.Keys - remaining
      invariant Written(acc, origin, trad, pluginId, done)
      decreases |remaining|
    {
      var current :| current in remaining;
      WriteStep(acc, origin, trad, pluginId, done, current);
      var key := PrefixedKey(pluginId, current);
      acc := acc[key := trad[current]];
      origin := origin[key := current];
      remaining := remaining - {current};
      done := done + {current};
    }
  }

  /** `prefixPluginTranslations(trad, pluginId)`: a reduce over the keys of
      `trad` that writes `pluginId.k := trad[k]` into an accumulator. */
  method PrefixPluginTranslations(trad: map<string, string>, pluginId: string)
    returns (r: Result<map<string, string>>)
    ensures pluginId == "" <==> r.Err?
    ensures r.Ok? ==> forall k :: k in trad ==>
      PrefixedKey(pluginId, k) in r.value && r.value[PrefixedKey(pluginId, k)] == trad[k]
    ensures r.Ok? ==> forall key :: key in r.value ==> exists k :: k in trad && key == PrefixedKey(pluginId, k)
    ensures r.Ok? ==> |r.value| == |trad|
    ensures r.Ok? ==> forall key :: key in r.value ==> StartsWith(key, pluginId + ".")
  {
    if pluginId == "" {
      return Err(TYPE_ERROR);
    }
    var acc;
    ghost var origin;
    acc, origin := WriteAll(trad, pluginId);
    AllWritten(acc, origin, trad, pluginId);
    return Ok(acc);
  }
}
