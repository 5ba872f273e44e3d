/**
 * The asset listing hook: the request parameters built from the dialog's
 * query object, and the `select` transform applied to the response.
 */
module UseAssets {
  import opened JsValues
  import opened Seqs

  /** `const { folderPath, _q, ...rest } = query` */
  function ParamsExceptFolderPathAndQ(query: JsObject): (rest: JsObject)
    ensures "folderPath" !in rest && "_q" !in rest
    ensures SameExcept(query, rest, {"folderPath", "_q"})
  {
    query - {"folderPath", "_q"}
  }

  /** `[...(rest?.filters?.$and ?? [])]`: spreading a non-iterable throws. */
  function ExistingClauses(rest: JsObject): (r: Result<seq<JsValue>>)
    ensures Nullish(OptProp(Get(rest, "filters"), "$and")) ==> r == Ok([])
    ensures OptProp(Get(rest, "filters"), "$and").Arr? ==> r == Ok(OptProp(Get(rest, "filters"), "$and").items)
  {
    IterableItems(Coalesce(OptProp(Get(rest, "filters"), "$and"), Arr([])))
  }

  /** `{ folderPath: { $eq: folderPath ?? '/' } }` */
  function FolderPathClause(folderPath: JsValue): JsValue
  {
    Obj(map["folderPath" := Obj(map["$eq" := Coalesce(folderPath, Str("/"))])])
  }

  /** The parameters of the `getFiles` request. `encode` stands for
      `encodeURIComponent`, applied to the string form of `_q`. */
  function AssetParams(query: JsObject, encode: string -> string): (r: Result<JsObject>)
    ensures r.Ok? ==> "folderPath" !in r.value
    ensures Truthy(Get(query, "_q")) ==>
      r == Ok(ParamsExceptFolderPathAndQ(query)["_q" := Str(encode(ToString(Get(query, "_q"))))])
    ensures !Truthy(Get(query, "_q")) ==>
      (r.Ok? <==> ExistingClauses(ParamsExceptFolderPathAndQ(query)).Ok?)
    ensures !Truthy(Get(query, "_q")) && r.Ok? ==>
      "_q" !in r.value &&
      SameExcept(query, r.value, {"folderPath", "_q", "filters"}) &&
      Get(r.value, "filters") ==
        Obj(map["$and" := Arr(ExistingClauses(ParamsExceptFolderPathAndQ(query)).value + [FolderPathClause(Get(query, "folderPath"))])])
  {
    var rest := ParamsExceptFolderPathAndQ(query);
    var q := Get(query, "_q");
    if Truthy(q) then
      Ok(rest["_q" := Str(encode(ToString(q)))])
    else
      match ExistingClauses(rest)
      case Err(e) => Err(e)
      case Ok(clauses) =>
        Ok(rest["filters" := Obj(map["$and" := Arr(clauses + [FolderPathClause(Get(query, "folderPath"))])])])
  }

  /** The folder path a parameter object filters on: the `$eq` of its last
      `$and` clause, if that clause is a `folderPath` clause. */
  function FilteredPath(params: JsObject): Option<JsValue>
  {
    var clauses := OptProp(Get(params, "filters"), "$and");
    if clauses.Arr? && |clauses.items| > 0 then
      var last := clauses.items[|clauses.items| - 1];
      var c := OptProp(last, "folderPath");
      if c.Obj? && "$eq" in c.fields then Some(c.fields["$eq"]) else None
    else None
  }

  /** Without a search the listing is restricted to one folder path, the
      root when none is given, after the clauses already in the query. */
  lemma {:induction false} ListingFiltersOnFolderPath(query: JsObject, encode: string -> string)
    requires !Truthy(Get(query, "_q"))
    requires AssetParams(query, encode).Ok?
    ensures FilteredPath(AssetParams(query, encode).value) == Some(Coalesce(Get(query, "folderPath"), Str("/")))
    ensures OptProp(Get(AssetParams(query, encode).value, "filters"), "$and").Arr?
    ensures OptProp(Get(AssetParams(query, encode).value, "filters"), "$and").items[..|ExistingClauses(ParamsExceptFolderPathAndQ(query)).value|]
      == ExistingClauses(ParamsExceptFolderPathAndQ(query)).value
  {
    var clauses := ExistingClauses(ParamsExceptFolderPathAndQ(query)).value;
    var all := clauses + [FolderPathClause(Get(query, "folderPath"))];
    assert all[|all| - 1] == FolderPathClause(Get(query, "folderPath"));
    assert all[..|clauses|] == clauses;
  }

  /** A search sends no folder restriction: filters pass through as given. */
  lemma SearchIgnoresFolder(query: JsObject, encode: string -> string)
    requires Truthy(Get(query, "_q"))
    ensures Get(AssetParams(query, encode).value, "filters") == Get(query, "filters")
    ensures AssetParams(query, encode) == AssetParams(query["folderPath" := Str("/elsewhere")], encode)
  {
    assert ParamsExceptFolderPathAndQ(query) == ParamsExceptFolderPathAndQ(query["folderPath" := Str("/elsewhere")]);
  }

  /** `enabled: !skipWhen` */
  function FetchEnabled(skipWhen: bool): (enabled: bool)
    ensures enabled <==> !skipWhen
  {
    !skipWhen
  }

  /** `{...asset, mime: asset.mime ?? '', ext: asset.ext ?? ''}` */
  function Normalize(asset: JsObject): (r: JsObject)
    ensures "mime" in r && "ext" in r && !Nullish(r["mime"]) && !Nullish(r["ext"])
    ensures !Nullish(Get(asset, "mime")) ==> r["mime"] == asset["mime"]
    ensures !Nullish(Get(asset, "ext")) ==> r["ext"] == asset["ext"]
    ensures SameExcept(asset, r, {"mime", "ext"})
  {
    asset["mime" := Coalesce(Get(asset, "mime"), Str(""))]["ext" := Coalesce(Get(asset, "ext"), Str(""))]
  }

  lemma NormalizeIdempotent(asset: JsObject)
    ensures Normalize(Normalize(asset)) == Normalize(asset)
  {
  }

  predicate Named(asset: JsValue)
  {
    Truthy(OptProp(asset, "name"))
  }

  /** The `map` step on one entry: a spread copy with `mime` and `ext`
      defaulted. */
  function NormalizeEntry(a: JsValue): (r: JsValue)
    ensures r.Obj? && "mime" in r.fields && !Nullish(r.fields["mime"])
    ensures "ext" in r.fields && !Nullish(r.fields["ext"])
    ensures Named(a) ==> Named(r)
  {
    Obj(Normalize(SpreadOf(a)))
  }

  /** `results.filter(asset => asset.name).map(...)`; reading `name` of a
      nullish entry throws. */
  function NamedResults(items: seq<JsValue>): (r: Result<seq<JsValue>>)
    ensures r.Err? <==> exists i :: 0 <= i < |items| && Nullish(items[i])
    ensures r.Ok? ==> |r.value| <= |items|
    ensures r.Ok? ==> forall j :: 0 <= j < |r.value| ==>
      r.value[j].Obj? && Named(r.value[j]) && "mime" in r.value[j].fields && !Nullish(r.value[j].fields["mime"])
        && "ext" in r.value[j].fields && !Nullish(r.value[j].fields["ext"])
    ensures r.Ok? ==> forall i :: 0 <= i < |items| && Named(items[i]) ==> Obj(Normalize(items[i].fields)) in r.value
  {
    if exists i :: 0 <= i < |items| && Nullish(items[i]) then Err(TYPE_ERROR)
    else
      var named := Filter(items, Named);
      NamedSurvive(items, named);
      Ok(Map(named, NormalizeEntry))
  }

  /** Only an object has a `name` to be truthy. */
  lemma NamedIsObj(a: JsValue)
    ensures Named(a) ==> a.Obj?
  {
    assert "name" != "length";
  }

  /** Every named entry reappears, normalized, after the filter and map. */
  lemma NamedSurvive(items: seq<JsValue>, named: seq<JsValue>)
    requires named == Filter(items, Named)
    ensures forall i :: 0 <= i < |items| && Named(items[i]) ==>
      items[i].Obj? && Obj(Normalize(items[i].fields)) in Map(named, NormalizeEntry)
  {
    var r := Map(named, NormalizeEntry);
    forall i | 0 <= i < |items| && Named(items[i])
      ensures items[i].Obj? && Obj(Normalize(items[i].fields)) in r
    {
      NamedIsObj(items[i]);
      assert items[i] in named;
      var k :| 0 <= k < |named| && named[k] == items[i];
      assert r[k] == NormalizeEntry(items[i]);
    }
  }

  /** A one-pass reference for the filter and map: each named entry in turn
      contributes its normalised copy, any other entry nothing. */
  function NamedNormalized(items: seq<JsValue>): seq<JsValue>
  {
    if items == [] then []
    else (if Named(items[0]) then [NormalizeEntry(items[0])] else []) + NamedNormalized(items[1..])
  }

  /** Without a nullish entry the hook's results are exactly the one-pass
      reference: every named entry normalised, each copy, in order. */
  lemma NamedResultsOnePass(items: seq<JsValue>)
    requires forall i :: 0 <= i < |items| ==> !Nullish(items[i])
    ensures NamedResults(items) == Ok(NamedNormalized(items))
  {
    FilterMapOnePass(items);
  }

  lemma {:induction false} FilterMapOnePass(items: seq<JsValue>)
    ensures Map(Filter(items, Named), NormalizeEntry) == NamedNormalized(items)
    decreases |items|
  {
    if items != [] {
      FilterMapOnePass(items[1..]);
      var rest := Filter(items[1..], Named);
      if Named(items[0]) {
        assert Filter(items, Named) == [items[0]] + rest;
        assert Map([items[0]] + rest, NormalizeEntry) == [NormalizeEntry(items[0])] + Map(rest, NormalizeEntry);
      }
    }
  }

  /** The survivors keep their relative order. */
  lemma {:induction false} NamedResultsKeepOrder(items: seq<JsValue>)
    requires NamedResults(items).Ok?
    ensures Subsequence(NamedResults(items).value, Map(items, NormalizeEntry))
  {
    FilterIsSubsequence(items, Named);
    MapSubsequence(Filter(items, Named), items, NormalizeEntry);
  }

  lemma {:induction false} MapSubsequence<T, U>(a: seq<T>, b: seq<T>, f: T -> U)
    requires Subsequence(a, b)
    ensures Subsequence(Map(a, f), Map(b, f))
    decreases |b|
  {
    if a != [] && b != [] {
      assert Map(a, f)[1..] == Map(a[1..], f);
      assert Map(b, f)[1..] == Map(b[1..], f);
      if a[0] == b[0] {
        MapSubsequence(a[1..], b[1..], f);
      } else {
        MapSubsequence(a, b[1..], f);
        if Map(a, f)[0] == Map(b, f)[0] {
          SubsequenceDropFirst(Map(a, f), Map(b[1..], f));
        }
      }
    }
  }

  /** The `select` option: only a response whose `results` is an array is
      transformed, and only its `results` change. */
  function SelectData(data: JsValue): (r: Result<JsValue>)
    ensures !(data.Obj? && Get(data.fields, "results").Arr?) ==> r == Ok(data)
    ensures data.Obj? && Get(data.fields, "results").Arr? ==>
      (r.Ok? <==> NamedResults(Get(data.fields, "results").items).Ok?)
    ensures r.Ok? && data.Obj? && Get(data.fields, "results").Arr? ==>
      r.value.Obj? && SameExcept(data.fields, r.value.fields, {"results"}) &&
      Get(r.value.fields, "results") == Arr(NamedResults(Get(data.fields, "results").items).value)
  {
    match data
    case Obj(m) =>
      var results := Get(m, "results");
      if results.Arr? then
        match NamedResults(results.items)
        case Err(e) => Err(e)
        case Ok(items) => Ok(Obj(m["results" := Arr(items)]))
      else Ok(data)
    case _ => Ok(data)
  }

  /** Selecting an already selected response changes nothing more. */
  lemma SelectIdempotent(data: JsValue)
    requires SelectData(data).Ok?
    ensures SelectData(SelectData(data).value) == SelectData(data)
  {
    if data.Obj? && Get(data.fields, "results").Arr? {
      var items := NamedResults(Get(data.fields, "results").items).value;
      SelectFixed(data.fields["results" := Arr(items)], items);
    }
  }

  lemma SelectFixed(m: JsObject, items: seq<JsValue>)
    requires Get(m, "results") == Arr(items)
    requires forall j :: 0 <= j < |items| ==>
      items[j].Obj? && Named(items[j]) && "mime" in items[j].fields && !Nullish(items[j].fields["mime"])
        && "ext" in items[j].fields && !Nullish(items[j].fields["ext"])
    ensures SelectData(Obj(m)) == Ok(Obj(m))
  {
    NamedResultsFixed(items);
    assert m["results" := Arr(items)] == m;
  }

  /** Defaults do nothing to an entry that already has both fields. */
  lemma NormalizeFixed(m: JsObject)
    requires "mime" in m && !Nullish(m["mime"]) && "ext" in m && !Nullish(m["ext"])
    ensures Normalize(m) == m
  {
  }

  /** A list that is already named and normalized passes through unchanged. */
  lemma NamedResultsFixed(items: seq<JsValue>)
    requires forall j :: 0 <= j < |items| ==>
      items[j].Obj? && Named(items[j]) && "mime" in items[j].fields && !Nullish(items[j].fields["mime"])
        && "ext" in items[j].fields && !Nullish(items[j].fields["ext"])
    ensures NamedResults(items) == Ok(items)
  {
    assert !exists i :: 0 <= i < |items| && Nullish(items[i]);
    FilterAll(items, Named);
    forall j | 0 <= j < |items|
      ensures NormalizeEntry(items[j]) == items[j]
    {
      NormalizeFixed(items[j].fields);
    }
    assert Map(items, NormalizeEntry) == items;
  }
}
