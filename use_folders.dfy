/**
 * The folder listing hook: the parameters of the `getFolders` request built
 * from the dialog's query object.
 */
module UseFolders {
  import opened JsValues
  import UseAssets

  /** Folders are requested 100 at a time in both branches. */
  const FOLDER_PAGE_SIZE := 100

  /** `const { folder, _q, ...rest } = query` */
  function ParamsExceptFolderAndQ(query: JsObject): (rest: JsObject)
    ensures "folder" !in rest && "_q" !in rest
    ensures SameExcept(query, rest, {"folder", "_q"})
  {
    query - {"folder", "_q"}
  }

  /** `{ parent: { id: folder ?? { $null: true } } }` */
  function ParentClause(folder: JsValue): JsValue
  {
    Obj(map["parent" := Obj(map["id" := Coalesce(folder, Obj(map["$null" := Bool(true)]))])])
  }

  function FolderParams(query: JsObject): (r: Result<JsObject>)
    ensures r.Ok? ==> "folder" !in r.value && Get(r.value, "pageSize") == Num(FOLDER_PAGE_SIZE)
    ensures Truthy(Get(query, "_q")) ==>
      r == Ok(ParamsExceptFolderAndQ(query)["pageSize" := Num(FOLDER_PAGE_SIZE)]["_q" := Get(query, "_q")])
    ensures !Truthy(Get(query, "_q")) ==>
      (r.Ok? <==> UseAssets.ExistingClauses(ParamsExceptFolderAndQ(query)).Ok?)
    ensures !Truthy(Get(query, "_q")) && r.Ok? ==>
      "_q" !in r.value &&
      SameExcept(query, r.value, {"folder", "_q", "pageSize", "filters"}) &&
      Get(r.value, "filters") ==
        Obj(map["$and" := Arr(UseAssets.ExistingClauses(ParamsExceptFolderAndQ(query)).value + [ParentClause(Get(query, "folder"))])])
  {
    var rest := ParamsExceptFolderAndQ(query);
    var q := Get(query, "_q");
    if Truthy(q) then
      Ok(rest["pageSize" := Num(FOLDER_PAGE_SIZE)]["_q" := q])
    else
      match UseAssets.ExistingClauses(rest)
      case Err(e) => Err(e)
      case Ok(clauses) =>
        Ok(rest["pageSize" := Num(FOLDER_PAGE_SIZE)]
               ["filters" := Obj(map["$and" := Arr(clauses + [ParentClause(Get(query, "folder"))])])])
  }

  /** The parent a parameter object restricts to: the `parent.id` of its
      last `$and` clause. */
  function FilteredParent(params: JsObject): Option<JsValue>
  {
    var clauses := OptProp(Get(params, "filters"), "$and");
    if clauses.Arr? && |clauses.items| > 0 then
      var p := OptProp(clauses.items[|clauses.items| - 1], "parent");
      if p.Obj? && "id" in p.fields then Some(p.fields["id"]) else None
    else None
  }

  /** Without a search the listing is restricted to the children of the
      current folder; no folder means the root, matched by `$null: true`. */
  lemma {:induction false} ListingFiltersOnParent(query: JsObject)
    requires !Truthy(Get(query, "_q")) && FolderParams(query).Ok?
    ensures !Nullish(Get(query, "folder")) ==> FilteredParent(FolderParams(query).value) == Some(Get(query, "folder"))
    ensures Nullish(Get(query, "folder")) ==>
      FilteredParent(FolderParams(query).value) == Some(Obj(map["$null" := Bool(true)]))
    ensures OptProp(Get(FolderParams(query).value, "filters"), "$and").items[..|UseAssets.ExistingClauses(ParamsExceptFolderAndQ(query)).value|]
      == UseAssets.ExistingClauses(ParamsExceptFolderAndQ(query)).value
  {
    var clauses := UseAssets.ExistingClauses(ParamsExceptFolderAndQ(query)).value;
    var all := clauses + [ParentClause(Get(query, "folder"))];
    assert all[|all| - 1] == ParentClause(Get(query, "folder"));
    assert all[..|clauses|] == clauses;
  }

  /** A search lists folders from everywhere: the current folder plays no part. */
  lemma SearchIgnoresFolder(query: JsObject, folder: JsValue)
    requires Truthy(Get(query, "_q"))
    ensures FolderParams(query) == FolderParams(query["folder" := folder])
    ensures FilteredParent(FolderParams(query).value) == FilteredParent(ParamsExceptFolderAndQ(query))
  {
    assert ParamsExceptFolderAndQ(query) == ParamsExceptFolderAndQ(query["folder" := folder]);
    var rest := ParamsExceptFolderAndQ(query);
    assert Get(FolderParams(query).value, "filters") == Get(rest, "filters");
  }
}
