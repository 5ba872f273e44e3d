/**
 * The browse step of the asset dialog: query changes it hands to its
 * parent, the searching/filtering flags, the bulk-selection checkbox and
 * the rows of the list view.
 */
module BrowseStep {
  import opened JsValues
  import opened SelectionState

  /** `{...queryObject, _q: value || undefined, page: 1}` */
  function SearchChanged(q: JsObject, value: JsValue): (r: JsObject)
    ensures Get(r, "_q") == (if Truthy(value) then value else Undefined)
    ensures Get(r, "page") == Num(1)
    ensures SameExcept(q, r, {"_q", "page"})
  {
    q["_q" := Or(value, Undefined)]["page" := Num(1)]
  }

  /** Sort and filter changes keep the page. */
  function SortChanged(q: JsObject, value: JsValue): (r: JsObject)
    ensures Get(r, "sort") == value && SameExcept(q, r, {"sort"})
  {
    q["sort" := value]
  }

  function FiltersChanged(q: JsObject, filters: JsValue): (r: JsObject)
    ensures Get(r, "filters") == filters && SameExcept(q, r, {"filters"})
  {
    q["filters" := filters]
  }

  function PageChanged(q: JsObject, page: JsValue): (r: JsObject)
    ensures Get(r, "page") == page && SameExcept(q, r, {"page"})
  {
    q["page" := page]
  }

  function PageSizeChanged(q: JsObject, pageSize: JsValue): (r: JsObject)
    ensures Get(r, "pageSize") == pageSize && Get(r, "page") == Num(1)
    ensures SameExcept(q, r, {"pageSize", "page"})
  {
    q["pageSize" := pageSize]["page" := Num(1)]
  }

  /** What a click on a folder hands out: the query with the search cleared,
      then the folder id and path for `onChangeFolder`. Nothing happens
      without an `onChangeFolder` callback. */
  datatype FolderClick = FolderClick(query: JsObject, folderId: JsValue, folderPath: JsValue)

  function ClickFolder(q: JsObject, hasOnChangeFolder: bool, folderId: JsValue, folderPath: JsValue): (r: Option<FolderClick>)
    ensures r.Some? <==> hasOnChangeFolder
    ensures r.Some? ==> Get(r.value.query, "_q") == Undefined && SameExcept(q, r.value.query, {"_q"})
    ensures r.Some? ==> r.value.folderId == folderId && r.value.folderPath == folderPath
  {
    if hasOnChangeFolder then Some(FolderClick(q["_q" := Undefined], folderId, folderPath)) else None
  }

  /** `!!queryObject?._q` */
  predicate IsSearching(q: JsObject)
  {
    Truthy(Get(q, "_q"))
  }

  /** `x > 0` for the values `length` can hold here; other operands,
      whose comparison goes through numeric conversion, count as not
      positive. */
  predicate Positive(v: JsValue)
  {
    match v
    case Num(n) => n > 0
    case Bool(b) => b
    case _ => false
  }

  /** `!!queryObject?.filters?.$and?.length && queryObject.filters.$and.length > 0` */
  predicate IsFiltering(q: JsObject)
  {
    var len := OptProp(OptProp(Get(q, "filters"), "$and"), "length");
    Truthy(len) && Positive(len)
  }

  /** For an array of clauses, filtering means at least one clause. */
  lemma FilteringIffClauses(q: JsObject, clauses: seq<JsValue>)
    requires OptProp(Get(q, "filters"), "$and") == Arr(clauses)
    ensures IsFiltering(q) <==> |clauses| > 0
  {
  }

  /** A folder click always ends the search. */
  lemma FolderClickStopsSearch(q: JsObject, folderId: JsValue, folderPath: JsValue)
    ensures !IsSearching(ClickFolder(q, true, folderId, folderPath).value.query)
  {
  }

  /** The selection is matched on `id` alone (`findIndex` by `id ===`). */
  const ID_KEYS: seq<string> := ["id"]

  /** `areAllAssetSelected` */
  predicate AreAllSelected(assets: seq<JsObject>, selected: seq<JsObject>)
  {
    |assets| > 0 && |selected| > 0 && forall i :: 0 <= i < |assets| ==> FindMatch(ID_KEYS, selected, assets[i]) != -1
  }

  /** `hasSomeAssetSelected` */
  predicate HasSomeSelected(assets: seq<JsObject>, selected: seq<JsObject>)
  {
    exists i :: 0 <= i < |assets| && FindMatch(ID_KEYS, selected, assets[i]) != -1
  }

  datatype CheckState = Checked | Unchecked | Indeterminate

  /** The bulk checkbox: `!all && some ? 'indeterminate' : all`. */
  function BulkCheckbox(assets: seq<JsObject>, selected: seq<JsObject>): (c: CheckState)
    ensures c == Indeterminate <==> HasSomeSelected(assets, selected) && !AreAllSelected(assets, selected)
    ensures c == Checked <==> AreAllSelected(assets, selected)
  {
    if !AreAllSelected(assets, selected) && HasSomeSelected(assets, selected) then Indeterminate
    else if AreAllSelected(assets, selected) then Checked
    else Unchecked
  }

  /** All page assets selected means the page has a selected asset, so the
      box is unchecked exactly when no page asset is selected. */
  lemma UncheckedIffNoneSelected(assets: seq<JsObject>, selected: seq<JsObject>)
    ensures BulkCheckbox(assets, selected) == Unchecked <==>
      forall i :: 0 <= i < |assets| ==> !Matches(ID_KEYS, assets[i], selected)
  {
    if AreAllSelected(assets, selected) {
      assert FindMatch(ID_KEYS, selected, assets[0]) != -1;
    }
  }

  /** The folder rows: not selectable, missing counts read as `{count: 0}`. */
  function FolderRow(folder: JsObject): (r: JsObject)
    ensures Get(r, "type") == Str("folder") && Get(r, "isSelectable") == Bool(false)
    ensures Get(r, "folderURL") == Get(folder, "path")
    ensures Truthy(Get(folder, "children")) ==> Get(r, "children") == Get(folder, "children")
    ensures !Truthy(Get(folder, "children")) ==> Get(r, "children") == Obj(map["count" := Num(0)])
    ensures Truthy(Get(folder, "files")) ==> Get(r, "files") == Get(folder, "files")
    ensures !Truthy(Get(folder, "files")) ==> Get(r, "files") == Obj(map["count" := Num(0)])
    ensures SameExcept(folder, r, {"type", "isSelectable", "folderURL", "children", "files"})
  {
    folder["type" := Str("folder")]["isSelectable" := Bool(false)]["folderURL" := Get(folder, "path")]
          ["children" := Or(Get(folder, "children"), Obj(map["count" := Num(0)]))]
          ["files" := Or(Get(folder, "files"), Obj(map["count" := Num(0)]))]
  }

  function AssetRow(asset: JsObject): (r: JsObject)
    ensures Get(r, "type") == Str("asset") && Get(r, "isSelectable") == Bool(true)
    ensures Get(r, "folderURL") == Get(asset, "folderPath")
    ensures SameExcept(asset, r, {"type", "isSelectable", "folderURL"})
  {
    asset["type" := Str("asset")]["isSelectable" := Bool(true)]["folderURL" := Get(asset, "folderPath")]
  }

  /** All folders first, then all assets; only the assets are selectable. */
  function Rows(folders: seq<JsObject>, assets: seq<JsObject>): (r: seq<JsObject>)
    ensures |r| == |folders| + |assets|
    ensures forall i :: 0 <= i < |folders| ==> r[i] == FolderRow(folders[i])
    ensures forall i :: 0 <= i < |assets| ==> r[|folders| + i] == AssetRow(assets[i])
    ensures forall i :: 0 <= i < |r| ==> (Get(r[i], "isSelectable") == Bool(true) <==> i >= |folders|)
  {
    seq(|folders|, i requires 0 <= i < |folders| => FolderRow(folders[i])) +
    seq(|assets|, i requires 0 <= i < |assets| => AssetRow(assets[i]))
  }

  /** The "add new assets" action of the empty state. */
  predicate ShowsAddAction(assets: seq<JsObject>, folders: seq<JsObject>, canCreate: bool, q: JsObject, hasOnAddAsset: bool)
  {
    |assets| == 0 && |folders| == 0 && canCreate && !IsFiltering(q) && !IsSearching(q) && hasOnAddAsset
  }

  /** A search, or at least one filter clause, hides the action. */
  lemma SearchHidesAddAction(assets: seq<JsObject>, folders: seq<JsObject>, canCreate: bool, q: JsObject,
                             hasOnAddAsset: bool, value: JsValue)
    requires Truthy(value)
    ensures !ShowsAddAction(assets, folders, canCreate, SearchChanged(q, value), hasOnAddAsset)
  {
  }
}
