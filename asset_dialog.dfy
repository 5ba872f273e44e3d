/**
 * The asset dialog: its query object, tab and asset under edit, and the
 * handlers that drive the selection store (select, select-all, reorder,
 * folder change, validate, and reconciling the selection after an edit).
 */
module AssetDialog {
  import opened JsValues
  import opened Seqs
  import opened SelectionState
  import opened AllowedFiles
  import opened MoveElement
  import ContainsAssetFilter

  /** The selection is keyed on `id`. */
  const ID_KEYS: seq<string> := ["id"]

  /** lines 60-66: `folderPath` is `'/'` exactly when no folder is given. */
  function InitialQuery(folderId: JsValue): (q: JsObject)
    ensures Get(q, "page") == Num(1) && Get(q, "pageSize") == Num(20) && Get(q, "sort") == Str("name:asc")
    ensures Get(q, "folder") == folderId
    ensures Get(q, "folderPath") == Str("/") <==> !Truthy(folderId)
    ensures Truthy(folderId) ==> Get(q, "folderPath") == Undefined
  {
    map["page" := Num(1), "pageSize" := Num(20), "sort" := Str("name:asc"), "folder" := folderId,
        "folderPath" := if Truthy(folderId) then Undefined else Str("/")]
  }

  datatype Tab = Browse | Selected

  function InitialTab(initiallySelected: seq<JsObject>): (t: Tab)
    ensures t == Selected <==> |initiallySelected| > 0
  {
    if |initiallySelected| > 0 then Selected else Browse
  }

  /** The allowed page assets already in the selection (lines 114-116). */
  function AlreadySelected(allowed: seq<JsObject>, selections: seq<JsObject>): (r: seq<JsObject>)
    ensures forall i :: 0 <= i < |r| ==> r[i] in allowed && Matches(ID_KEYS, r[i], selections)
    ensures forall i :: 0 <= i < |allowed| && Matches(ID_KEYS, allowed[i], selections) ==> allowed[i] in r
    ensures Subsequence(r, allowed)
    ensures forall i :: 0 <= i < |allowed| ==>
      multiset(r)[allowed[i]] == if Matches(ID_KEYS, allowed[i], selections) then multiset(allowed)[allowed[i]] else 0
  {
    FilterIsSubsequence(allowed, a => FindMatch(ID_KEYS, selections, a) != -1);
    FilterCount(allowed, a => FindMatch(ID_KEYS, selections, a) != -1);
    Filter(allowed, a => FindMatch(ID_KEYS, selections, a) != -1)
  }

  /** The selection after select-all on a page whose allowed assets are
      `allowed`: if any of them is selected, those are deselected; else all
      of them are appended. */
  function SelectAllNext(prev: seq<JsObject>, allowed: seq<JsObject>): seq<JsObject>
  {
    var already := AlreadySelected(allowed, prev);
    if |already| > 0 then Unmatched(ID_KEYS, prev, already) else MultipleSelected(ID_KEYS, prev, allowed)
  }

  /** Partly or fully selected page: every selected asset of the page
      leaves the selection, and the selections from other pages stay, each
      copy in order. */
  lemma SelectAllDeselectsPage(prev: seq<JsObject>, allowed: seq<JsObject>)
    requires |AlreadySelected(allowed, prev)| > 0
    ensures Subsequence(SelectAllNext(prev, allowed), prev)
    ensures forall i :: 0 <= i < |prev| && !Matches(ID_KEYS, prev[i], allowed) ==> prev[i] in SelectAllNext(prev, allowed)
    ensures forall i :: 0 <= i < |SelectAllNext(prev, allowed)| ==> !Matches(ID_KEYS, SelectAllNext(prev, allowed)[i], allowed)
    ensures forall i :: 0 <= i < |prev| ==>
      multiset(SelectAllNext(prev, allowed))[prev[i]] == if Matches(ID_KEYS, prev[i], allowed) then 0 else multiset(prev)[prev[i]]
  {
    var already := AlreadySelected(allowed, prev);
    var next := Unmatched(ID_KEYS, prev, already);
    assert SelectAllNext(prev, allowed) == next;
    forall y | y in prev
      ensures Matches(ID_KEYS, y, already) <==> Matches(ID_KEYS, y, allowed)
    {
      MatchesAlreadySelected(prev, allowed, y);
    }
  }

  /** On the current selection, matching the already selected page assets
      is matching the page: a page asset key-equal to a selected one is
      itself already selected. */
  lemma MatchesAlreadySelected(prev: seq<JsObject>, allowed: seq<JsObject>, y: JsObject)
    requires y in prev
    ensures Matches(ID_KEYS, y, AlreadySelected(allowed, prev)) <==> Matches(ID_KEYS, y, allowed)
  {
    if Matches(ID_KEYS, y, AlreadySelected(allowed, prev)) {
      AlreadySelectedOnPage(prev, allowed, y);
    }
    if Matches(ID_KEYS, y, allowed) {
      PageMatchSelected(prev, allowed, y);
    }
  }

  lemma AlreadySelectedOnPage(prev: seq<JsObject>, allowed: seq<JsObject>, y: JsObject)
    requires Matches(ID_KEYS, y, AlreadySelected(allowed, prev))
    ensures Matches(ID_KEYS, y, allowed)
  {
    var already := AlreadySelected(allowed, prev);
    var j :| 0 <= j < |already| && KeyEq(ID_KEYS, already[j], y);
    var k :| 0 <= k < |allowed| && allowed[k] == already[j];
    assert KeyEq(ID_KEYS, allowed[k], y);
  }

  lemma PageMatchSelected(prev: seq<JsObject>, allowed: seq<JsObject>, y: JsObject)
    requires y in prev && Matches(ID_KEYS, y, allowed)
    ensures Matches(ID_KEYS, y, AlreadySelected(allowed, prev))
  {
    var already := AlreadySelected(allowed, prev);
    var k :| 0 <= k < |allowed| && KeyEq(ID_KEYS, allowed[k], y);
    var j :| 0 <= j < |prev| && prev[j] == y;
    KeyEqIsEquivalence(ID_KEYS, allowed[k], y, y);
    assert Matches(ID_KEYS, allowed[k], prev);
    assert allowed[k] in already;
    var m :| 0 <= m < |already| && already[m] == allowed[k];
    assert KeyEq(ID_KEYS, already[m], y);
  }

  /** Nothing of the page selected: the page's allowed assets are appended
      after the current selection. */
  lemma SelectAllAppendsPage(prev: seq<JsObject>, allowed: seq<JsObject>)
    requires |AlreadySelected(allowed, prev)| == 0
    ensures SelectAllNext(prev, allowed) == prev + allowed
  {
    forall i | 0 <= i < |allowed|
      ensures !Matches(ID_KEYS, allowed[i], prev)
    {
      assert allowed[i] !in AlreadySelected(allowed, prev);
    }
    UnmatchedKeepsAll(ID_KEYS, allowed, prev);
  }

  /** lines 134-140: the search is cleared, the path defaults to `'/'` for
      the root, and the listing goes back to page 1. */
  function FolderChangedQuery(q: JsObject, folderId: JsValue, folderPath: JsValue): (r: JsObject)
    ensures Get(r, "folder") == folderId && Get(r, "page") == Num(1) && Get(r, "_q") == Undefined
    ensures Truthy(folderPath) ==> Get(r, "folderPath") == folderPath
    ensures !Truthy(folderPath) ==> Get(r, "folderPath") == (if Truthy(folderId) then Undefined else Str("/"))
    ensures SameExcept(q, r, {"folder", "folderPath", "page", "_q"})
  {
    q["folder" := folderId]["folderPath" := Or(folderPath, if Truthy(folderId) then Undefined else Str("/"))]
     ["page" := Num(1)]["_q" := Undefined]
  }

  /** `canRead && !containsAssetFilter(queryObject) && queryObject.page === 1`;
      `containsAssetFilter` may throw. */
  function FoldersEnabled(canRead: bool, q: JsObject): (r: Result<bool>)
    ensures !canRead ==> r == Ok(false)
    ensures canRead && ContainsAssetFilter.Contains(Obj(q)).Err? ==> r.Err?
    ensures r == Ok(true) <==>
      canRead && ContainsAssetFilter.Contains(Obj(q)) == Ok(false) && Get(q, "page") == Num(1)
  {
    if !canRead then Ok(false)
    else match ContainsAssetFilter.Contains(Obj(q))
      case Err(e) => Err(e)
      case Ok(c) => Ok(!c && Get(q, "page") == Num(1))
  }

  /** A text search alone does not turn the folder listing off. */
  lemma SearchKeepsFoldersEnabled(canRead: bool, q: JsObject, search: JsValue)
    ensures FoldersEnabled(canRead, q["_q" := search]) == FoldersEnabled(canRead, q)
  {
    assert OptProp(Obj(q["_q" := search]), "filters") == OptProp(Obj(q), "filters");
  }

  /** The folder passed to "add folder" / "add asset" (lines 204, 210). */
  function TargetFolder(q: JsObject): (r: JsValue)
    ensures Get(q, "folder").Num? ==> r == Get(q, "folder")
    ensures !Get(q, "folder").Num? ==> r == Null
  {
    if Get(q, "folder").Num? then Get(q, "folder") else Null
  }

  datatype ValidateOutcome = CloseOnly | ValidateWith(assets: seq<JsObject>)

  /** What `EditAssetDialog` closes with: `null` (deleted), an asset
      (updated), or `undefined`/a boolean (nothing to reconcile). */
  datatype EditResult = Deleted | Updated(asset: JsObject) | Unchanged

  /** `selectedAssets.filter(asset => asset.id !== id)` */
  function RemovedById(s: seq<JsObject>, id: JsValue): (r: seq<JsObject>)
    ensures Subsequence(r, s)
    ensures forall i :: 0 <= i < |r| ==> Get(r[i], "id") != id
    ensures forall i :: 0 <= i < |s| && Get(s[i], "id") != id ==> s[i] in r
    ensures forall i :: 0 <= i < |s| ==> multiset(r)[s[i]] == if Get(s[i], "id") == id then 0 else multiset(s)[s[i]]
  {
    FilterIsSubsequence(s, (a: JsObject) => Get(a, "id") != id);
    FilterCount(s, (a: JsObject) => Get(a, "id") != id);
    Filter(s, (a: JsObject) => Get(a, "id") != id)
  }

  /** `selectedAssets.map(asset => asset.id === edited.id ? edited : asset)` */
  function ReplacedById(s: seq<JsObject>, edited: JsObject): (r: seq<JsObject>)
    ensures |r| == |s|
    ensures forall i :: 0 <= i < |s| ==> r[i] == (if Get(s[i], "id") == Get(edited, "id") then edited else s[i])
  {
    Map(s, (a: JsObject) => if Get(a, "id") == Get(edited, "id") then edited else a)
  }

  /** An asset absent from the selection leaves it as it is after an edit. */
  lemma ReplaceAbsentIsIdentity(s: seq<JsObject>, edited: JsObject)
    requires forall i :: 0 <= i < |s| ==> Get(s[i], "id") != Get(edited, "id")
    ensures ReplacedById(s, edited) == s
  {
  }

  /** Deleting an asset that is not selected leaves the selection as it is. */
  lemma {:induction false} RemoveAbsentIsIdentity(s: seq<JsObject>, id: JsValue)
    requires forall i :: 0 <= i < |s| ==> Get(s[i], "id") != id
    ensures RemovedById(s, id) == s
  {
    FilterAll(s, (a: JsObject) => Get(a, "id") != id);
  }

  class Dialog {
    var queryObject: JsObject
    var activeTab: Tab
    var assetToEdit: Option<JsObject>
    const store: SelectionStore
    const multiple: bool
    const allowedTypes: JsValue

    /** The store is keyed on `id`. */
    predicate Valid()
    {
      store.keys == ID_KEYS
    }

    constructor (allowedTypes: JsValue, folderId: JsValue, multiple: bool, initiallySelected: seq<JsObject>)
      ensures Valid() && fresh(store)
      ensures queryObject == InitialQuery(folderId) && activeTab == InitialTab(initiallySelected)
      ensures assetToEdit == None && store.selections == initiallySelected
      ensures this.multiple == multiple && this.allowedTypes == allowedTypes
    {
      queryObject := InitialQuery(folderId);
      activeTab := InitialTab(initiallySelected);
      assetToEdit := None;
      store := new SelectionStore(ID_KEYS, initiallySelected);
      this.multiple := multiple;
      this.allowedTypes := allowedTypes;
    }

    /** Toggle in multiple mode, replace in single mode. */
    method HandleSelectAsset(asset: JsObject)
      requires Valid()
      modifies store
      ensures multiple ==> store.selections == Toggled(ID_KEYS, old(store.selections), asset)
      ensures !multiple ==> store.selections == [asset]
    {
      if multiple {
        store.SelectOne(asset);
      } else {
        store.SelectOnly(asset);
      }
    }

    /** `results` is `assetsData?.results`, `None` before data arrives. */
    method HandleSelectAllAssets(results: Option<seq<JsObject>>)
      requires Valid()
      modifies store
      ensures !multiple || results.None? ==> store.selections == old(store.selections)
      ensures multiple && results.Some? ==>
        store.selections == SelectAllNext(old(store.selections), GetAllowedFiles(allowedTypes, results.value))
    {
      if !multiple || results.None? {
        return;
      }
      var allowedAssets := GetAllowedFiles(allowedTypes, results.value);
      var alreadySelected := AlreadySelected(allowedAssets, store.selections);
      if |alreadySelected| > 0 {
        store.DeselectMultiple(alreadySelected);
      } else {
        store.SelectMultiple(allowedAssets);
      }
    }

    /** Drag-and-drop reordering of the selected step. */
    method HandleMoveItem(hoverIndex: int, destIndex: int)
      requires Valid()
      requires 0 <= destIndex < |store.selections| ==> 0 <= hoverIndex < |store.selections|
      modifies store
      ensures 0 <= destIndex < |old(store.selections)| ==>
        store.selections == Moved(old(store.selections), hoverIndex, destIndex)
      ensures !(0 <= destIndex < |old(store.selections)|) ==> store.selections == old(store.selections)
      ensures multiset(store.selections) == multiset(old(store.selections))
    {
      var offset := destIndex - hoverIndex;
      var orderedAssetsClone := store.selections;
      var nextAssets := Move(orderedAssetsClone, hoverIndex, offset);
      store.SetSelections(nextAssets);
    }

    /** Returns the folder handed to `onChangeFolder`. */
    method HandleFolderChange(folderId: JsValue, folderPath: JsValue) returns (changedTo: JsValue)
      modifies this
      ensures changedTo == folderId
      ensures queryObject == FolderChangedQuery(old(queryObject), folderId, folderPath)
      ensures activeTab == old(activeTab) && assetToEdit == old(assetToEdit)
    {
      changedTo := folderId;
      queryObject := FolderChangedQuery(queryObject, folderId, folderPath);
    }

    /** `onChangeQuery={setQueryObject}` */
    method SetQueryObject(q: JsObject)
      modifies this
      ensures queryObject == q && activeTab == old(activeTab) && assetToEdit == old(assetToEdit)
    {
      queryObject := q;
    }

    method SetActiveTab(t: Tab)
      modifies this
      ensures activeTab == t && queryObject == old(queryObject) && assetToEdit == old(assetToEdit)
    {
      activeTab := t;
    }

    /** `onEditAsset={setAssetToEdit}` */
    method EditAsset(asset: JsObject)
      modifies this
      ensures assetToEdit == Some(asset) && queryObject == old(queryObject) && activeTab == old(activeTab)
    {
      assetToEdit := Some(asset);
    }

    /** The footer's validate button (lines 249-255). */
    method OnValidate() returns (outcome: ValidateOutcome)
      ensures |store.selections| == 0 ==> outcome == CloseOnly
      ensures |store.selections| > 0 ==> outcome == ValidateWith(store.selections)
    {
      if |store.selections| == 0 {
        outcome := CloseOnly;
      } else {
        outcome := ValidateWith(store.selections);
      }
    }

    /** Closing the edit dialog (lines 263-274): only the selection is
        reconciled; the asset under edit is cleared in every case. */
    method OnEditClose(result: EditResult)
      requires Valid() && assetToEdit.Some?
      modifies this, store
      ensures assetToEdit == None && queryObject == old(queryObject) && activeTab == old(activeTab)
      ensures result.Deleted? ==>
        store.selections == RemovedById(old(store.selections), Get(old(assetToEdit).value, "id"))
      ensures result.Updated? ==> store.selections == ReplacedById(old(store.selections), result.asset)
      ensures result.Unchanged? ==> store.selections == old(store.selections)
    {
      var edited := assetToEdit.value;
      assetToEdit := None;
      match result
      case Deleted => store.SetSelections(RemovedById(store.selections, Get(edited, "id")));
      case Updated(asset) => store.SetSelections(ReplacedById(store.selections, asset));
      case Unchanged =>
    }
  }
}
