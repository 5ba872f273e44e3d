/**
 * The form field: the value stored in the form, the carousel over the
 * selected assets, and the step that decides which dialog is open.
 */
module MediaLibraryInput {
  import opened JsValues
  import opened Seqs
  import opened AllowedFiles
  import AssetDialog

  datatype Step = Closed | AssetSelect | AssetUpload | FolderCreate

  /** `attribute?.options?.['options.allowedTypes'] || null` */
  function AllowedTypesOf(attribute: JsValue): (r: JsValue)
    ensures Truthy(r) || r == Null
  {
    Or(OptProp(OptProp(attribute, "options"), "options.allowedTypes"), Null)
  }

  /** `attribute?.options?.['options.multiple'] || false` */
  function MultipleOf(attribute: JsValue): (r: bool)
    ensures r <==> Truthy(OptProp(OptProp(attribute, "options"), "options.multiple"))
  {
    Truthy(OptProp(OptProp(attribute, "options"), "options.multiple"))
  }

  /** The field value as a list: an array as it is, any other truthy value
      as a one-element list, nothing otherwise. */
  function SelectedAssets(value: JsValue): (r: seq<JsValue>)
    ensures value.Arr? ==> r == value.items
    ensures !value.Arr? && Truthy(value) ==> r == [value]
    ensures !Truthy(value) ==> r == []
  {
    if value.Arr? then value.items else if Truthy(value) then [value] else []
  }

  /** What validation stores: the list when multiple, else its first element
      (`undefined` for an empty list). */
  function ValidatedValue(multiple: bool, next: seq<JsValue>): (r: JsValue)
    ensures multiple ==> r == Arr(next)
    ensures !multiple && |next| > 0 ==> r == next[0]
    ensures !multiple && |next| == 0 ==> r == Undefined
  {
    if multiple then Arr(next) else if |next| > 0 then next[0] else Undefined
  }

  /** Reading the stored value back gives the validated list in multiple
      mode, and its first asset in single mode. */
  lemma ValidationRoundTrip(multiple: bool, next: seq<JsValue>)
    ensures multiple ==> SelectedAssets(ValidatedValue(multiple, next)) == next
    ensures !multiple && |next| > 0 && Truthy(next[0]) && !next[0].Arr? ==>
      SelectedAssets(ValidatedValue(multiple, next)) == [next[0]]
    ensures !multiple && |next| == 0 ==> SelectedAssets(ValidatedValue(multiple, next)) == []
  {
  }

  /** `assets.filter(a => a.id !== id)` */
  function WithoutId(assets: seq<JsValue>, id: JsValue): (r: seq<JsValue>)
    ensures Subsequence(r, assets)
    ensures forall i :: 0 <= i < |r| ==> OptProp(r[i], "id") != id
    ensures forall i :: 0 <= i < |assets| && OptProp(assets[i], "id") != id ==> assets[i] in r
    ensures forall i :: 0 <= i < |assets| ==>
      multiset(r)[assets[i]] == if OptProp(assets[i], "id") == id then 0 else multiset(assets)[assets[i]]
  {
    FilterIsSubsequence(assets, (a: JsValue) => OptProp(a, "id") != id);
    FilterCount(assets, (a: JsValue) => OptProp(a, "id") != id);
    Filter(assets, (a: JsValue) => OptProp(a, "id") != id)
  }

  /** `assets.map(a => a.id === edited.id ? edited : a)` */
  function ReplacingId(assets: seq<JsValue>, edited: JsValue): (r: seq<JsValue>)
    ensures |r| == |assets|
    ensures forall i :: 0 <= i < |assets| ==>
      r[i] == (if OptProp(assets[i], "id") == OptProp(edited, "id") then edited else assets[i])
  {
    Map(assets, (a: JsValue) => if OptProp(a, "id") == OptProp(edited, "id") then edited else a)
  }

  /** The value after deleting `asset` from the carousel: never an empty
      array, `null` instead. */
  function DeletedValue(multiple: bool, selected: seq<JsValue>, asset: JsValue): (r: JsValue)
    ensures !multiple ==> r == Null
    ensures multiple && |WithoutId(selected, OptProp(asset, "id"))| > 0 ==> r == Arr(WithoutId(selected, OptProp(asset, "id")))
    ensures multiple && |WithoutId(selected, OptProp(asset, "id"))| == 0 ==> r == Null
    ensures r != Arr([])
  {
    if multiple then
      var next := WithoutId(selected, OptProp(asset, "id"));
      if |next| > 0 then Arr(next) else Null
    else Null
  }

  /** Whether the carousel's delete throws a `TypeError` before storing
      anything: the filter callback reads `prevAsset.id`, then `asset.id`,
      so a nullish selected element, or a nullish `asset` with a non-empty
      selection, throws in a multiple field. */
  predicate DeleteThrows(multiple: bool, selected: seq<JsValue>, asset: JsValue)
  {
    multiple && ((exists i :: 0 <= i < |selected| && Nullish(selected[i])) || (|selected| > 0 && Nullish(asset)))
  }

  /** In the carousel deletion removes exactly the assets with that id. */
  lemma DeleteRemovesId(multiple: bool, selected: seq<JsValue>, asset: JsValue)
    ensures multiple ==> SelectedAssets(DeletedValue(multiple, selected, asset)) == WithoutId(selected, OptProp(asset, "id"))
    ensures !multiple ==> SelectedAssets(DeletedValue(multiple, selected, asset)) == []
  {
  }

  /** `current < n - 1 ? current + 1 : 0` */
  function NextIndex(current: int, n: int): (r: int)
    ensures current < n - 1 ==> r == current + 1
    ensures current >= n - 1 ==> r == 0
  {
    if current < n - 1 then current + 1 else 0
  }

  /** `current > 0 ? current - 1 : n - 1` */
  function PreviousIndex(current: int, n: int): (r: int)
    ensures current > 0 ==> r == current - 1
    ensures current <= 0 ==> r == n - 1
  {
    if current > 0 then current - 1 else n - 1
  }

  /** On a non-empty carousel both moves stay on a slide, and they undo
      each other. */
  lemma CarouselWraps(current: int, n: int)
    requires 0 <= current < n
    ensures 0 <= NextIndex(current, n) < n && 0 <= PreviousIndex(current, n) < n
    ensures PreviousIndex(NextIndex(current, n), n) == current
    ensures NextIndex(PreviousIndex(current, n), n) == current
    ensures current == n - 1 ==> NextIndex(current, n) == 0
    ensures current == 0 ==> PreviousIndex(current, n) == n - 1
  {
  }

  /** `selectedAssets[selectedIndex]`: `undefined` outside the list. */
  function CurrentAsset(selected: seq<JsValue>, index: int): (r: JsValue)
    ensures 0 <= index < |selected| ==> r == selected[index]
    ensures !(0 <= index < |selected|) ==> r == Undefined
  {
    if 0 <= index < |selected| then selected[index] else Undefined
  }

  /** The carousel label: `label (i / n)` only when multiple and non-empty,
      then `|| ''`. */
  function DisplayedLabel(fieldLabel: JsValue, multiple: bool, index: int, n: int): (r: string)
    ensures !(multiple && n > 0) ==> r == (if Truthy(fieldLabel) then ToString(fieldLabel) else "")
    ensures multiple && n > 0 ==>
      r == ToString(fieldLabel) + " (" + IntToDecimal(index + 1) + " / " + IntToDecimal(n) + ")"
  {
    var displayed := if multiple && n > 0 then
      Str(ToString(fieldLabel) + " (" + IntToDecimal(index + 1) + " / " + IntToDecimal(n) + ")")
    else fieldLabel;
    if Truthy(displayed) then ToString(displayed) else ""
  }

  /** A dropped file handed to the upload dialog; `tempId` stands for
      `` `${Date.now()}-${Math.random()}` ``. */
  function PendingFromDrop(asset: JsObject, tempId: string): (r: JsObject)
    ensures Get(r, "isLocal") == Bool(true) && Get(r, "tempId") == Str(tempId)
    ensures Get(r, "id") == Get(asset, "id") && Get(r, "name") == Get(asset, "name")
    ensures Get(r, "url") == Get(asset, "url") && Get(r, "mime") == Get(asset, "mime")
    ensures Get(r, "size") == Get(asset, "size") && Get(r, "rawFile") == Get(asset, "rawFile")
    ensures Truthy(Get(asset, "ext")) ==> Get(r, "ext") == Get(asset, "ext")
    ensures !Truthy(Get(asset, "ext")) ==> Get(r, "ext") == Undefined
    ensures Truthy(Get(asset, "width")) ==> Get(r, "width") == Get(asset, "width")
    ensures !Truthy(Get(asset, "width")) ==> Get(r, "width") == Undefined
    ensures Truthy(Get(asset, "height")) ==> Get(r, "height") == Get(asset, "height")
    ensures !Truthy(Get(asset, "height")) ==> Get(r, "height") == Undefined
  {
    var copied := CopiedFields(asset, tempId);
    copied["ext" := Or(Get(asset, "ext"), Undefined)]["width" := Or(Get(asset, "width"), Undefined)]
          ["height" := Or(Get(asset, "height"), Undefined)]
  }

  /** The fields a dropped file always carries into its pending asset. */
  function CopiedFields(asset: JsObject, tempId: string): (r: JsObject)
    ensures Get(r, "isLocal") == Bool(true) && Get(r, "tempId") == Str(tempId)
    ensures Get(r, "id") == Get(asset, "id") && Get(r, "name") == Get(asset, "name")
    ensures Get(r, "url") == Get(asset, "url") && Get(r, "mime") == Get(asset, "mime")
    ensures Get(r, "size") == Get(asset, "size") && Get(r, "rawFile") == Get(asset, "rawFile")
  {
    map["id" := Get(asset, "id"), "name" := Get(asset, "name"), "url" := Get(asset, "url"),
        "mime" := Get(asset, "mime"), "size" := Get(asset, "size"), "rawFile" := Get(asset, "rawFile"),
        "isLocal" := Bool(true), "tempId" := Str(tempId)]
  }

  function PendingFromDrops(dropped: seq<JsObject>, tempIds: seq<string>): (r: seq<JsObject>)
    requires |tempIds| == |dropped|
    ensures |r| == |dropped|
    ensures forall i :: 0 <= i < |r| ==> r[i] == PendingFromDrop(dropped[i], tempIds[i])
  {
    seq(|dropped|, i requires 0 <= i < |dropped| => PendingFromDrop(dropped[i], tempIds[i]))
  }

  /** The list handed to validation after an upload. */
  function UploadedSelection(multiple: bool, selected: seq<JsValue>, uploaded: seq<JsValue>): (r: seq<JsValue>)
    ensures multiple ==> r == selected + uploaded
    ensures !multiple ==> r == uploaded[..if |uploaded| < 1 then |uploaded| else 1]
  {
    if multiple then selected + uploaded else uploaded[..if |uploaded| < 1 then |uploaded| else 1]
  }

  /** In single mode an upload replaces the value with its first file. */
  lemma SingleUploadKeepsFirst(selected: seq<JsValue>, uploaded: seq<JsValue>)
    requires |uploaded| > 0
    ensures ValidatedValue(false, UploadedSelection(false, selected, uploaded)) == uploaded[0]
  {
  }

  /** The value after the edit dialog closes on the current asset. */
  function EditedValue(multiple: bool, selected: seq<JsValue>, current: JsValue, result: AssetDialog.EditResult): (r: Option<JsValue>)
    ensures result.Unchanged? <==> r.None?
    ensures result.Deleted? ==> r == Some(if multiple then Arr(WithoutId(selected, OptProp(current, "id"))) else Null)
    ensures result.Updated? && multiple ==> r == Some(Arr(ReplacingId(selected, Obj(result.asset))))
    ensures result.Updated? && !multiple ==>
      r == Some(if |selected| > 0 then ReplacingId(selected, Obj(result.asset))[0] else Undefined)
  {
    match result
    case Deleted => Some(if multiple then Arr(WithoutId(selected, OptProp(current, "id"))) else Null)
    case Updated(asset) =>
      var next := ReplacingId(selected, Obj(asset));
      Some(if multiple then Arr(next) else if |next| > 0 then next[0] else Undefined)
    case Unchanged => None
  }

  /** An update keeps every slide in place; only matching ids change. */
  lemma EditKeepsOrder(selected: seq<JsValue>, current: JsValue, asset: JsObject)
    ensures var v := EditedValue(true, selected, current, AssetDialog.Updated(asset)).value;
      |SelectedAssets(v)| == |selected| &&
      forall i :: 0 <= i < |selected| && OptProp(selected[i], "id") != Get(asset, "id") ==> SelectedAssets(v)[i] == selected[i]
  {
  }

  class Input {
    var value: JsValue
    var step: Step
    var selectedIndex: int
    var folderId: JsValue
    var droppedAssets: Option<seq<JsObject>>
    var isEditingAsset: bool
    /** The `fileTypes` of every "not supported" notification raised. */
    var notices: seq<string>
    const allowedTypes: JsValue
    const multiple: bool
    const disabled: bool

    constructor (attribute: JsValue, value: JsValue, disabled: bool)
      ensures this.value == value && step == Closed && selectedIndex == 0 && folderId == Null
      ensures droppedAssets == None && !isEditingAsset && notices == []
      ensures allowedTypes == AllowedTypesOf(attribute) && multiple == MultipleOf(attribute) && this.disabled == disabled
    {
      this.value := value;
      step := Closed;
      selectedIndex := 0;
      folderId := Null;
      droppedAssets := None;
      isEditingAsset := false;
      notices := [];
      allowedTypes := AllowedTypesOf(attribute);
      multiple := MultipleOf(attribute);
      this.disabled := disabled;
    }

    /** `handleValidation`: the field is updated and every dialog closes. */
    method HandleValidation(next: seq<JsValue>)
      modifies this
      ensures value == ValidatedValue(multiple, next) && step == Closed
      ensures selectedIndex == old(selectedIndex) && folderId == old(folderId)
      ensures droppedAssets == old(droppedAssets) && isEditingAsset == old(isEditingAsset) && notices == old(notices)
    {
      value := ValidatedValue(multiple, next);
      step := Closed;
    }

    /** Files dropped on the empty carousel. */
    method HandleAssetDrop(assets: seq<JsObject>)
      modifies this
      ensures var allowed := GetAllowedFiles(allowedTypes, assets);
        if |allowed| > 0 then
          droppedAssets == Some(allowed) && step == AssetUpload && notices == old(notices)
        else
          droppedAssets == old(droppedAssets) && step == old(step) &&
          notices == old(notices) + [ToString(Coalesce(allowedTypes, Arr([])))]
      ensures value == old(value) && selectedIndex == old(selectedIndex) && folderId == old(folderId)
      ensures isEditingAsset == old(isEditingAsset)
    {
      var allowedAssets := GetAllowedFiles(allowedTypes, assets);
      if |allowedAssets| > 0 {
        droppedAssets := Some(allowedAssets);
        step := AssetUpload;
      } else {
        notices := notices + [ToString(Coalesce(allowedTypes, Arr([])))];
      }
    }

    /** `thrown` says whether the handler threw a `TypeError`, in which case
        nothing is stored and the slide stays. */
    method HandleDeleteAsset(asset: JsValue) returns (thrown: bool)
      modifies this
      ensures thrown <==> DeleteThrows(multiple, SelectedAssets(old(value)), asset)
      ensures thrown ==> value == old(value) && selectedIndex == old(selectedIndex)
      ensures !thrown ==> value == DeletedValue(multiple, SelectedAssets(old(value)), asset) && selectedIndex == 0
      ensures step == old(step) && folderId == old(folderId) && droppedAssets == old(droppedAssets)
      ensures isEditingAsset == old(isEditingAsset) && notices == old(notices)
    {
      thrown := DeleteThrows(multiple, SelectedAssets(value), asset);
      if !thrown {
        value := DeletedValue(multiple, SelectedAssets(value), asset);
        selectedIndex := 0;
      }
    }

    method HandleNext()
      modifies this
      ensures selectedIndex == NextIndex(old(selectedIndex), |SelectedAssets(value)|)
      ensures value == old(value) && step == old(step) && folderId == old(folderId)
      ensures droppedAssets == old(droppedAssets) && isEditingAsset == old(isEditingAsset) && notices == old(notices)
    {
      selectedIndex := NextIndex(selectedIndex, |SelectedAssets(value)|);
    }

    method HandlePrevious()
      modifies this
      ensures selectedIndex == PreviousIndex(old(selectedIndex), |SelectedAssets(value)|)
      ensures value == old(value) && step == old(step) && folderId == old(folderId)
      ensures droppedAssets == old(droppedAssets) && isEditingAsset == old(isEditingAsset) && notices == old(notices)
    {
      selectedIndex := PreviousIndex(selectedIndex, |SelectedAssets(value)|);
    }

    /** The empty state, and the carousel's add action: ignored when disabled. */
    method OpenAssetSelect()
      modifies this
      ensures step == (if disabled then old(step) else AssetSelect)
      ensures value == old(value) && selectedIndex == old(selectedIndex) && folderId == old(folderId)
      ensures droppedAssets == old(droppedAssets) && isEditingAsset == old(isEditingAsset) && notices == old(notices)
    {
      if !disabled {
        step := AssetSelect;
      }
    }

    /** The carousel's edit action: ignored when disabled. */
    method StartEditing()
      modifies this
      ensures isEditingAsset == (disabled ==> old(isEditingAsset))
      ensures value == old(value) && step == old(step) && selectedIndex == old(selectedIndex)
      ensures folderId == old(folderId) && droppedAssets == old(droppedAssets) && notices == old(notices)
    {
      if !disabled {
        isEditingAsset := true;
      }
    }

    /** The asset dialog's `onClose`: the folder is forgotten. */
    method CloseAssetDialog()
      modifies this
      ensures step == Closed && folderId == Null
      ensures value == old(value) && selectedIndex == old(selectedIndex)
      ensures droppedAssets == old(droppedAssets) && isEditingAsset == old(isEditingAsset) && notices == old(notices)
    {
      step := Closed;
      folderId := Null;
    }

    /** The asset dialog's `onAddAsset` / `onAddFolder`, and the folder
        dialog's `onClose`. */
    method GoTo(next: Step)
      requires next == AssetUpload || next == FolderCreate || next == AssetSelect
      modifies this
      ensures step == next
      ensures value == old(value) && selectedIndex == old(selectedIndex) && folderId == old(folderId)
      ensures droppedAssets == old(droppedAssets) && isEditingAsset == old(isEditingAsset) && notices == old(notices)
    {
      step := next;
    }

    /** The asset dialog's `onChangeFolder`. */
    method ChangeFolder(folder: JsValue)
      modifies this
      ensures folderId == folder
      ensures value == old(value) && step == old(step) && selectedIndex == old(selectedIndex)
      ensures droppedAssets == old(droppedAssets) && isEditingAsset == old(isEditingAsset) && notices == old(notices)
    {
      folderId := folder;
    }

    /** The upload dialog's `onClose`: back to the asset dialog, dropped
        files forgotten. */
    method CloseUploadDialog()
      modifies this
      ensures step == AssetSelect && droppedAssets == None
      ensures value == old(value) && selectedIndex == old(selectedIndex) && folderId == old(folderId)
      ensures isEditingAsset == old(isEditingAsset) && notices == old(notices)
    {
      step := AssetSelect;
      droppedAssets := None;
    }

    /** `addUploadedFiles`: the uploaded files go through validation. */
    method AddUploadedFiles(uploaded: seq<JsValue>)
      modifies this
      ensures value == ValidatedValue(multiple, UploadedSelection(multiple, SelectedAssets(old(value)), uploaded))
      ensures step == Closed
      ensures selectedIndex == old(selectedIndex) && folderId == old(folderId)
      ensures droppedAssets == old(droppedAssets) && isEditingAsset == old(isEditingAsset) && notices == old(notices)
    {
      var newAssets := UploadedSelection(multiple, SelectedAssets(value), uploaded);
      HandleValidation(newAssets);
    }

    /** The edit dialog's `onClose`, about the asset under the carousel. */
    method CloseEditDialog(result: AssetDialog.EditResult)
      modifies this
      ensures !isEditingAsset
      ensures var selected := SelectedAssets(old(value));
        var next := EditedValue(multiple, selected, CurrentAsset(selected, old(selectedIndex)), result);
        value == (if next.Some? then next.value else old(value))
      ensures step == old(step) && selectedIndex == old(selectedIndex) && folderId == old(folderId)
      ensures droppedAssets == old(droppedAssets) && notices == old(notices)
    {
      isEditingAsset := false;
      var selected := SelectedAssets(value);
      var next := EditedValue(multiple, selected, CurrentAsset(selected, selectedIndex), result);
      if next.Some? {
        value := next.value;
      }
    }
  }
}
