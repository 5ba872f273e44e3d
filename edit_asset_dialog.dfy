/**
 * The edit dialog for a library asset: the folder the form starts in, the
 * folder sent on submit, the extension shown, and the dirty check on close.
 */
module EditAssetDialog {
  import opened JsValues
  import opened FlattenTree
  import FindRecursiveFolder
  import EditAsset
  import AssetDialog
  import EditAssetContent

  /** What `onClose` is called with: nothing, or a value. */
  datatype CloseArg = NoArg | WithArg(arg: JsValue)

  /** `values.parent?.value !== undefined ? (value === null ? null : {id: value}) : undefined` */
  function FolderData(parent: JsValue): (r: JsValue)
    ensures OptProp(parent, "value") == Undefined ==> r == Undefined
    ensures OptProp(parent, "value") == Null ==> r == Null
    ensures !Nullish(OptProp(parent, "value")) ==> r == Obj(map["id" := OptProp(parent, "value")])
  {
    var v := OptProp(parent, "value");
    if v != Undefined then (if v == Null then Null else Obj(map["id" := v])) else Undefined
  }

  /** What the request does with the folder chosen in the form: no choice
      keeps the folder, `null` moves to the root, a folder id moves there;
      a falsy id such as 0 is dropped. */
  lemma FolderSentOnSubmit(parent: JsValue)
    ensures OptProp(parent, "value") == Undefined ==> EditAsset.FolderValue(FolderData(parent)) == None
    ensures OptProp(parent, "value") == Null ==> EditAsset.FolderValue(FolderData(parent)) == Some(Null)
    ensures Truthy(OptProp(parent, "value")) ==>
      EditAsset.FolderValue(FolderData(parent)) == Some(OptProp(parent, "value"))
    ensures !Nullish(OptProp(parent, "value")) && !Truthy(OptProp(parent, "value")) ==>
      EditAsset.FolderValue(FolderData(parent)) == None
  {
  }

  /** The asset's folder id: a folder object's truthy id, or a bare number. */
  function ActiveFolderId(folder: JsValue): (r: JsValue)
    ensures folder.Obj? && Truthy(Get(folder.fields, "id")) ==> r == Get(folder.fields, "id")
    ensures folder.Num? ==> r == folder
    ensures !folder.Num? && !(folder.Obj? && Truthy(Get(folder.fields, "id"))) ==> r == Undefined
  {
    if (folder.Obj? || folder.Arr? || folder == Null) && Truthy(OptProp(folder, "id")) then OptProp(folder, "id")
    else if folder.Num? then folder
    else Undefined
  }

  /** The local `getFileExtension`: empty for no extension, otherwise with
      exactly one leading dot added when missing. */
  function DottedExtension(ext: Option<string>): (r: string)
    ensures ext.None? || ext == Some("") ==> r == ""
    ensures ext.Some? && ext.value != "" && ext.value[0] == '.' ==> r == ext.value
    ensures ext.Some? && ext.value != "" && ext.value[0] != '.' ==> r == "." + ext.value
    ensures r == "" || r[0] == '.'
  {
    match ext
    case None => ""
    case Some(e) => if e == "" then "" else if e[0] == '.' then e else "." + e
  }

  lemma DottedExtensionIdempotent(ext: Option<string>)
    ensures DottedExtension(Some(DottedExtension(ext))) == DottedExtension(ext)
  {
  }

  /** `assetWithFolder || asset` */
  function CurrentAsset(assetWithFolder: JsValue, asset: JsValue): (r: JsValue)
    ensures Truthy(assetWithFolder) ==> r == assetWithFolder
    ensures !Truthy(assetWithFolder) ==> r == asset
  {
    Or(assetWithFolder, asset)
  }

  /** The label of the location field: the active folder's, else the tree
      root's, else "Media Library". */
  function ParentLabel(activeFolderId: JsValue, folderStructure: Option<seq<TreeNode>>): (r: JsValue)
    ensures Truthy(r)
    ensures folderStructure.None? ==> r == Str("Media Library")
  {
    var activeFolder := if !Truthy(activeFolderId) || folderStructure.None? then None
                        else FindRecursiveFolder.FindFolder(folderStructure.value, activeFolderId);
    var activeLabel := if activeFolder.Some? then activeFolder.value.labelText else Undefined;
    var rootLabel := if folderStructure.Some? && |folderStructure.value| > 0 then folderStructure.value[0].labelText else Undefined;
    Or(Or(activeLabel, rootLabel), Str("Media Library"))
  }

  function InitialFormData(currentAsset: JsValue, folderStructure: Option<seq<TreeNode>>): (r: JsValue)
    ensures r.Obj? && r.fields.Keys == {"name", "alternativeText", "caption", "parent"}
    ensures r.fields["name"] == Or(OptProp(currentAsset, "name"), Str(""))
    ensures r.fields["parent"] == Obj(map["value" := Coalesce(ActiveFolderId(OptProp(currentAsset, "folder")), Undefined),
                                          "label" := ParentLabel(ActiveFolderId(OptProp(currentAsset, "folder")), folderStructure)])
  {
    var id := ActiveFolderId(OptProp(currentAsset, "folder"));
    Obj(map["name" := Or(OptProp(currentAsset, "name"), Str("")),
            "alternativeText" := Or(OptProp(currentAsset, "alternativeText"), Str("")),
            "caption" := Or(OptProp(currentAsset, "caption"), Str("")),
            "parent" := Obj(map["value" := Coalesce(id, Undefined), "label" := ParentLabel(id, folderStructure)])])
  }

  /** Submitting the form: nothing without an asset, otherwise the update
      request for it. */
  function SubmitParams(values: JsValue, currentAsset: JsValue, replacementFile: JsValue): (r: Option<EditAsset.EditParams>)
    ensures !Truthy(currentAsset) ==> r.None?
    ensures Truthy(currentAsset) ==> r.Some?
    ensures r.Some? ==> r.value.file == replacementFile && r.value.name == OptProp(values, "name")
    ensures r.Some? ==> r.value.folder == FolderData(OptProp(values, "parent")) && r.value.asset == SpreadOf(currentAsset)
    ensures r.Some? ==> r.value.alternativeText == OptProp(values, "alternativeText") && r.value.caption == OptProp(values, "caption")
  {
    if !Truthy(currentAsset) then None
    else Some(EditAsset.EditParams(SpreadOf(currentAsset), replacementFile, OptProp(values, "name"),
                                   OptProp(values, "alternativeText"), OptProp(values, "caption"),
                                   FolderData(OptProp(values, "parent"))))
  }

  /** Submitting the untouched form sends no folder change whenever the
      asset's folder has a truthy id. */
  lemma UntouchedFormKeepsFolder(currentAsset: JsValue, folderStructure: Option<seq<TreeNode>>, file: JsValue)
    requires Truthy(currentAsset) && Truthy(ActiveFolderId(OptProp(currentAsset, "folder")))
    ensures var values := InitialFormData(currentAsset, folderStructure);
      var p := SubmitParams(values, currentAsset, file).value;
      EditAsset.FolderValue(p.folder) == Some(ActiveFolderId(OptProp(currentAsset, "folder")))
  {
    var values := InitialFormData(currentAsset, folderStructure);
    FolderSentOnSubmit(OptProp(values, "parent"));
  }

  /** The untouched form passes the `name` rule exactly when the asset's
      name is a non-empty string, a non-zero number or `true`: a missing or
      falsy name starts the field as `""`, and a truthy object fails. */
  lemma UntouchedFormNeedsName(currentAsset: JsValue, folderStructure: Option<seq<TreeNode>>)
    ensures var n := OptProp(currentAsset, "name");
      EditAssetContent.NameGiven(InitialFormData(currentAsset, folderStructure)) <==>
        (n.Str? && n.s != "") || (n.Num? && n.n != 0) || n == Bool(true)
  {
  }

  /** How the asset dialog and the field read the close argument. */
  function ToEditResult(arg: CloseArg): (r: AssetDialog.EditResult)
    ensures r.Deleted? <==> arg == WithArg(Null)
    ensures r.Updated? <==> arg.WithArg? && arg.arg.Obj?
    ensures r.Updated? ==> r.asset == arg.arg.fields
  {
    match arg
    case NoArg => AssetDialog.Unchanged
    case WithArg(v) => if v == Null then AssetDialog.Deleted else if v.Obj? then AssetDialog.Updated(v.fields) else AssetDialog.Unchanged
  }

  class Dialog {
    var replacementFile: JsValue
    /** The arguments of every `onClose` call, in order. */
    var closeCalls: seq<CloseArg>
    /** The update requests sent, in order. */
    var requests: seq<EditAsset.EditParams>

    constructor ()
      ensures replacementFile == Undefined && closeCalls == [] && requests == []
    {
      replacementFile := Undefined;
      closeCalls := [];
      requests := [];
    }

    /** The effect run when the dialog opens or the asset changes. */
    method Reset()
      modifies this
      ensures replacementFile == Undefined && closeCalls == old(closeCalls) && requests == old(requests)
    {
      replacementFile := Undefined;
    }

    /** Formik's submit: the `name` rule is checked first, and only a form
        that passes reaches `handleSubmit`. */
    method HandleSubmit(values: JsValue, currentAsset: JsValue)
      modifies this
      ensures var p := SubmitParams(values, currentAsset, old(replacementFile));
        requests == old(requests) + (if EditAssetContent.NameGiven(values) && p.Some? then [p.value] else [])
      ensures |requests| > |old(requests)| ==> EditAssetContent.NameGiven(values) && Truthy(currentAsset)
      ensures replacementFile == old(replacementFile) && closeCalls == old(closeCalls)
    {
      var p := SubmitParams(values, currentAsset, replacementFile);
      if EditAssetContent.NameGiven(values) && p.Some? {
        requests := requests + [p.value];
      }
    }

    /** The update's `onSuccess`: the dialog closes with the updated asset. */
    method OnEditSuccess(updatedAsset: JsValue)
      modifies this
      ensures replacementFile == Undefined && closeCalls == old(closeCalls) + [WithArg(updatedAsset)]
      ensures requests == old(requests)
    {
      replacementFile := Undefined;
      closeCalls := closeCalls + [WithArg(updatedAsset)];
    }

    /** A finished crop becomes the replacement file and submits the form;
        `submit` says whether the submit button is clicked. */
    method HandleCropFinish(croppedFile: JsValue) returns (submit: bool)
      modifies this
      ensures submit <==> Truthy(croppedFile)
      ensures replacementFile == (if Truthy(croppedFile) then croppedFile else old(replacementFile))
      ensures closeCalls == old(closeCalls) && requests == old(requests)
    {
      submit := false;
      if Truthy(croppedFile) {
        replacementFile := croppedFile;
        submit := true;
      }
    }

    method HandleDelete(deletedAsset: JsValue)
      modifies this
      ensures closeCalls == old(closeCalls) + [WithArg(deletedAsset)]
      ensures replacementFile == old(replacementFile) && requests == old(requests)
    {
      closeCalls := closeCalls + [WithArg(deletedAsset)];
    }

    /** Closing with the current form values (`Undefined` from the loading
        view): a changed form needs `confirmed`; either way `onClose()` gets
        no argument. */
    method HandleClose(values: JsValue, initialFormData: JsValue, confirmed: bool)
      modifies this
      ensures values == initialFormData ==> closeCalls == old(closeCalls) + [NoArg]
      ensures values != initialFormData ==> closeCalls == old(closeCalls) + (if confirmed then [NoArg] else [])
      ensures replacementFile == old(replacementFile) && requests == old(requests)
    {
      if values != initialFormData {
        if confirmed {
          closeCalls := closeCalls + [NoArg];
        }
      } else {
        closeCalls := closeCalls + [NoArg];
      }
    }
  }
}
