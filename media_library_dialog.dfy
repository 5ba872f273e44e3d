/**
 * The stand-alone media dialog: a step machine over the asset, upload and
 * folder dialogs that reports the chosen assets to its owner.
 */
module MediaLibraryDialog {
  import opened JsValues
  import opened MediaLibraryInput

  /** The callbacks the dialog invokes on its owner, in order. */
  datatype Event = OnClose | OnSelectAssets(assets: seq<JsValue>)

  /** `if (!open && !step) return null` */
  function Rendered(open: bool, step: Step): (r: bool)
    ensures r <==> open || step != Closed
  {
    open || step != Closed
  }

  /** The dialog's state as a value: step, folder, uploaded list and the
      callbacks invoked so far. */
  datatype State = State(step: Step, folderId: JsValue, uploaded: seq<JsValue>, events: seq<Event>)

  datatype Action = Open | Close | Validate(assets: seq<JsValue>) | UploadSuccess(assets: seq<JsValue>)
    | AddAsset | AddFolder | BackToSelect | ChangeFolder(folder: JsValue)

  function Apply(s: State, a: Action): (r: State)
    ensures a.Close? || a.Validate? || a.UploadSuccess? ==> r.step == Closed && r.folderId == Null
    ensures a.Close? ==> r.uploaded == [] && r.events == s.events + [OnClose]
    ensures a.Validate? ==> r.uploaded == [] && r.events == s.events + [OnSelectAssets(a.assets), OnClose]
    ensures a.UploadSuccess? ==>
      r.uploaded == [] && r.events == s.events + [OnSelectAssets(s.uploaded + a.assets), OnClose]
    ensures a.Open? ==> r.step == AssetSelect && r.uploaded == [] && r.folderId == s.folderId && r.events == s.events
    ensures a.AddAsset? ==> r.step == AssetUpload && r.(step := s.step) == s
    ensures a.AddFolder? ==> r.step == FolderCreate && r.(step := s.step) == s
    ensures a.BackToSelect? ==> r.step == AssetSelect && r.(step := s.step) == s
    ensures a.ChangeFolder? ==> r.folderId == a.folder && r.(folderId := s.folderId) == s
    ensures s.uploaded == [] ==> r.uploaded == []
    ensures |r.events| >= |s.events| && r.events[..|s.events|] == s.events
  {
    match a
    case Open => s.(step := AssetSelect, uploaded := [])
    case Close => State(Closed, Null, [], s.events + [OnClose])
    case Validate(assets) => State(Closed, Null, [], s.events + [OnSelectAssets(assets), OnClose])
    case UploadSuccess(assets) => State(Closed, Null, [], s.events + [OnSelectAssets(s.uploaded + assets), OnClose])
    case AddAsset => s.(step := AssetUpload)
    case AddFolder => s.(step := FolderCreate)
    case BackToSelect => s.(step := AssetSelect)
    case ChangeFolder(folder) => s.(folderId := folder)
  }

  /** The upload and folder dialogs both return to the asset step when
      closed, leaving everything else as it was. */
  lemma SubDialogReturns(s: State)
    requires s.step == AssetSelect
    ensures Apply(Apply(s, AddAsset), BackToSelect) == s
    ensures Apply(Apply(s, AddFolder), BackToSelect) == s
  {
  }

  class Dialog {
    var step: Step
    var folderId: JsValue
    var uploadedAssets: seq<JsValue>
    var events: seq<Event>
    const initiallySelected: seq<JsValue>
    const multiple: bool

    function Snapshot(): State
      reads this
    {
      State(step, folderId, uploadedAssets, events)
    }

    /** Every handler that records uploads also closes the dialog, so by the
        time it renders again the uploaded list has been cleared. */
    predicate Valid()
      reads this
    {
      uploadedAssets == []
    }

    constructor (initiallySelected: seq<JsValue>, multiple: bool)
      ensures Valid() && Snapshot() == State(AssetSelect, Null, [], [])
      ensures this.initiallySelected == initiallySelected && this.multiple == multiple
    {
      step := AssetSelect;
      folderId := Null;
      uploadedAssets := [];
      events := [];
      this.initiallySelected := initiallySelected;
      this.multiple := multiple;
    }

    /** The selection handed to the asset dialog. */
    function InitialSelection(): (r: seq<JsValue>)
      reads this
      ensures Valid() ==> r == initiallySelected
    {
      initiallySelected + uploadedAssets
    }

    /** The effect that runs when `open` turns true. */
    method Open()
      requires Valid()
      modifies this
      ensures Valid() && Snapshot() == Apply(old(Snapshot()), Action.Open)
    {
      step := AssetSelect;
      uploadedAssets := [];
    }

    method HandleClose()
      modifies this
      ensures Valid() && Snapshot() == Apply(old(Snapshot()), Close)
    {
      step := Closed;
      folderId := Null;
      uploadedAssets := [];
      events := events + [OnClose];
    }

    /** The asset dialog's `onValidate`: report, then close. */
    method HandleSelectAssets(assets: seq<JsValue>)
      modifies this
      ensures Valid() && Snapshot() == Apply(old(Snapshot()), Validate(assets))
    {
      events := events + [OnSelectAssets(assets)];
      HandleClose();
    }

    /** The upload dialog's `addUploadedFiles`: everything uploaded so far is
        selected and the dialog closes. */
    method HandleUploadSuccess(assets: seq<JsValue>)
      requires Valid()
      modifies this
      ensures Valid() && Snapshot() == Apply(old(Snapshot()), UploadSuccess(assets))
    {
      var allAssets := uploadedAssets + assets;
      uploadedAssets := allAssets;
      HandleSelectAssets(allAssets);
    }

    method AddAsset()
      requires Valid()
      modifies this
      ensures Valid() && Snapshot() == Apply(old(Snapshot()), Action.AddAsset)
    {
      step := AssetUpload;
    }

    method AddFolder()
      requires Valid()
      modifies this
      ensures Valid() && Snapshot() == Apply(old(Snapshot()), Action.AddFolder)
    {
      step := FolderCreate;
    }

    /** Closing the upload or the folder dialog. */
    method BackToSelect()
      requires Valid()
      modifies this
      ensures Valid() && Snapshot() == Apply(old(Snapshot()), Action.BackToSelect)
    {
      step := AssetSelect;
    }

    /** `onChangeFolder={setFolderId}` */
    method ChangeFolder(folder: JsValue)
      requires Valid()
      modifies this
      ensures Valid() && Snapshot() == Apply(old(Snapshot()), Action.ChangeFolder(folder))
    {
      folderId := folder;
    }
  }

  function Run(s: State, actions: seq<Action>): State
    decreases |actions|
  {
    if actions == [] then s else Run(Apply(s, actions[0]), actions[1..])
  }

  /** After any run from an empty upload list, an upload reports exactly
      the files of that upload: nothing from earlier uploads reaches the
      owner twice, and every report is followed by `onClose`. */
  lemma {:induction false} UploadReportsOnlyNewFiles(s: State, actions: seq<Action>, assets: seq<JsValue>)
    requires s.uploaded == []
    ensures var t := Run(s, actions);
      Apply(t, UploadSuccess(assets)).events == t.events + [OnSelectAssets(assets), OnClose]
    decreases |actions|
  {
    if actions != [] {
      UploadReportsOnlyNewFiles(Apply(s, actions[0]), actions[1..], assets);
    } else {
      assert s.uploaded + assets == assets;
    }
  }
}
