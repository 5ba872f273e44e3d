/**
 * The upload dialog: the list of pending assets, the asset open for
 * editing, and the add / cancel / success / remove / close handlers.
 *
 * Pending assets are plain objects compared by reference (`===`), so each
 * carries the identity `ref` of the object next to its properties.
 */
module UploadAssetDialog {
  import opened JsValues
  import opened Seqs

  datatype Pending = Pending(ref: nat, fields: JsObject)

  datatype UploadStep = AddAsset | PendingAsset

  /** What the edit form closes with: an edited asset object, or anything
      else (`undefined`, `null`, a boolean), which changes nothing. */
  datatype EditOutcome = NoChange | Edited(asset: Pending)

  function InitialStep(initialAssetsToAdd: Option<seq<Pending>>): (s: UploadStep)
    ensures s == PendingAsset <==> initialAssetsToAdd.Some?
  {
    if initialAssetsToAdd.Some? then PendingAsset else AddAsset
  }

  /** `assets.filter(asset => asset.rawFile !== file)` */
  function WithoutFile(assets: seq<Pending>, file: JsValue): (r: seq<Pending>)
    ensures Subsequence(r, assets)
    ensures forall i :: 0 <= i < |r| ==> Get(r[i].fields, "rawFile") != file
    ensures forall i :: 0 <= i < |assets| && Get(assets[i].fields, "rawFile") != file ==> assets[i] in r
    ensures forall i :: 0 <= i < |assets| ==>
      multiset(r)[assets[i]] == if Get(assets[i].fields, "rawFile") == file then 0 else multiset(assets)[assets[i]]
  {
    FilterIsSubsequence(assets, (a: Pending) => Get(a.fields, "rawFile") != file);
    FilterCount(assets, (a: Pending) => Get(a.fields, "rawFile") != file);
    Filter(assets, (a: Pending) => Get(a.fields, "rawFile") != file)
  }

  /** `assets.filter(asset => asset !== assetToRemove)` */
  function WithoutAsset(assets: seq<Pending>, target: Pending): (r: seq<Pending>)
    ensures Subsequence(r, assets)
    ensures forall i :: 0 <= i < |r| ==> r[i].ref != target.ref
    ensures forall i :: 0 <= i < |assets| && assets[i].ref != target.ref ==> assets[i] in r
    ensures forall i :: 0 <= i < |assets| ==>
      multiset(r)[assets[i]] == if assets[i].ref == target.ref then 0 else multiset(assets)[assets[i]]
  {
    FilterIsSubsequence(assets, (a: Pending) => a.ref != target.ref);
    FilterCount(assets, (a: Pending) => a.ref != target.ref);
    Filter(assets, (a: Pending) => a.ref != target.ref)
  }

  /** `assets.map(asset => asset === assetToEdit ? nextAsset : asset)`; with
      no asset under edit nothing is identical to `undefined`. */
  function ReplacingIdentical(assets: seq<Pending>, target: Option<Pending>, next: Pending): (r: seq<Pending>)
    ensures |r| == |assets|
    ensures forall i :: 0 <= i < |assets| ==>
      r[i] == (if target.Some? && assets[i].ref == target.value.ref then next else assets[i])
  {
    Map(assets, (a: Pending) => if target.Some? && a.ref == target.value.ref then next else a)
  }

  /** Removing an asset that is not in the list changes nothing. */
  lemma {:induction false} RemoveAbsent(assets: seq<Pending>, target: Pending)
    requires forall i :: 0 <= i < |assets| ==> assets[i].ref != target.ref
    ensures WithoutAsset(assets, target) == assets
  {
    FilterAll(assets, (a: Pending) => a.ref != target.ref);
  }

  /** Replacing the edited asset and then removing the replacement leaves
      the list without both. */
  lemma {:induction false} ReplaceThenRemove(assets: seq<Pending>, target: Pending, next: Pending)
    requires forall i :: 0 <= i < |assets| ==> assets[i].ref != next.ref
    ensures WithoutAsset(ReplacingIdentical(assets, Some(target), next), next) == WithoutAsset(assets, target)
    decreases |assets|
  {
    if assets != [] {
      ReplaceThenRemove(assets[1..], target, next);
      assert ReplacingIdentical(assets, Some(target), next)[1..] == ReplacingIdentical(assets[1..], Some(target), next);
    }
  }

  /** `step === PendingAsset && assets.length > 0`: closing would lose files. */
  function NeedsConfirmation(step: UploadStep, assets: seq<Pending>): (r: bool)
    ensures r <==> step == PendingAsset && |assets| > 0
  {
    step == PendingAsset && |assets| > 0
  }

  class Dialog {
    var step: UploadStep
    var assets: seq<Pending>
    var assetToEdit: Option<Pending>
    /** How many times `onClose` has been called. */
    var closeCalls: nat

    constructor (initialAssetsToAdd: Option<seq<Pending>>)
      ensures step == InitialStep(initialAssetsToAdd) && assetToEdit == None && closeCalls == 0
      ensures assets == (if initialAssetsToAdd.Some? then initialAssetsToAdd.value else [])
    {
      step := InitialStep(initialAssetsToAdd);
      assets := if initialAssetsToAdd.Some? then initialAssetsToAdd.value else [];
      assetToEdit := None;
      closeCalls := 0;
    }

    /** The type validation callback of `handleAddToPendingAssets`. */
    method AddToPendingAssets(nextAssets: seq<Pending>)
      modifies this
      ensures assets == old(assets) + nextAssets && step == PendingAsset
      ensures assetToEdit == old(assetToEdit) && closeCalls == old(closeCalls)
    {
      assets := assets + nextAssets;
      step := PendingAsset;
    }

    method MoveToAddAsset()
      modifies this
      ensures step == AddAsset
      ensures assets == old(assets) && assetToEdit == old(assetToEdit) && closeCalls == old(closeCalls)
    {
      step := AddAsset;
    }

    /** An upload is cancelled: its assets go, and an empty list returns to
        the add step. */
    method HandleCancelUpload(file: JsValue)
      modifies this
      ensures assets == WithoutFile(old(assets), file)
      ensures step == (if |assets| == 0 then AddAsset else old(step))
      ensures assetToEdit == old(assetToEdit) && closeCalls == old(closeCalls)
    {
      var nextAssets := WithoutFile(assets, file);
      assets := nextAssets;
      if |nextAssets| == 0 {
        MoveToAddAsset();
      }
    }

    /** An upload succeeded: its assets go, and an empty list closes. */
    method HandleUploadSuccess(file: JsValue)
      modifies this
      ensures assets == WithoutFile(old(assets), file)
      ensures closeCalls == old(closeCalls) + (if |assets| == 0 then 1 else 0)
      ensures step == old(step) && assetToEdit == old(assetToEdit)
    {
      var nextAssets := WithoutFile(assets, file);
      assets := nextAssets;
      if |nextAssets| == 0 {
        closeCalls := closeCalls + 1;
      }
    }

    /** `onEditAsset={setAssetToEdit}` */
    method EditAsset(asset: Pending)
      modifies this
      ensures assetToEdit == Some(asset)
      ensures step == old(step) && assets == old(assets) && closeCalls == old(closeCalls)
    {
      assetToEdit := Some(asset);
    }

    method HandleAssetEditValidation(outcome: EditOutcome)
      modifies this
      ensures outcome.Edited? ==> assets == ReplacingIdentical(old(assets), old(assetToEdit), outcome.asset)
      ensures outcome.NoChange? ==> assets == old(assets)
      ensures assetToEdit == None && step == old(step) && closeCalls == old(closeCalls)
    {
      if outcome.Edited? {
        assets := ReplacingIdentical(assets, assetToEdit, outcome.asset);
      }
      assetToEdit := None;
    }

    /** `confirmed` is the answer `window.confirm` would give. */
    method HandleClose(confirmed: bool)
      modifies this
      ensures closeCalls == old(closeCalls) + (if !NeedsConfirmation(step, assets) || confirmed then 1 else 0)
      ensures step == old(step) && assets == old(assets) && assetToEdit == old(assetToEdit)
    {
      if NeedsConfirmation(step, assets) {
        if confirmed {
          closeCalls := closeCalls + 1;
        }
      } else {
        closeCalls := closeCalls + 1;
      }
    }

    method HandleRemoveAsset(assetToRemove: Pending)
      modifies this
      ensures assets == WithoutAsset(old(assets), assetToRemove)
      ensures step == old(step) && assetToEdit == old(assetToEdit) && closeCalls == old(closeCalls)
    {
      assets := WithoutAsset(assets, assetToRemove);
    }
  }
}
