/**
 * The edit form shown for a pending (not yet uploaded) asset: submitting
 * merges the form into a new asset object, cancelling closes with nothing.
 */
module EditAssetContent {
  import opened JsValues
  import opened UploadAssetDialog

  /** The form's initial values. */
  function InitialValues(asset: JsObject): (r: JsObject)
    ensures Get(r, "name") == Get(asset, "name")
    ensures Get(r, "alternativeText") == Or(Get(asset, "alternativeText"), Str(""))
    ensures Get(r, "caption") == Or(Get(asset, "caption"), Str(""))
  {
    map["name" := Get(asset, "name"), "alternativeText" := Or(Get(asset, "alternativeText"), Str("")),
        "caption" := Or(Get(asset, "caption"), Str(""))]
  }

  /** `{...asset, name, alternativeText: alt || null, caption: caption || null}` */
  function Submitted(asset: JsObject, values: JsValue): (r: JsObject)
    ensures SameExcept(asset, r, {"name", "alternativeText", "caption"})
    ensures Get(r, "name") == OptProp(values, "name")
    ensures Get(r, "alternativeText") == Or(OptProp(values, "alternativeText"), Null)
    ensures Get(r, "caption") == Or(OptProp(values, "caption"), Null)
  {
    asset["name" := OptProp(values, "name")]
         ["alternativeText" := Or(OptProp(values, "alternativeText"), Null)]
         ["caption" := Or(OptProp(values, "caption"), Null)]
  }

  /** Submitting the untouched form gives back the asset, up to an empty
      alternative text or caption, which becomes `null`. */
  lemma UntouchedSubmit(asset: JsObject)
    requires "name" in asset && "alternativeText" in asset && "caption" in asset
    ensures Submitted(asset, Obj(InitialValues(asset))) ==
      asset["alternativeText" := Or(asset["alternativeText"], Null)]["caption" := Or(asset["caption"], Null)]
    ensures Truthy(asset["alternativeText"]) && Truthy(asset["caption"]) ==>
      Submitted(asset, Obj(InitialValues(asset))) == asset
  {
  }

  /** The `name: yup.string().required()` rule of both edit forms, which
      Formik checks before it calls `onSubmit`. A string passes when it is
      not empty; a number or a boolean is cast to a non-empty string and
      passes; `undefined`, `null`, arrays and objects fail. */
  predicate NameGiven(values: JsValue)
  {
    match OptProp(values, "name")
    case Str(s) => s != ""
    case Num(_) => true
    case Bool(_) => true
    case _ => false
  }

  /** A submit or a cancel of the form. A cancel (`values` is `None`) closes
      with nothing. A submit whose name fails validation gives `None`: the
      form stays open with a field error and `onClose` is not called.
      Otherwise the form closes with a new object (`ref` is its fresh
      identity). */
  function CloseWith(asset: Pending, values: Option<JsValue>, ref: nat): (r: Option<EditOutcome>)
    ensures values.None? ==> r == Some(NoChange)
    ensures values.Some? && !NameGiven(values.value) ==> r.None?
    ensures values.Some? && NameGiven(values.value) ==>
      r == Some(Edited(Pending(ref, Submitted(asset.fields, values.value))))
    ensures r.Some? && r.value.Edited? ==> values.Some? && NameGiven(values.value)
  {
    match values
    case None => Some(NoChange)
    case Some(v) => if NameGiven(v) then Some(Edited(Pending(ref, Submitted(asset.fields, v)))) else None
  }

  /** The untouched form can be submitted exactly when the asset's own name
      passes the rule; an asset without a name must be given one first. */
  lemma UntouchedSubmitNeedsName(asset: Pending, ref: nat)
    ensures CloseWith(asset, Some(Obj(InitialValues(asset.fields))), ref).Some? <==> NameGiven(Obj(asset.fields))
  {
  }

  /** A submitted edit that passes validation replaces the asset under edit
      in the pending list, at the same position, and nothing else. */
  lemma EditReplacesInPlace(assets: seq<Pending>, asset: Pending, values: JsValue, ref: nat, i: nat)
    requires i < |assets| && assets[i].ref == asset.ref
    ensures NameGiven(values) ==>
      var next := CloseWith(asset, Some(values), ref).value.asset;
      ReplacingIdentical(assets, Some(asset), next)[i].fields == Submitted(asset.fields, values)
  {
  }
}
