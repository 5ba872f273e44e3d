/**
 * The pending-assets step of the upload dialog: the upload status, the
 * completion counter fed by each card's status changes, the per-type tally
 * taken on submit, and the card keys.
 */
module PendingAssetStep {
  import opened JsValues
  import opened UploadAssetDialog

  datatype Status = Idle | Uploading | Intermediate

  /** Uploading cards replace the editable ones once an upload started. */
  function ShowsUploadingCards(status: Status): (r: bool)
    ensures r <==> status != Idle
  {
    status == Uploading || status == Intermediate
  }

  /** `asset.tempId || asset.id?.toString() || asset.url` */
  function CardKey(asset: Pending): (r: JsValue)
    ensures Truthy(Get(asset.fields, "tempId")) ==> r == Get(asset.fields, "tempId")
    ensures !Truthy(Get(asset.fields, "tempId")) && !Nullish(Get(asset.fields, "id")) && ToString(Get(asset.fields, "id")) != "" ==>
      r == Str(ToString(Get(asset.fields, "id")))
    ensures !Truthy(Get(asset.fields, "tempId")) && Nullish(Get(asset.fields, "id")) ==> r == Get(asset.fields, "url")
  {
    var id := Get(asset.fields, "id");
    Or(Get(asset.fields, "tempId"), Or(if Nullish(id) then Undefined else Str(ToString(id)), Get(asset.fields, "url")))
  }

  /** The value of a string of decimal digits, as `parseInt(s, 10)` gives it. */
  function ParseDigits(s: string): (n: nat)
    requires forall i :: 0 <= i < |s| ==> '0' <= s[i] <= '9'
  {
    if |s| == 0 then 0 else ParseDigits(s[..|s| - 1]) * 10 + (s[|s| - 1] as int - '0' as int)
  }

  lemma DigitValue(d: nat)
    requires d < 10
    ensures DigitChar(d) as int - '0' as int == d
  {
    assert "0123456789"[d] as int == '0' as int + d by {
      if d == 0 {} else if d == 1 {} else if d == 2 {} else if d == 3 {} else if d == 4 {}
      else if d == 5 {} else if d == 6 {} else if d == 7 {} else if d == 8 {} else {}
    }
  }

  /** Parsing undoes decimal rendering. */
  lemma {:induction false} ParseRendered(n: nat)
    ensures ParseDigits(NatToDecimal(n)) == n
    decreases n
  {
    var s := NatToDecimal(n);
    if n < 10 {
      DigitValue(n);
      assert s[..0] == [];
    } else {
      ParseRendered(n / 10);
      DigitValue(n % 10);
      assert s[..|s| - 1] == NatToDecimal(n / 10);
    }
  }

  /** The tally key of an asset: `String(type)` when `type` is defined. */
  function TypeKey(asset: Pending): Option<string>
  {
    var t := Get(asset.fields, "type");
    if t == Undefined then None else Some(ToString(t))
  }

  /** How many assets of the list are tallied under `key`. */
  function Count(assets: seq<Pending>, key: string): nat
  {
    if |assets| == 0 then 0
    else Count(assets[..|assets| - 1], key) + (if TypeKey(assets[|assets| - 1]) == Some(key) then 1 else 0)
  }

  /** `acc` holds the tally of `assets`: one decimal count per type seen. */
  ghost predicate IsTally(acc: map<string, JsValue>, assets: seq<Pending>)
  {
    forall key :: (key in acc <==> Count(assets, key) > 0) &&
      (key in acc ==> acc[key] == Str(NatToDecimal(Count(assets, key))))
  }

  /** What the tally holds under one key. */
  lemma TallyAt(acc: map<string, JsValue>, assets: seq<Pending>, key: string)
    requires IsTally(acc, assets)
    ensures Count(assets, key) == 0 ==> !Truthy(Get(acc, key))
    ensures Count(assets, key) > 0 ==> Get(acc, key) == Str(NatToDecimal(Count(assets, key)))
  {
  }

  /** An asset with tally key `key` bumps exactly that counter. */
  lemma TallyBump(acc: map<string, JsValue>, assets: seq<Pending>, asset: Pending, key: string)
    requires IsTally(acc, assets) && TypeKey(asset) == Some(key)
    ensures IsTally(acc[key := Str(NatToDecimal(Count(assets, key) + 1))], assets + [asset])
  {
    var next := assets + [asset];
    assert next[..|next| - 1] == assets;
    forall k
      ensures Count(next, k) == Count(assets, k) + (if k == key then 1 else 0)
    {
    }
  }

  /** An asset without a type leaves the tally alone. */
  lemma TallySkip(acc: map<string, JsValue>, assets: seq<Pending>, asset: Pending)
    requires IsTally(acc, assets) && TypeKey(asset) == None
    ensures IsTally(acc, assets + [asset])
  {
    var next := assets + [asset];
    assert next[..|next| - 1] == assets;
    forall k
      ensures Count(next, k) == Count(assets, k)
    {
    }
  }

  /** One step of the reduce for an asset of type `key`: a falsy entry is
      first set to 0, then the entry becomes the decimal string of its parsed
      value plus one. `count` is how many such assets came before. */
  method Bump(acc: map<string, JsValue>, key: string, ghost count: nat) returns (next: map<string, JsValue>)
    requires count == 0 ==> !Truthy(Get(acc, key))
    requires count > 0 ==> Get(acc, key) == Str(NatToDecimal(count))
    ensures next == acc[key := Str(NatToDecimal(count + 1))]
  {
    next := acc;
    if !Truthy(Get(next, key)) {
      next := next[key := Num(0)];
    }
    var accType := next[key];
    var currentCount := if accType.Str? then accType.s else ToString(accType);
    assert currentCount == NatToDecimal(count);
    ParseRendered(count);
    next := next[key := Str(NatToDecimal(ParseDigits(currentCount) + 1))];
  }

  /** The `assets.reduce` of `handleSubmit`: each asset with a defined type
      bumps the string counter stored under that type. */
  method TallyByType(assets: seq<Pending>) returns (acc: map<string, JsValue>)
    ensures IsTally(acc, assets)
  {
    acc := map[];
    for i := 0 to |assets|
      invariant IsTally(acc, assets[..i])
    {
      var asset := assets[i];
      assert assets[..i + 1] == assets[..i] + [asset];
      match TypeKey(asset)
      case None =>
        TallySkip(acc, assets[..i], asset);
      case Some(key) =>
        TallyAt(acc, assets[..i], key);
        ghost var before := acc;
        acc := Bump(acc, key, Count(assets[..i], key));
        TallyBump(before, assets[..i], asset, key);
    }
    assert assets[..|assets|] == assets;
  }

  /** Tallying a batch after another adds their counts. */
  lemma {:induction false} CountAppend(a: seq<Pending>, b: seq<Pending>, key: string)
    ensures Count(a + b, key) == Count(a, key) + Count(b, key)
    decreases |b|
  {
    if |b| > 0 {
      CountAppend(a, b[..|b| - 1], key);
      assert (a + b)[..|a + b| - 1] == a + b[..|b| - 1];
    } else {
      assert a + b == a;
    }
  }

  /** An asset without a type is not counted anywhere. */
  lemma UntypedNotCounted(assets: seq<Pending>, asset: Pending, key: string)
    requires Get(asset.fields, "type") == Undefined
    ensures Count(assets + [asset], key) == Count(assets, key)
  {
    assert (assets + [asset])[..|assets|] == assets;
  }

  class Step {
    var uploadStatus: Status
    /** `assetCountRef.current` */
    var assetCount: int
    /** The files handed to `onUploadSucceed`, in order. */
    var succeeded: seq<JsValue>

    constructor ()
      ensures uploadStatus == Idle && assetCount == 0 && succeeded == []
    {
      uploadStatus := Idle;
      assetCount := 0;
      succeeded := [];
    }

    /** `handleSubmit`: the tally is taken (its only reader is disabled
        tracking) and the upload starts. */
    method HandleSubmit(assets: seq<Pending>) returns (tally: map<string, JsValue>)
      modifies this
      ensures IsTally(tally, assets)
      ensures uploadStatus == Uploading && assetCount == old(assetCount) && succeeded == old(succeeded)
    {
      tally := TallyByType(assets);
      uploadStatus := Uploading;
    }

    /** A card reports `status` for `file`; `assetsLength` is the current
        length of the pending list. */
    method HandleStatusChange(status: string, file: JsValue, assetsLength: nat)
      modifies this
      ensures status != "success" && status != "error" ==>
        assetCount == old(assetCount) && uploadStatus == old(uploadStatus)
      ensures (status == "success" || status == "error") && old(assetCount) + 1 == assetsLength ==>
        assetCount == 0 && uploadStatus == Intermediate
      ensures (status == "success" || status == "error") && old(assetCount) + 1 != assetsLength ==>
        assetCount == old(assetCount) + 1 && uploadStatus == old(uploadStatus)
      ensures succeeded == old(succeeded) + (if status == "success" then [file] else [])
    {
      if status == "success" || status == "error" {
        assetCount := assetCount + 1;
        if assetCount == assetsLength {
          assetCount := 0;
          uploadStatus := Intermediate;
        }
      }
      if status == "success" {
        succeeded := succeeded + [file];
      }
    }
  }
}
