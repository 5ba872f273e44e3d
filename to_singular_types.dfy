/**
 * `toSingularTypes`: the plural asset type names used in field settings,
 * turned into the singular MIME families they stand for.
 */
module SingularTypes {
  import opened JsValues

  /** The `switch` on one entry; anything unknown passes through. */
  function Singular(t: JsValue): (r: JsValue)
    ensures t == Str("images") ==> r == Str("image")
    ensures t == Str("videos") ==> r == Str("video")
    ensures t == Str("files") ==> r == Str("file")
    ensures t == Str("audios") ==> r == Str("audio")
    ensures t !in {Str("images"), Str("videos"), Str("files"), Str("audios")} ==> r == t
  {
    if t == Str("images") then Str("image")
    else if t == Str("videos") then Str("video")
    else if t == Str("files") then Str("file")
    else if t == Str("audios") then Str("audio")
    else t
  }

  /** `toSingularTypes(types)`: a non-array gives `[]`; otherwise each entry
      is mapped, keeping length and order. */
  function ToSingularTypes(types: JsValue): (r: seq<JsValue>)
    ensures !types.Arr? ==> r == []
    ensures types.Arr? ==> |r| == |types.items|
    ensures types.Arr? ==> forall i :: 0 <= i < |r| ==> r[i] == Singular(types.items[i])
  {
    if !types.Arr? then [] else seq(|types.items|, i requires 0 <= i < |types.items| => Singular(types.items[i]))
  }

  /** Singularising twice changes nothing more. */
  lemma SingularIdempotent(t: JsValue)
    ensures Singular(Singular(t)) == Singular(t)
  {
  }

  lemma ToSingularTypesIdempotent(types: seq<JsValue>)
    ensures ToSingularTypes(Arr(ToSingularTypes(Arr(types)))) == ToSingularTypes(Arr(types))
  {
    var once := ToSingularTypes(Arr(types));
    forall i | 0 <= i < |once| ensures ToSingularTypes(Arr(once))[i] == once[i] {
      SingularIdempotent(types[i]);
    }
  }
}
