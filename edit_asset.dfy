/**
 * The asset update request: the folder decision, the `fileInfo` record,
 * the multipart form and the unwrapping of the response.
 */
module EditAsset {
  import opened JsValues

  /** The arguments of `editAsset`. */
  datatype EditParams = EditParams(asset: JsObject, file: JsValue, name: JsValue,
                                   alternativeText: JsValue, caption: JsValue, folder: JsValue)

  /** The parts appended to the form, in order. `fileInfo` is sent as its
      JSON text; the model keeps the record. */
  datatype FormPart = FilesPart(file: JsValue) | FileInfoPart(info: JsObject)

  /** `null` moves to the root, a folder with a truthy id moves there,
      anything else (`None`) keeps the current folder. */
  function FolderValue(folder: JsValue): (r: Option<JsValue>)
    ensures folder == Null ==> r == Some(Null)
    ensures folder != Null && Truthy(OptProp(folder, "id")) ==> r == Some(OptProp(folder, "id"))
    ensures folder != Null && !Truthy(OptProp(folder, "id")) ==> r == None
  {
    if folder == Null then Some(Null)
    else if Truthy(OptProp(folder, "id")) then Some(OptProp(folder, "id"))
    else None
  }

  function FileInfo(p: EditParams): (r: JsObject)
    ensures Get(r, "name") == Or(p.name, Get(p.asset, "name"))
    ensures Get(r, "alternativeText") == Or(Or(p.alternativeText, Get(p.asset, "alternativeText")), Str(""))
    ensures Get(r, "caption") == Or(Or(p.caption, Get(p.asset, "caption")), Str(""))
    ensures "folder" in r <==> FolderValue(p.folder).Some?
    ensures "folder" in r ==> r["folder"] == FolderValue(p.folder).value
    ensures r.Keys <= {"name", "alternativeText", "caption", "folder"}
  {
    var info := map["name" := Or(p.name, Get(p.asset, "name")),
                    "alternativeText" := Or(Or(p.alternativeText, Get(p.asset, "alternativeText")), Str("")),
                    "caption" := Or(Or(p.caption, Get(p.asset, "caption")), Str(""))];
    match FolderValue(p.folder)
    case Some(v) => info["folder" := v]
    case None => info
  }

  /** An empty form value cannot clear a field the asset already has. */
  lemma EmptyKeepsAssetValue(p: EditParams)
    requires !Truthy(p.name) && !Truthy(p.alternativeText) && !Truthy(p.caption)
    ensures Get(FileInfo(p), "name") == Get(p.asset, "name")
    ensures Truthy(Get(p.asset, "alternativeText")) ==> Get(FileInfo(p), "alternativeText") == Get(p.asset, "alternativeText")
    ensures Truthy(Get(p.asset, "caption")) ==> Get(FileInfo(p), "caption") == Get(p.asset, "caption")
    ensures !Truthy(Get(p.asset, "caption")) ==> Get(FileInfo(p), "caption") == Str("")
  {
  }

  /** The replacement file first, when there is one, then `fileInfo`. */
  function FormParts(p: EditParams): (r: seq<FormPart>)
    ensures Truthy(p.file) ==> r == [FilesPart(p.file), FileInfoPart(FileInfo(p))]
    ensures !Truthy(p.file) ==> r == [FileInfoPart(FileInfo(p))]
  {
    (if Truthy(p.file) then [FilesPart(p.file)] else []) + [FileInfoPart(FileInfo(p))]
  }

  /** `` `/upload?id=${asset.id}` `` */
  function UploadPath(asset: JsObject): (r: string)
    ensures r == "/upload?id=" + ToString(Get(asset, "id"))
  {
    "/upload?id=" + ToString(Get(asset, "id"))
  }

  /** `response.data?.[0] || response.data || response` */
  function UpdatedAsset(response: JsValue): (r: JsValue)
    ensures Truthy(OptIndex(OptProp(response, "data"), 0)) ==> r == OptIndex(OptProp(response, "data"), 0)
    ensures !Truthy(OptIndex(OptProp(response, "data"), 0)) && Truthy(OptProp(response, "data")) ==> r == OptProp(response, "data")
    ensures !Truthy(OptProp(response, "data")) ==> r == response
  {
    var data := OptProp(response, "data");
    Or(Or(OptIndex(data, 0), data), response)
  }

  /** The usual response shapes: a list of updated files, a single file, or
      the file itself. */
  lemma ResponseShapes(asset: JsObject)
    requires "data" !in asset && "0" !in asset
    ensures UpdatedAsset(Obj(map["data" := Arr([Obj(asset)])])) == Obj(asset)
    ensures UpdatedAsset(Obj(map["data" := Obj(asset)])) == Obj(asset)
    ensures UpdatedAsset(Obj(asset)) == Obj(asset)
  {
    assert NatToDecimal(0) == "0";
  }

  /** The listings refreshed after a successful update (plugin id first). */
  function RefetchedQueries(pluginId: string): (r: seq<seq<string>>)
    ensures |r| == 2 && r[0] == [pluginId, "assets"] && r[1] == [pluginId, "asset-count"]
  {
    [[pluginId, "assets"], [pluginId, "asset-count"]]
  }
}
