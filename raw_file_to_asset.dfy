/**
 * `rawFileToAsset`: a pending asset record built from a browser file.
 */
module RawFileToAsset {
  import opened JsValues
  import opened Strings
  import AllowedFiles
  import SingularTypes

  /** A browser `File`: `ref` is its identity, the rest its readable fields. */
  datatype RawFile = RawFile(ref: nat, name: string, size: int, mimeType: string)

  /** The plural asset type chosen from the MIME type's prefix. */
  function AssetTypeOf(mimeType: string): (t: string)
    ensures StartsWith(mimeType, "image/") ==> t == "images"
    ensures !StartsWith(mimeType, "image/") && StartsWith(mimeType, "video/") ==> t == "videos"
    ensures (!StartsWith(mimeType, "image/") && !StartsWith(mimeType, "video/") &&
             StartsWith(mimeType, "audio/")) ==> t == "audios"
    ensures t == "files" <==>
      !StartsWith(mimeType, "image/") && !StartsWith(mimeType, "video/") && !StartsWith(mimeType, "audio/")
  {
    if StartsWith(mimeType, "image/") then "images"
    else if StartsWith(mimeType, "video/") then "videos"
    else if StartsWith(mimeType, "audio/") then "audios"
    else "files"
  }

  /** The record `rawFileToAsset` returns. */
  datatype PendingAsset = PendingAsset(
    name: string, size: int, mime: string, ext: string, rawFile: JsValue, source: JsValue,
    isLocal: bool, url: string, provider: string, createdAt: string, updatedAt: string,
    documentId: string, assetType: string)

  /** `rawFileToAsset(file, source)`; `now` is the ISO timestamp the source
      takes from `new Date()`. */
  function ToAsset(file: RawFile, source: JsValue, now: string): (a: PendingAsset)
    ensures a.name == file.name && a.size == file.size && a.mime == file.mimeType
    ensures a.rawFile == Ref(file.ref) && a.source == source
    ensures a.isLocal && a.url == "" && a.provider == "local" && a.documentId == ""
    ensures a.createdAt == now && a.updatedAt == now
    ensures a.assetType == AssetTypeOf(file.mimeType)
    ensures '.' !in file.name ==> a.ext == file.name
    ensures '.' in file.name ==>
      exists i :: 0 <= i < |file.name| && file.name[i] == '.' && '.' !in file.name[i + 1..] &&
        a.ext == file.name[i + 1..]
  {
    var e := LastSegment(file.name, '.');
    if '.' in file.name then
      var i := |file.name| - |e| - 1;
      assert file.name[i + 1..] == e;
      PendingAsset(file.name, file.size, file.mimeType, e, Ref(file.ref), source,
        true, "", "local", now, now, "", AssetTypeOf(file.mimeType))
    else
      PendingAsset(file.name, file.size, file.mimeType, e, Ref(file.ref), source,
        true, "", "local", now, now, "", AssetTypeOf(file.mimeType))
  }

  /** The family of a MIME type that starts with `x/` is `x`. */
  lemma FamilyOfPrefix(mimeType: string, x: string)
    requires '/' !in x && StartsWith(mimeType, x + "/")
    ensures FirstSegment(mimeType, '/') == x
  {
    assert mimeType[..|x|] == x;
    assert mimeType[|x|] == '/';
    FirstSegmentBeforeIndex(mimeType, '/');
    assert IndexOf(mimeType, '/') == |x|;
  }

  /** A MIME type with a `/` starts with its family and the slash. */
  lemma FamilyThenSlash(mimeType: string)
    requires '/' in mimeType
    ensures var fam := FirstSegment(mimeType, '/');
      |fam| < |mimeType| && StartsWith(mimeType, fam + "/")
  {
    var fam := FirstSegment(mimeType, '/');
    assert mimeType[..|fam| + 1] == fam + "/";
  }

  /** A list naming only the file's own family admits it. */
  lemma AdmitsOwnFamily(singular: seq<JsValue>, a: JsObject, fam: string)
    requires AllowedFiles.FileType(a) == fam && fam != "" && singular == [Str(fam)]
    ensures AllowedFiles.Admits(singular, a)
  {
    assert Str(fam) in singular;
  }

  /** The generic `file` type admits any family that is not a media one. */
  lemma AdmitsAsFile(singular: seq<JsValue>, a: JsObject, fam: string)
    requires AllowedFiles.FileType(a) == fam && fam != "" && singular == [Str("file")]
    requires !AllowedFiles.IsMediaFamily(fam)
    ensures AllowedFiles.Admits(singular, a)
  {
    assert Str("file") in singular;
  }

  /** A family followed by `/` that starts none of the media prefixes is
      not a media family. */
  lemma NotMediaFamily(mimeType: string, fam: string)
    requires StartsWith(mimeType, fam + "/")
    requires !StartsWith(mimeType, "image/") && !StartsWith(mimeType, "video/") && !StartsWith(mimeType, "audio/")
    ensures !AllowedFiles.IsMediaFamily(fam)
  {
  }

  /** The singular list built from `rawFileToAsset`'s type for `mimeType`. */
  function OwnTypeList(mimeType: string): seq<JsValue>
  {
    SingularTypes.ToSingularTypes(Arr([Str(AssetTypeOf(mimeType))]))
  }

  lemma OwnTypeListIs(mimeType: string, x: string)
    requires SingularTypes.Singular(Str(AssetTypeOf(mimeType))) == Str(x)
    ensures OwnTypeList(mimeType) == [Str(x)]
  {
  }

  /** The media case: the family is the singular of the asset type. */
  lemma AdmittedAsMedia(mimeType: string, a: JsObject, x: string)
    requires '/' !in x && x != "" && StartsWith(mimeType, x + "/")
    requires Get(a, "mime") == Str(mimeType)
    requires SingularTypes.Singular(Str(AssetTypeOf(mimeType))) == Str(x)
    ensures AllowedFiles.Admits(OwnTypeList(mimeType), a)
  {
    FamilyOfPrefix(mimeType, x);
    OwnTypeListIs(mimeType, x);
    AdmitsOwnFamily(OwnTypeList(mimeType), a, x);
  }

  /** The other case: the asset type is `files`, singular `file`. */
  lemma AdmittedAsFile(mimeType: string, a: JsObject)
    requires '/' in mimeType && mimeType[0] != '/'
    requires !StartsWith(mimeType, "image/") && !StartsWith(mimeType, "video/") && !StartsWith(mimeType, "audio/")
    requires Get(a, "mime") == Str(mimeType)
    ensures AllowedFiles.Admits(OwnTypeList(mimeType), a)
  {
    var fam := FirstSegment(mimeType, '/');
    FamilyThenSlash(mimeType);
    NotMediaFamily(mimeType, fam);
    OwnTypeListIs(mimeType, "file");
    AdmitsAsFile(OwnTypeList(mimeType), a, fam);
  }

  /** A record whose MIME type has a family is admitted by a field that
      allows exactly the type `rawFileToAsset` gives it. */
  lemma AdmittedByOwnType(mimeType: string, a: JsObject)
    requires '/' in mimeType && mimeType[0] != '/'
    requires Get(a, "mime") == Str(mimeType)
    ensures AllowedFiles.Admits(SingularTypes.ToSingularTypes(Arr([Str(AssetTypeOf(mimeType))])), a)
  {
    if StartsWith(mimeType, "image/") {
      AdmittedAsMedia(mimeType, a, "image");
    } else if StartsWith(mimeType, "video/") {
      AdmittedAsMedia(mimeType, a, "video");
    } else if StartsWith(mimeType, "audio/") {
      AdmittedAsMedia(mimeType, a, "audio");
    } else {
      AdmittedAsFile(mimeType, a);
    }
  }
}
