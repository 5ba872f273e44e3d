/**
 * `getAllowedFiles`: the files of a list whose MIME family is accepted by a
 * field's allowed types.
 */
module AllowedFiles {
  import opened JsValues
  import opened Strings
  import opened Seqs
  import opened SingularTypes

  /** `file?.mime?.split('/')[0]`, with a missing or non-string mime read as
      the empty family. */
  function FileType(file: JsObject): string
  {
    var mime := Get(file, "mime");
    if mime.Str? then FirstSegment(mime.s, '/') else ""
  }

  predicate IsMediaFamily(t: string)
  {
    t == "video" || t == "image" || t == "audio"
  }

  /** The filter predicate for the singular type list. */
  predicate Admits(singularTypes: seq<JsValue>, file: JsObject)
  {
    var fileType := FileType(file);
    if fileType == "" then false
    else if Str("file") in singularTypes && !IsMediaFamily(fileType) then true
    else Str(fileType) in singularTypes
  }

  /** `getAllowedFiles(pluralTypes, files)` */
  function GetAllowedFiles(pluralTypes: JsValue, files: seq<JsObject>): (r: seq<JsObject>)
    ensures !Truthy(pluralTypes) ==> r == files
    ensures Subsequence(r, files)
    ensures Truthy(pluralTypes) ==>
      (forall i :: 0 <= i < |r| ==> Admits(ToSingularTypes(pluralTypes), r[i])) &&
      (forall i :: 0 <= i < |files| && Admits(ToSingularTypes(pluralTypes), files[i]) ==> files[i] in r)
    ensures Truthy(pluralTypes) ==> forall i :: 0 <= i < |files| ==>
      multiset(r)[files[i]] == if Admits(ToSingularTypes(pluralTypes), files[i]) then multiset(files)[files[i]] else 0
  {
    if !Truthy(pluralTypes) then
      SubsequenceRefl(files);
      files
    else
      var singularTypes := ToSingularTypes(pluralTypes);
      FilterIsSubsequence(files, f => Admits(singularTypes, f));
      FilterCount(files, f => Admits(singularTypes, f));
      Filter(files, f => Admits(singularTypes, f))
  }

  /** A file with no MIME family is never admitted by a type list. */
  lemma NoFamilyExcluded(pluralTypes: JsValue, file: JsObject)
    requires FileType(file) == ""
    ensures !Admits(ToSingularTypes(pluralTypes), file)
  {
  }

  /** An empty type list is not null, so it admits nothing. */
  lemma EmptyListAdmitsNothing(files: seq<JsObject>)
    ensures GetAllowedFiles(Arr([]), files) == []
  {
    FilterNone(files, f => Admits(ToSingularTypes(Arr([])), f));
  }

  /** `'files'` admits every file of a non-media family, whatever else is allowed. */
  lemma FilesAdmitsNonMedia(plural: seq<JsValue>, file: JsObject)
    requires Str("files") in plural
    requires FileType(file) != "" && !IsMediaFamily(FileType(file))
    ensures Admits(ToSingularTypes(Arr(plural)), file)
  {
    var i :| 0 <= i < |plural| && plural[i] == Str("files");
    assert ToSingularTypes(Arr(plural))[i] == Str("file");
  }

  /** Family `fam` is listed by the plural type list `plural` once it is
      singularised: named as itself (a plural name never survives the
      `switch`), or one of the four families named by its plural. */
  predicate Listed(plural: seq<JsValue>, fam: string)
  {
    (Str(fam) in plural && fam !in {"images", "videos", "files", "audios"}) ||
    (fam in {"image", "video", "file", "audio"} && Str(fam + "s") in plural)
  }

  lemma SingularListed(plural: seq<JsValue>, fam: string)
    ensures Str(fam) in ToSingularTypes(Arr(plural)) <==> Listed(plural, fam)
  {
    var st := ToSingularTypes(Arr(plural));
    if Str(fam) in st {
      var i :| 0 <= i < |st| && st[i] == Str(fam);
      assert Singular(plural[i]) == Str(fam);
      if plural[i] in {Str("images"), Str("videos"), Str("files"), Str("audios")} {
        assert plural[i] == Str(fam + "s");
      } else {
        assert plural[i] == Str(fam);
      }
    }
    if Listed(plural, fam) {
      if Str(fam) in plural && fam !in {"images", "videos", "files", "audios"} {
        var i :| 0 <= i < |plural| && plural[i] == Str(fam);
        assert st[i] == Str(fam);
      } else {
        var i :| 0 <= i < |plural| && plural[i] == Str(fam + "s");
        assert st[i] == Str(fam);
      }
    }
  }

  /** A type list admits a file exactly when the file has a family and
      either that family is listed, or `file` is listed and the family is
      not video, image or audio. */
  lemma AdmitsIff(plural: seq<JsValue>, file: JsObject)
    ensures Admits(ToSingularTypes(Arr(plural)), file) <==>
      FileType(file) != "" &&
      ((Listed(plural, "file") && !IsMediaFamily(FileType(file))) || Listed(plural, FileType(file)))
  {
    SingularListed(plural, "file");
    SingularListed(plural, FileType(file));
  }

  /** `['images']` admits exactly the files of the image family. */
  lemma ImagesOnly(file: JsObject)
    ensures Admits(ToSingularTypes(Arr([Str("images")])), file) <==> FileType(file) == "image"
  {
    assert ToSingularTypes(Arr([Str("images")])) == [Str("image")];
  }
}
