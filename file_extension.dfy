/**
 * `getFileExtension`: the label shown for a file's extension.
 */
module FileExtension {
  import opened JsValues
  import opened Strings

  /** `ext?.replace('.', '').toUpperCase() || 'FILE'` */
  function GetFileExtension(ext: Option<string>): (r: string)
    ensures r != ""
    ensures ext.None? ==> r == "FILE"
    ensures ext.Some? && RemoveFirst(ext.value, '.') == "" ==> r == "FILE"
    ensures ext.Some? && RemoveFirst(ext.value, '.') != "" ==> r == ToUpper(RemoveFirst(ext.value, '.'))
  {
    match ext
    case None => "FILE"
    case Some(e) =>
      var shown := ToUpper(RemoveFirst(e, '.'));
      if shown == "" then "FILE" else shown
  }

  /** A missing, empty or lone-dot extension is labelled `FILE`. */
  lemma EmptyExtensions()
    ensures GetFileExtension(None) == "FILE"
    ensures GetFileExtension(Some("")) == "FILE"
    ensures GetFileExtension(Some(".")) == "FILE"
  {
    assert RemoveFirst(".", '.') == "";
  }

  /** Only the first dot is dropped: the label is the upper-cased text
      around it, so `.tar.gz` gives `TAR.GZ`. */
  lemma OnlyFirstDotRemoved(e: string)
    requires '.' in e && |e| > 1
    ensures GetFileExtension(Some(e)) ==
      ToUpper(e[..IndexOf(e, '.')] + e[IndexOf(e, '.') + 1..])
  {
    RemoveFirstAt(e, '.');
  }

  /** The label has no lower-case ASCII letter. */
  lemma LabelIsUpperCase(ext: Option<string>)
    ensures var r := GetFileExtension(ext);
      forall i :: 0 <= i < |r| ==> !('a' <= r[i] <= 'z')
  {
  }
}
