/**
 * The "from URL" form of the upload dialog: a text area of URLs, one per
 * line, fetched and handed on as pending assets.
 */
module FromUrlForm {
  import opened JsValues
  import opened Strings
  import opened Seqs
  import opened UrlsToAssets

  function TrimLine(s: string): string
  {
    Trim(s)
  }

  predicate NonEmpty(s: string)
  {
    |s| > 0
  }

  /** `input.split(/\r?\n/).map(url => url.trim()).filter(url => url.length > 0)`.
      Splitting on `\n` alone leaves a `\r` at the end of a line, which the
      trim removes, so the lines are the same. */
  function SplitUrls(input: string): (urls: seq<string>)
    ensures forall i :: 0 <= i < |urls| ==> urls[i] != [] && '\n' !in urls[i] && Trim(urls[i]) == urls[i]
  {
    var lines := Split(input, '\n');
    var trimmed := Map(lines, TrimLine);
    CleanLines(lines);
    Filter(trimmed, NonEmpty)
  }

  /** A trimmed line holds no line break and trims to itself. */
  lemma CleanLines(lines: seq<string>)
    requires forall j :: 0 <= j < |lines| ==> '\n' !in lines[j]
    ensures forall j :: 0 <= j < |lines| ==> '\n' !in TrimLine(lines[j]) && Trim(TrimLine(lines[j])) == TrimLine(lines[j])
  {
    forall j | 0 <= j < |lines|
      ensures '\n' !in TrimLine(lines[j]) && Trim(TrimLine(lines[j])) == TrimLine(lines[j])
    {
      TrimmedIsFixed(Trim(lines[j]));
      TrimIsSubstring(lines[j]);
    }
  }

  /** Writing clean URLs one per line and splitting gives them back. */
  lemma SplitUrlsJoin(urls: seq<string>)
    requires forall i :: 0 <= i < |urls| ==>
      urls[i] != [] && '\n' !in urls[i] && !IsWhitespace(urls[i][0]) && !IsWhitespace(urls[i][|urls[i]| - 1])
    ensures SplitUrls(Join(urls, '\n')) == urls
  {
    var lines := Split(Join(urls, '\n'), '\n');
    if urls == [] {
      assert lines == [""];
      assert TrimLine("") == "";
      assert Map(lines, TrimLine) == [""];
      assert Filter([""], NonEmpty) == [];
    } else {
      JoinSplit(urls, '\n');
      assert lines == urls;
      forall i | 0 <= i < |urls| ensures TrimLine(urls[i]) == urls[i] {
        TrimmedIsFixed(urls[i]);
      }
      var trimmed := Map(urls, TrimLine);
      assert trimmed == urls;
      FilterAll(urls, NonEmpty);
    }
  }

  /** What a submission makes the form do besides its own state. */
  datatype Effect =
    | WarnFailedUrls(count: nat)
    | AddAssets(assets: seq<AddedAsset>)
    | LoadFailed

  /** The record given to `onAddAsset`; `None` is an `undefined` mime. */
  datatype AddedAsset = AddedAsset(name: string, url: string, mime: Option<string>, rawFile: JsValue,
                                   isLocal: bool, tempId: string, ext: string)

  /** `{...asset, mime: asset.mime || undefined}` */
  function ToAdded(a: UrlAsset): (r: AddedAsset)
    ensures r.mime == (if a.mime == "" then None else Some(a.mime))
    ensures r.name == a.name && r.url == a.url && r.rawFile == a.rawFile
    ensures r.isLocal == a.isLocal && r.tempId == a.tempId && r.ext == a.ext
  {
    AddedAsset(a.name, a.url, if a.mime == "" then None else Some(a.mime), a.rawFile, a.isLocal, a.tempId, a.ext)
  }

  /** A fetched asset always has a MIME type, so the `|| undefined` never fires. */
  lemma FetchedMimeKept(resUrl: string, pathname: string, contentType: Option<string>, file: nat, tempId: string)
    ensures var a := AssetFromResponse(resUrl, pathname, contentType, file, tempId);
      ToAdded(a).mime == Some(a.mime)
  {
  }

  class UrlForm {
    var urlInput: string
    var isLoading: bool

    constructor ()
      ensures urlInput == "" && !isLoading
    {
      urlInput := "";
      isLoading := false;
    }

    method SetUrlInput(value: string)
      modifies this
      ensures urlInput == value && isLoading == old(isLoading)
    {
      urlInput := value;
    }

    /** `handleSubmit`. `outcome` is what `await urlsToAssets(urls)` gives:
        the successes and failures, or an error thrown by the call. As
        `UrlsToAssets.Partition` proves, a settled call reports one entry per
        requested URL. */
    method HandleSubmit(outcome: Result<(seq<UrlAsset>, seq<Failure>)>)
      returns (requested: seq<string>, effects: seq<Effect>)
      requires Trim(urlInput) != "" && outcome.Ok? ==>
        |outcome.value.0| + |outcome.value.1| == |SplitUrls(urlInput)|
      modifies this
      ensures urlInput == old(urlInput)
      ensures Trim(old(urlInput)) != "" && outcome.Ok? ==>
        |outcome.value.0| + |outcome.value.1| == |requested|
      ensures Trim(old(urlInput)) == "" ==> requested == [] && effects == [] && isLoading == old(isLoading)
      ensures Trim(old(urlInput)) != "" ==> requested == SplitUrls(old(urlInput)) && !isLoading
      ensures Trim(old(urlInput)) != "" && outcome.Err? ==> effects == [LoadFailed]
      ensures Trim(old(urlInput)) != "" && outcome.Ok? ==>
        var (successes, failures) := outcome.value;
        effects == (if |failures| > 0 then [WarnFailedUrls(|failures|)] else []) +
                   (if |successes| > 0 then [AddAssets(Map(successes, ToAdded))] else [])
    {
      requested, effects := [], [];
      if Trim(urlInput) == "" {
        return;
      }
      isLoading := true;
      requested := SplitUrls(urlInput);
      match outcome {
        case Err(_) =>
          effects := effects + [LoadFailed];
        case Ok((successes, failures)) =>
          if |failures| > 0 {
            effects := effects + [WarnFailedUrls(|failures|)];
          }
          if |successes| > 0 {
            effects := effects + [AddAssets(Map(successes, ToAdded))];
          }
      }
      isLoading := false;
    }
  }
}
