/**
 * `urlsToAssets`: the MIME type chosen for a file fetched from a URL, and
 * the split of the settled fetches into successes and failures.
 */
module UrlsToAssets {
  import opened JsValues
  import opened Strings
  import opened Seqs

  /** `MIME_TYPES[ext]` for the extensions the table lists. No entry is
      empty, so `MIME_TYPES[ext] || fallback` falls back exactly on a miss. */
  function MimeFor(ext: string): (r: Option<string>)
    ensures r.Some? ==> r.value != ""
  {
    match ext
    case "jpeg" => Some("image/jpeg")
    case "jpg" => Some("image/jpeg")
    case "png" => Some("image/png")
    case "gif" => Some("image/gif")
    case "svg" => Some("image/svg+xml")
    case "webp" => Some("image/webp")
    case "bmp" => Some("image/bmp")
    case "tiff" => Some("image/tiff")
    case "tif" => Some("image/tiff")
    case "pdf" => Some("application/pdf")
    case "doc" => Some("application/msword")
    case "docx" => Some("application/vnd.openxmlformats-officedocument.wordprocessingml.document")
    case "xls" => Some("application/vnd.ms-excel")
    case "xlsx" => Some("application/vnd.openxmlformats-officedocument.spreadsheetml.sheet")
    case "ppt" => Some("application/vnd.ms-powerpoint")
    case "pptx" => Some("application/vnd.openxmlformats-officedocument.presentationml.presentation")
    case "mp4" => Some("video/mp4")
    case "avi" => Some("video/x-msvideo")
    case "mov" => Some("video/quicktime")
    case "wmv" => Some("video/x-ms-wmv")
    case "mp3" => Some("audio/mpeg")
    case "wav" => Some("audio/wav")
    case "ogg" => Some("audio/ogg")
    case "zip" => Some("application/zip")
    case "rar" => Some("application/x-rar-compressed")
    case "txt" => Some("text/plain")
    case "json" => Some("application/json")
    case "xml" => Some("application/xml")
    case "html" => Some("text/html")
    case "css" => Some("text/css")
    case "js" => Some("application/javascript")
    case "ts" => Some("application/typescript")
    case _ => None
  }

  const OCTET_STREAM := "application/octet-stream"

  /** `getMimeTypeFromFilename(filename)`: the table entry for the lower-cased
      last dot segment, or the generic binary type. */
  function MimeTypeFromFilename(filename: string): (r: string)
    ensures var ext := ToLower(LastSegment(filename, '.'));
      (MimeFor(ext).Some? ==> r == MimeFor(ext).value) && (MimeFor(ext).None? ==> r == OCTET_STREAM)
    ensures r != ""
  {
    match MimeFor(ToLower(LastSegment(filename, '.')))
    case Some(m) => m
    case None => OCTET_STREAM
  }

  /** Both spellings of JPEG share one type. */
  lemma JpegAliases()
    ensures MimeTypeFromFilename("photo.jpg") == MimeTypeFromFilename("photo.jpeg") == "image/jpeg"
  {
    assert LastSegment("photo.jpg", '.') == "jpg";
    assert ToLower("jpg") == "jpg";
    assert LastSegment("photo.jpeg", '.') == "jpeg";
    assert ToLower("jpeg") == "jpeg";
  }

  /** Both spellings of TIFF share one type. */
  lemma TiffAliases()
    ensures MimeTypeFromFilename("scan.tif") == MimeTypeFromFilename("scan.tiff") == "image/tiff"
  {
    assert LastSegment("scan.tif", '.') == "tif";
    assert ToLower("tif") == "tif";
    assert LastSegment("scan.tiff", '.') == "tiff";
    assert ToLower("tiff") == "tiff";
  }

  /** The extension is looked up in lower case. */
  lemma UpperCaseExtension()
    ensures MimeTypeFromFilename("PHOTO.PNG") == "image/png"
  {
    assert LastSegment("PHOTO.PNG", '.') == "PNG";
    assert ToLower("PNG") == "png";
  }

  /** Only the last segment counts, and an unknown one gives the generic type. */
  lemma UnknownExtension()
    ensures MimeTypeFromFilename("archive.tar.gz") == OCTET_STREAM
  {
    assert LastSegment("archive.tar.gz", '.') == "gz";
    assert ToLower("gz") == "gz";
  }

  /** The name given to the downloaded file: the last segment of the URL's
      path, or `download` when that is empty. */
  function FilenameFromPathname(pathname: string): (r: string)
    ensures r != ""
    ensures LastSegment(pathname, '/') != "" ==> r == LastSegment(pathname, '/')
    ensures LastSegment(pathname, '/') == "" ==> r == "download"
  {
    var last := LastSegment(pathname, '/');
    if last == "" then "download" else last
  }

  /** `res.headers.get('content-type') || getMimeTypeFromFilename(filename)` */
  function ChooseMime(contentType: Option<string>, filename: string): (r: string)
    ensures contentType.Some? && contentType.value != "" ==> r == contentType.value
    ensures (contentType.None? || contentType.value == "") ==> r == MimeTypeFromFilename(filename)
    ensures r != ""
  {
    if contentType.Some? && contentType.value != "" then contentType.value
    else MimeTypeFromFilename(filename)
  }

  /** The asset record built for a fetched URL. */
  datatype UrlAsset = UrlAsset(name: string, url: string, mime: string, rawFile: JsValue,
                               isLocal: bool, tempId: string, ext: string)

  /** The fulfilment handler for one response: `resUrl` is the final URL,
      `pathname` its path, `contentType` the header, `file` the `File` made
      from the body and `tempId` the random id. */
  function AssetFromResponse(resUrl: string, pathname: string, contentType: Option<string>,
                             file: nat, tempId: string): (a: UrlAsset)
    ensures a.name == FilenameFromPathname(pathname) && a.url == resUrl
    ensures a.mime == ChooseMime(contentType, a.name) && a.mime != ""
    ensures a.rawFile == Ref(file) && a.isLocal && a.tempId == tempId
    ensures a.ext == LastSegment(a.name, '.')
  {
    var filename := FilenameFromPathname(pathname);
    UrlAsset(filename, resUrl, ChooseMime(contentType, filename), Ref(file), true, tempId,
             LastSegment(filename, '.'))
  }

  /** The outcome of one fetch as `Promise.allSettled` reports it. */
  datatype Settled<T> = Fulfilled(value: T) | Rejected(reason: JsValue)

  datatype Failure = Failure(url: string, error: JsValue)

  /** `result.reason?.message || 'Unknown error'` */
  function FailureMessage(reason: JsValue): (r: JsValue)
    ensures Truthy(r)
    ensures Truthy(OptProp(reason, "message")) ==> r == OptProp(reason, "message")
    ensures !Truthy(OptProp(reason, "message")) ==> r == Str("Unknown error")
  {
    Or(OptProp(reason, "message"), Str("Unknown error"))
  }

  /** The fulfilled values, in order. */
  function Successes<T>(results: seq<Settled<T>>): seq<T>
  {
    if results == [] then []
    else (if results[0].Fulfilled? then [results[0].value] else []) + Successes(results[1..])
  }

  /** A failure per rejected result, paired with the URL at the same index. */
  function Failures<T>(urls: seq<string>, results: seq<Settled<T>>): seq<Failure>
    requires |urls| == |results|
  {
    if results == [] then []
    else
      var head := if results[0].Rejected? then [Failure(urls[0], FailureMessage(results[0].reason))] else [];
      head + Failures(urls[1..], results[1..])
  }

  /** Every fetch lands in exactly one of the two lists. */
  lemma {:induction false} PartitionCounts<T>(urls: seq<string>, results: seq<Settled<T>>)
    requires |urls| == |results|
    ensures |Successes(results)| + |Failures(urls, results)| == |urls|
    decreases |results|
  {
    if results != [] {
      PartitionCounts(urls[1..], results[1..]);
    }
  }

  function FailureUrl(f: Failure): string
  {
    f.url
  }

  /** The failures' URLs are the rejected fetches' URLs, in input order. */
  lemma {:induction false} FailureUrlsInOrder<T>(urls: seq<string>, results: seq<Settled<T>>)
    requires |urls| == |results|
    ensures Subsequence(Map(Failures(urls, results), FailureUrl), urls)
    ensures forall j :: 0 <= j < |Failures(urls, results)| ==>
      exists i :: 0 <= i < |urls| && results[i].Rejected? && Failures(urls, results)[j].url == urls[i]
    decreases |results|
  {
    if results != [] {
      FailureUrlsInOrder(urls[1..], results[1..]);
      var rest := Failures(urls[1..], results[1..]);
      var fs := Failures(urls, results);
      if results[0].Rejected? {
        assert fs == [Failure(urls[0], FailureMessage(results[0].reason))] + rest;
        assert Map(fs, FailureUrl)[1..] == Map(rest, FailureUrl);
        forall j | 1 <= j < |fs| ensures
          exists i :: 0 <= i < |urls| && results[i].Rejected? && fs[j].url == urls[i]
        {
          var i :| 0 <= i < |urls| - 1 && results[1..][i].Rejected? && rest[j - 1].url == urls[1..][i];
          assert results[i + 1].Rejected? && fs[j].url == urls[i + 1];
        }
      } else {
        assert fs == rest;
        var m := Map(rest, FailureUrl);
        forall j | 0 <= j < |fs| ensures
          exists i :: 0 <= i < |urls| && results[i].Rejected? && fs[j].url == urls[i]
        {
          var i :| 0 <= i < |urls| - 1 && results[1..][i].Rejected? && rest[j].url == urls[1..][i];
          assert results[i + 1].Rejected? && fs[j].url == urls[i + 1];
        }
        if m != [] && m[0] == urls[0] {
          SubsequenceDropFirst(m, urls[1..]);
        }
      }
    }
  }

  /** One step of the `forEach`: the result at `index` goes to its list. */
  lemma PartitionStep<T>(urls: seq<string>, results: seq<Settled<T>>, index: nat)
    requires |urls| == |results| && index < |results|
    ensures Successes(results[index..]) ==
      (if results[index].Fulfilled? then [results[index].value] else []) + Successes(results[index + 1..])
    ensures Failures(urls[index..], results[index..]) ==
      (if results[index].Rejected? then [Failure(urls[index], FailureMessage(results[index].reason))] else [])
        + Failures(urls[index + 1..], results[index + 1..])
  {
    assert results[index..][1..] == results[index + 1..];
    assert urls[index..][1..] == urls[index + 1..];
  }

  /** The `forEach` over the settled results that pushes each into
      `successes` or `failures`. */
  method Partition<T>(urls: seq<string>, results: seq<Settled<T>>)
    returns (successes: seq<T>, failures: seq<Failure>)
    requires |urls| == |results|
    ensures successes == Successes(results)
    ensures failures == Failures(urls, results)
    ensures |successes| + |failures| == |urls|
  {
    successes, failures := [], [];
    var index := 0;
    while index < |results|
      invariant 0 <= index <= |results|
      invariant successes + Successes(results[index..]) == Successes(results)
      invariant failures + Failures(urls[index..], results[index..]) == Failures(urls, results)
    {
      var result := results[index];
      PartitionStep(urls, results, index);
      if result.Fulfilled? {
        successes := successes + [result.value];
      } else {
        failures := failures + [Failure(urls[index], FailureMessage(result.reason))];
      }
      index := index + 1;
    }
    assert results[|results|..] == [] && urls[|results|..] == [];
    PartitionCounts(urls, results);
  }
}
