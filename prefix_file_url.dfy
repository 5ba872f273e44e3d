/**
 * `prefixFileUrlWithBackendUrl`: make a stored file URL absolute.
 */
module PrefixFileUrl {
  import opened JsValues
  import opened Strings

  predicate IsAbsolute(url: string)
  {
    StartsWith(url, "http://") || StartsWith(url, "https://") || StartsWith(url, "//")
  }

  /** `prefixFileUrlWithBackendUrl(url)` with `window.strapi?.backendURL`
      passed in as `backendURL`; `None` stands for `undefined`. */
  function Prefix(url: string, backendURL: JsValue): (r: Option<string>)
    ensures r.None? <==> url == ""
    ensures url != "" && IsAbsolute(url) ==> r == Some(url)
    ensures url != "" && !IsAbsolute(url) && !Truthy(backendURL) ==> r == Some(url)
    ensures url != "" && !IsAbsolute(url) && Truthy(backendURL) ==>
      r == Some(ToString(backendURL) + url)
  {
    if url == "" then None
    else if IsAbsolute(url) then Some(url)
    else
      var backend := if Truthy(backendURL) then ToString(backendURL) else "";
      assert "" + url == url;
      Some(backend + url)
  }

  /** Prefixing twice is prefixing once when the backend URL is missing or
      itself absolute. */
  lemma PrefixIdempotent(url: string, backendURL: JsValue)
    requires !Truthy(backendURL) || (backendURL.Str? && IsAbsolute(backendURL.s))
    ensures Prefix(url, backendURL).Some? ==>
      Prefix(Prefix(url, backendURL).value, backendURL) == Prefix(url, backendURL)
  {
    if url != "" && !IsAbsolute(url) && Truthy(backendURL) {
      var b := backendURL.s;
      var u := b + url;
      if StartsWith(b, "http://") {
        assert u[..7] == b[..7];
      } else if StartsWith(b, "https://") {
        assert u[..8] == b[..8];
      } else {
        assert u[..2] == b[..2];
      }
    }
  }
}
