/**
 * `getFullImageUrl` (frontend/src/components/chat/utils.ts): the address
 * the browser loads a message's image from. Absolute and inline addresses
 * are used as they are; a path the backend returned is resolved against
 * the backend's address.
 */
module ImageUrl {
  import opened Wrappers
  import opened Text

  /** The backend address used when the build sets none. */
  const DefaultBackend := "http://localhost:8000"

  /** `VITE_BACKEND_URL || 'http://localhost:8000'`: the configured address, unless it is missing or empty. */
  function Backend(configured: Option<string>): (base: string)
    ensures base != ""
    ensures configured.Some? && configured.value != "" ==> base == configured.value
    ensures configured.None? || configured.value == "" ==> base == DefaultBackend
  {
    if configured.Some? && configured.value != "" then configured.value else DefaultBackend
  }

  /** The base without one trailing `/`. */
  function CleanBase(base: string): (r: string)
    ensures EndsWith(base, "/") ==> r + "/" == base
    ensures !EndsWith(base, "/") ==> r == base
  {
    if EndsWith(base, "/") then base[..|base| - 1] else base
  }

  /** An address starting with `http` or `data:` is used as it is. */
  predicate IsAbsolute(url: string) {
    StartsWith(url, "http") || StartsWith(url, "data:")
  }

  /**
   * Any other address is the cleaned base, one `/`, and the path without
   * the `/` it may start with.
   */
  function FullImageUrl(url: string, configured: Option<string>): (r: string)
    ensures IsAbsolute(url) ==> r == url
    ensures !IsAbsolute(url) ==>
      var base := CleanBase(Backend(configured));
      StartsWith(r, base) && |r| > |base| && r[|base|] == '/' &&
      r[|base| + 1..] == if StartsWith(url, "/") then url[1..] else url
  {
    if IsAbsolute(url) then url
    else
      var base := CleanBase(Backend(configured));
      base + (if StartsWith(url, "/") then "" else "/") + url
  }

  /** Cleaning keeps an `http` prefix. */
  lemma CleanKeepsScheme(base: string)
    requires StartsWith(base, "http")
    ensures StartsWith(CleanBase(base), "http")
  {
    if EndsWith(base, "/") {
      assert base[3] == 'p';
      assert |base| > 4;
      assert CleanBase(base)[..4] == base[..4];
    }
  }

  /**
   * With a backend whose address starts with `http`, a resolved address is
   * used as it is when resolved again.
   */
  lemma ResolvedIsFixed(url: string, configured: Option<string>)
    requires StartsWith(Backend(configured), "http")
    ensures FullImageUrl(FullImageUrl(url, configured), configured) == FullImageUrl(url, configured)
  {
    var r := FullImageUrl(url, configured);
    if !IsAbsolute(url) {
      var base := CleanBase(Backend(configured));
      CleanKeepsScheme(Backend(configured));
      assert r[..4] == base[..4];
    }
  }

  /** The default backend starts with `http`, so without configuration every resolved address is fixed. */
  lemma DefaultIsFixed(url: string)
    ensures FullImageUrl(FullImageUrl(url, None), None) == FullImageUrl(url, None)
  {
    assert DefaultBackend[..4] == "http";
    ResolvedIsFixed(url, None);
  }
}
