/**
 * The chat router's helpers (backend/routers/chat_helpers.py): media-list
 * coercion, the upstream content parts of a message, and the localisation
 * of markdown image references to files under /uploads/.
 *
 * The network download is the oracle `fetch`; JSON decoding is the oracle
 * `parse`. The regular expression `!\[image\]\((https?://[^\)]+)\)` is
 * matched by hand, with the left-to-right, non-overlapping scan of
 * `re.finditer`.
 */
module ChatHelpers {
  import opened Wrappers
  import opened Text

  // ------------------------------------------------------------ _ensure_list

  /** A media field as the request carries it: absent, a JSON-encoded string, or a list of URLs. */
  datatype MediaField = Missing | Encoded(text: string) | Urls(items: seq<string>)

  /** JSON decoding of a list of URLs; None when `json.loads` raises. `json.loads("")` always raises. */
  type Parser = string -> Option<seq<string>>

  predicate RejectsEmpty(parse: Parser) {
    parse("").None?
  }

  /** `_ensure_list`: None stays None, a list is kept, a string is decoded or wrapped. */
  function EnsureList(data: MediaField, parse: Parser): (r: Option<seq<string>>)
    ensures data.Missing? <==> r.None?
    ensures data.Urls? ==> r == Some(data.items)
    ensures data.Encoded? && parse(data.text).Some? ==> r == parse(data.text)
    ensures data.Encoded? && parse(data.text).None? ==>
      r == Some(if data.text == "" then [] else [data.text])
  {
    match data
    case Missing => None
    case Urls(items) => Some(items)
    case Encoded(text) =>
      match parse(text)
      case Some(v) => Some(v)
      case None => Some(if text != "" then [text] else [])
  }

  /** The empty string becomes the empty list, since decoding it always fails. */
  lemma EnsureListEmpty(parse: Parser)
    requires RejectsEmpty(parse)
    ensures EnsureList(Encoded(""), parse) == Some([])
  {
  }

  // ---------------------------------------------------- _format_api_content

  /** One part of a multimodal upstream message. */
  datatype Part = TextPart(text: string) | ImagePart(url: string) | VideoPart(url: string) | AudioPart(url: string)

  /** Upstream message content: the plain string, or a list of parts. */
  datatype ApiContent = Plain(text: string) | Parts(parts: seq<Part>)

  /** Python truthiness of a coerced media list. */
  predicate Truthy(v: Option<seq<string>>) {
    v.Some? && v.value != []
  }

  function ListOrEmpty(v: Option<seq<string>>): seq<string> {
    if v.Some? then v.value else []
  }

  /**
   * What `_format_api_content` promises: the plain text when no media list
   * is truthy, otherwise the text part followed by one part per image,
   * video and audio URL, in that order.
   */
  predicate FormatsContent(content: string, images: MediaField, videos: MediaField, audios: MediaField,
    parse: Parser, r: ApiContent)
  {
    var i, v, a := EnsureList(images, parse), EnsureList(videos, parse), EnsureList(audios, parse);
      && (!Truthy(i) && !Truthy(v) && !Truthy(a) <==> r == Plain(content))
      && (Truthy(i) || Truthy(v) || Truthy(a) ==>
            var ims, vds, ads := ListOrEmpty(i), ListOrEmpty(v), ListOrEmpty(a);
            && r.Parts?
            && |r.parts| == 1 + |ims| + |vds| + |ads|
            && r.parts[0] == TextPart(content)
            && (forall k :: 0 <= k < |ims| ==> r.parts[1 + k] == ImagePart(ims[k]))
            && (forall k :: 0 <= k < |vds| ==> r.parts[1 + |ims| + k] == VideoPart(vds[k]))
            && (forall k :: 0 <= k < |ads| ==> r.parts[1 + |ims| + |vds| + k] == AudioPart(ads[k])))
  }

  /** `_format_api_content`. */
  method FormatApiContent(content: string, images: MediaField, videos: MediaField, audios: MediaField, parse: Parser)
    returns (r: ApiContent)
    ensures FormatsContent(content, images, videos, audios, parse, r)
  {
    var imgs := EnsureList(images, parse);
    var vids := EnsureList(videos, parse);
    var auds := EnsureList(audios, parse);
    if !Truthy(imgs) && !Truthy(vids) && !Truthy(auds) {
      return Plain(content);
    }
    var ims, vds, ads := ListOrEmpty(imgs), ListOrEmpty(vids), ListOrEmpty(auds);
    var parts := [TextPart(content)];
    for k := 0 to |ims|
      invariant |parts| == 1 + k && parts[0] == TextPart(content)
      invariant forall q :: 0 <= q < k ==> parts[1 + q] == ImagePart(ims[q])
    {
      parts := parts + [ImagePart(ims[k])];
    }
    for k := 0 to |vds|
      invariant |parts| == 1 + |ims| + k && parts[0] == TextPart(content)
      invariant forall q :: 0 <= q < |ims| ==> parts[1 + q] == ImagePart(ims[q])
      invariant forall q :: 0 <= q < k ==> parts[1 + |ims| + q] == VideoPart(vds[q])
    {
      parts := parts + [VideoPart(vds[k])];
    }
    for k := 0 to |ads|
      invariant |parts| == 1 + |ims| + |vds| + k && parts[0] == TextPart(content)
      invariant forall q :: 0 <= q < |ims| ==> parts[1 + q] == ImagePart(ims[q])
      invariant forall q :: 0 <= q < |vds| ==> parts[1 + |ims| + q] == VideoPart(vds[q])
      invariant forall q :: 0 <= q < k ==> parts[1 + |ims| + |vds| + q] == AudioPart(ads[q])
    {
      parts := parts + [AudioPart(ads[k])];
    }
    return Parts(parts);
  }

  // ------------------------------------------------------ _save_remote_image

  /** What the HTTP GET of an image URL gives: an exception, or a response. */
  datatype FetchReply = FetchFailed | Response(status: int, contentType: string, stem: string)

  /** The download oracle; `stem` is the fresh file name (a UUID) the response would be saved under. */
  type Fetcher = string -> FetchReply

  /** The file extension chosen from the response's content type. */
  function ImageExt(contentType: string): (ext: string)
    ensures ext in {".jpg", ".webp", ".png"}
    ensures ext == ".jpg" <==> Contains(contentType, "jpeg")
    ensures ext == ".webp" <==> !Contains(contentType, "jpeg") && Contains(contentType, "webp")
  {
    if Contains(contentType, "jpeg") then ".jpg"
    else if Contains(contentType, "webp") then ".webp"
    else ".png"
  }

  const UploadsPrefix: string := "/uploads/"

  /** `_save_remote_image`: the local path of the saved download, or the URL itself. */
  function SaveRemoteImage(url: string, fetch: Fetcher): (r: string)
    ensures r == url || (Saved(url, fetch) && StartsWith(r, UploadsPrefix))
  {
    if !StartsWith(url, "http") then url
    else match fetch(url)
      case Response(status, contentType, stem) =>
        if status == 200 then
          var path := UploadsPrefix + stem + ImageExt(contentType);
          assert path[..|UploadsPrefix|] == UploadsPrefix;
          path
        else url
      case FetchFailed => url
  }

  /** The download succeeded: an http URL answered with status 200. */
  predicate Saved(url: string, fetch: Fetcher) {
    StartsWith(url, "http") && fetch(url).Response? && fetch(url).status == 200
  }

  /**
   * The URL comes back unchanged exactly when it is not http, the status is
   * not 200 or the request raised; otherwise it is a path under /uploads/.
   */
  lemma SaveRemoteImageSpec(url: string, fetch: Fetcher)
    ensures SaveRemoteImage(url, fetch) != url <==> Saved(url, fetch)
    ensures Saved(url, fetch) ==>
      SaveRemoteImage(url, fetch) == UploadsPrefix + fetch(url).stem + ImageExt(fetch(url).contentType)
    ensures Saved(url, fetch) ==> StartsWith(SaveRemoteImage(url, fetch), UploadsPrefix)
  {
    if Saved(url, fetch) {
      var r := SaveRemoteImage(url, fetch);
      assert r[..9] == UploadsPrefix;
      assert url[0] == 'h' && r[0] == '/';
    }
  }

  // ------------------------------------------------------ image-link matcher

  /** The literal text in front of the captured URL. */
  const Marker: string := "![image]("

  /** The index of the first ")" at or after `k`, if any. */
  function FirstParen(s: string, k: nat): (r: Option<nat>)
    requires k <= |s|
    ensures r.Some? ==> k <= r.value < |s| && s[r.value] == ')' && forall q :: k <= q < r.value ==> s[q] != ')'
    ensures r.None? ==> forall q :: k <= q < |s| ==> s[q] != ')'
    decreases |s| - k
  {
    if k == |s| then None
    else if s[k] == ')' then Some(k)
    else FirstParen(s, k + 1)
  }

  /** Where `https?://` ending at the returned index matches at `j`. */
  function SchemeEnd(s: string, j: nat): (r: Option<nat>)
    requires j <= |s|
    ensures r.Some? ==> j + 7 <= r.value <= |s| && s[j..r.value] in {"https://", "http://"}
  {
    if StartsWith(s[j..], "https://") then assert s[j..j + 8] == s[j..][..8]; Some(j + 8)
    else if StartsWith(s[j..], "http://") then assert s[j..j + 7] == s[j..][..7]; Some(j + 7)
    else None
  }

  /** A match: the captured URL and the index just past the closing ")". */
  datatype Match = Match(url: string, end: nat)

  /** The pattern anchored at `i`. `[^\)]+` takes at least one character, up to the first ")". */
  function MatchAt(s: string, i: nat): (r: Option<Match>)
    requires i <= |s|
    ensures r.Some? ==> i < r.value.end <= |s|
  {
    if !StartsWith(s[i..], Marker) then None
    else match SchemeEnd(s, i + |Marker|)
      case None => None
      case Some(k) =>
        match FirstParen(s, k)
        case None => None
        case Some(p) => if p == k then None else Some(Match(s[i + |Marker|..p], p + 1))
  }

  /** What a captured URL looks like: http:// or https://, at least one more character, and no ")". */
  predicate IsImageUrl(u: string) {
    && ((StartsWith(u, "https://") && |u| > 8) || (StartsWith(u, "http://") && |u| > 7))
    && ')' !in u
  }

  /** A scheme without ")" followed by a run without ")" has no ")". */
  lemma UrlNoParen(s: string, j: nat, k: nat, p: nat)
    requires j <= k <= p <= |s|
    requires ')' !in s[j..k] && forall q :: k <= q < p ==> s[q] != ')'
    ensures ')' !in s[j..p]
  {
    assert s[j..p] == s[j..k] + s[k..p];
  }

  lemma MatchAtShape(s: string, i: nat)
    requires i <= |s| && MatchAt(s, i).Some?
    ensures var m := MatchAt(s, i).value;
      && IsImageUrl(m.url)
      && i + |Marker| + |m.url| + 1 == m.end
      && s[i..m.end] == Marker + m.url + ")"
  {
    var j := i + |Marker|;
    var k := SchemeEnd(s, j).value;
    var p := FirstParen(s, k).value;
    var u := s[j..p];
    assert IsImageUrl(u) by {
      assert u[..k - j] == s[j..k];
      UrlNoParen(s, j, k, p);
    }
    assert s[i..p + 1] == Marker + u + ")" by {
      assert s[i..i + |Marker|] == s[i..][..|Marker|];
      assert s[i..p + 1] == s[i..j] + u + [s[p]];
    }
  }

  /** The scheme of a well-formed URL is recognised, and ends after "https://" or "http://". */
  lemma SchemeOfUrl(s: string, j: nat, url: string)
    requires j + |url| <= |s| && s[j..j + |url|] == url && IsImageUrl(url)
    ensures SchemeEnd(s, j) == Some(j + if StartsWith(url, "https://") then 8 else 7)
  {
    assert s[j..][..|url|] == url;
    if StartsWith(url, "https://") {
      assert s[j..][..8] == s[j..][..|url|][..8];
    } else {
      assert s[j..][4] == url[4] == ':';
      assert s[j..][..7] == s[j..][..|url|][..7];
    }
  }

  /** The pieces of a reference written out at `i`: the marker, the URL and the closing ")". */
  lemma RefPieces(s: string, i: nat, url: string)
    requires i + |Marker| + |url| < |s|
    requires s[i..i + |Marker| + |url| + 1] == Marker + url + ")"
    ensures StartsWith(s[i..], Marker)
    ensures s[i + |Marker|..i + |Marker| + |url|] == url
    ensures s[i + |Marker| + |url|] == ')'
  {
    var j := i + |Marker|;
    var ref := s[i..j + |url| + 1];
    forall q | 0 <= q < |url| ensures s[j + q] == url[q] {
      assert ref[|Marker| + q] == s[j + q];
    }
    forall q | 0 <= q < |Marker| ensures s[i + q] == Marker[q] {
      assert ref[q] == s[i + q];
    }
    assert s[j + |url|] == ref[|Marker| + |url|];
    assert s[i..][..|Marker|] == Marker;
  }

  /** Conversely, every well-formed reference at `i` is matched there, with its whole URL captured. */
  lemma MatchAtFinds(s: string, i: nat, url: string)
    requires i + |Marker| + |url| < |s| && IsImageUrl(url)
    requires s[i..i + |Marker| + |url| + 1] == Marker + url + ")"
    ensures MatchAt(s, i) == Some(Match(url, i + |Marker| + |url| + 1))
  {
    var j := i + |Marker|;
    var p := j + |url|;
    var k: nat := j + if StartsWith(url, "https://") then 8 else 7;
    RefPieces(s, i, url);
    SchemeOfUrl(s, j, url);
    assert FirstParen(s, k) == Some(p) by {
      forall q | k <= q < p ensures s[q] != ')' {
        assert s[q] == url[q - j];
      }
    }
    assert p != k by {
      if StartsWith(url, "https://") {
        assert url[..8][4] == 's';
        assert !StartsWith(url, "http://");
      }
    }
  }

  /** `re.finditer(pattern, s)` from index `i`: the captured URLs, left to right, non-overlapping. */
  function FindImageUrls(s: string, i: nat): (urls: seq<string>)
    requires i <= |s|
    ensures forall k :: 0 <= k < |urls| ==> IsImageUrl(urls[k])
    decreases |s| - i
  {
    if i == |s| then []
    else match MatchAt(s, i)
      case Some(m) => MatchAtShape(s, i); [m.url] + FindImageUrls(s, m.end)
      case None => FindImageUrls(s, i + 1)
  }

  /** Every match begins with "![", so text without "![" has none. */
  lemma {:induction false} NoBangNoMatch(s: string, i: nat)
    requires i <= |s| && !Contains(s, "![")
    ensures FindImageUrls(s, i) == []
    decreases |s| - i
  {
    if i < |s| {
      if MatchAt(s, i).Some? {
        assert s[i..i + 2] == s[i..][..|Marker|][..2];
        ContainsAt(s, "![", i);
      } else {
        NoBangNoMatch(s, i + 1);
      }
    }
  }

  /** Text in which no image reference is followed by "http" (every one is already local) has no matches. */
  lemma {:induction false} LocalRefsNoMatch(s: string, i: nat)
    requires i <= |s| && !Contains(s, Marker + "http")
    ensures FindImageUrls(s, i) == []
    decreases |s| - i
  {
    if i < |s| {
      if MatchAt(s, i).Some? {
        var j := i + |Marker|;
        var k := SchemeEnd(s, j).value;
        assert s[i..j] == s[i..][..|Marker|];
        assert s[j..j + 4] == s[j..k][..4];
        assert s[i..j + 4] == s[i..j] + s[j..j + 4];
        ContainsAt(s, Marker + "http", i);
      } else {
        LocalRefsNoMatch(s, i + 1);
      }
    }
  }

  // --------------------------------------------------------- localisation

  /** The text after replacing, in order, every URL that was saved by its local path. */
  function LocalizedText(text: string, urls: seq<string>, fetch: Fetcher): string
    requires forall k :: 0 <= k < |urls| ==> urls[k] != []
    decreases |urls|
  {
    if urls == [] then text
    else
      var local := SaveRemoteImage(urls[0], fetch);
      var next := if local != urls[0] then ReplaceAll(text, urls[0], local) else text;
      LocalizedText(next, urls[1..], fetch)
  }

  /** The local path `url` was saved under, if it was saved. */
  function SavedPath(url: string, fetch: Fetcher): seq<string> {
    var local := SaveRemoteImage(url, fetch);
    if local != url then [local] else []
  }

  /** The local paths of the URLs that were saved, in order. */
  function LocalPaths(urls: seq<string>, fetch: Fetcher): seq<string> {
    if urls == [] then [] else SavedPath(urls[0], fetch) + LocalPaths(urls[1..], fetch)
  }

  /** Every reported path names a file under /uploads/, and there are at most as many as URLs. */
  lemma {:induction false} LocalPathsUnderUploads(urls: seq<string>, fetch: Fetcher)
    ensures |LocalPaths(urls, fetch)| <= |urls|
    ensures forall k :: 0 <= k < |LocalPaths(urls, fetch)| ==> StartsWith(LocalPaths(urls, fetch)[k], UploadsPrefix)
    decreases |urls|
  {
    if urls != [] {
      SaveRemoteImageSpec(urls[0], fetch);
      LocalPathsUnderUploads(urls[1..], fetch);
    }
  }

  /** No paths are reported exactly when no URL was saved. */
  lemma {:induction false} LocalPathsEmpty(urls: seq<string>, fetch: Fetcher)
    ensures LocalPaths(urls, fetch) == [] <==> forall k :: 0 <= k < |urls| ==> !Saved(urls[k], fetch)
    decreases |urls|
  {
    if urls != [] {
      SaveRemoteImageSpec(urls[0], fetch);
      LocalPathsEmpty(urls[1..], fetch);
      assert forall k :: 1 <= k < |urls| ==> urls[k] == urls[1..][k - 1];
    }
  }

  /** When no URL is saved, the text is left as it is. */
  lemma {:induction false} NothingSavedKeepsText(text: string, urls: seq<string>, fetch: Fetcher)
    requires forall k :: 0 <= k < |urls| ==> urls[k] != [] && !Saved(urls[k], fetch)
    ensures LocalizedText(text, urls, fetch) == text
    decreases |urls|
  {
    if urls != [] {
      SaveRemoteImageSpec(urls[0], fetch);
      NothingSavedKeepsText(text, urls[1..], fetch);
    }
  }

  /** One step of the replacement loop: the `i`-th URL is handled, the rest are still to do. */
  lemma LocalizedTextStep(text: string, urls: seq<string>, i: nat, fetch: Fetcher)
    requires i < |urls| && forall k :: 0 <= k < |urls| ==> urls[k] != []
    ensures var local := SaveRemoteImage(urls[i], fetch);
      LocalizedText(text, urls[i..], fetch)
        == LocalizedText(if local != urls[i] then ReplaceAll(text, urls[i], local) else text, urls[i + 1..], fetch)
  {
    assert urls[i..][0] == urls[i];
    assert urls[i..][1..] == urls[i + 1..];
  }

  /** The paths reported after handling the `i`-th URL. */
  lemma {:induction false} LocalPathsStep(urls: seq<string>, i: nat, fetch: Fetcher)
    requires i < |urls|
    ensures LocalPaths(urls[..i + 1], fetch) == LocalPaths(urls[..i], fetch) + SavedPath(urls[i], fetch)
    decreases i
  {
    if i == 0 {
      assert urls[..1] == [urls[0]];
      assert urls[..1][1..] == [];
    } else {
      LocalPathsStep(urls[1..], i - 1, fetch);
      assert urls[..i + 1][1..] == urls[1..][..i];
      assert urls[..i][1..] == urls[1..][..i - 1];
    }
  }

  /** `_localize_markdown_images`: the rewritten text and the local paths, in match order. */
  method LocalizeMarkdownImages(content: string, fetch: Fetcher) returns (text: string, foundUrls: seq<string>)
    ensures text == LocalizedText(content, FindImageUrls(content, 0), fetch)
    ensures foundUrls == LocalPaths(FindImageUrls(content, 0), fetch)
  {
    var matches := FindImageUrls(content, 0);
    text := content;
    foundUrls := [];
    for i := 0 to |matches|
      invariant LocalizedText(text, matches[i..], fetch) == LocalizedText(content, matches, fetch)
      invariant foundUrls == LocalPaths(matches[..i], fetch)
    {
      var originalUrl := matches[i];
      var localPath := SaveRemoteImage(originalUrl, fetch);
      LocalizedTextStep(text, matches, i, fetch);
      LocalPathsStep(matches, i, fetch);
      if localPath != originalUrl {
        text := ReplaceAll(text, originalUrl, localPath);
        foundUrls := foundUrls + [localPath];
      }
    }
    assert matches[..|matches|] == matches;
  }

  /** Localising text whose image references are all local fetches nothing and changes nothing. */
  lemma LocalizeLocalIsNoOp(content: string, fetch: Fetcher)
    requires !Contains(content, Marker + "http")
    ensures FindImageUrls(content, 0) == []
    ensures LocalizedText(content, FindImageUrls(content, 0), fetch) == content
    ensures LocalPaths(FindImageUrls(content, 0), fetch) == []
  {
    LocalRefsNoMatch(content, 0);
  }

  /**
   * `_localize_streaming_content`: a chunk without "![" or "! [image]" is
   * returned as it is; otherwise the same rewriting as above, reporting
   * whether any URL was replaced.
   */
  method LocalizeStreamingContent(contentVal: string, fetch: Fetcher) returns (text: string, modified: bool)
    ensures text == LocalizedText(contentVal, FindImageUrls(contentVal, 0), fetch)
    ensures modified <==> LocalPaths(FindImageUrls(contentVal, 0), fetch) != []
  {
    if !Contains(contentVal, "! [image]") && !Contains(contentVal, "![") {
      NoBangNoMatch(contentVal, 0);
      return contentVal, false;
    }
    var matches := FindImageUrls(contentVal, 0);
    text := contentVal;
    modified := false;
    for i := 0 to |matches|
      invariant LocalizedText(text, matches[i..], fetch) == LocalizedText(contentVal, matches, fetch)
      invariant modified <==> LocalPaths(matches[..i], fetch) != []
    {
      var originalUrl := matches[i];
      var localPath := SaveRemoteImage(originalUrl, fetch);
      LocalizedTextStep(text, matches, i, fetch);
      LocalPathsStep(matches, i, fetch);
      if localPath != originalUrl {
        text := ReplaceAll(text, originalUrl, localPath);
        modified := true;
      }
    }
    assert matches[..|matches|] == matches;
  }

  // ------------------------------------------------ per-reference rewriting

  /**
   * The rewriting the localisation evidently intends: every matched
   * reference is rewritten in place to its own local path, and the text
   * outside the references is kept. `str.replace` of the bare URL instead
   * also rewrites every other occurrence of it, including inside a longer
   * URL of a later reference.
   */
  function LocalizedRefs(s: string, i: nat, fetch: Fetcher): (r: string)
    requires i <= |s|
    ensures '!' !in s[i..] ==> r == s[i..]
    decreases |s| - i
  {
    if i == |s| then []
    else match MatchAt(s, i)
      case Some(m) =>
        assert s[i..][0] == s[i] == '!';
        Marker + SaveRemoteImage(m.url, fetch) + ")" + LocalizedRefs(s, m.end, fetch)
      case None =>
        assert s[i..] == [s[i]] + s[i + 1..];
        [s[i]] + LocalizedRefs(s, i + 1, fetch)
  }

  /** Unfolding at a reference: its rewriting comes first. */
  lemma RefStep(s: string, i: nat, fetch: Fetcher)
    requires i < |s| && MatchAt(s, i).Some?
    ensures var m := MatchAt(s, i).value;
      LocalizedRefs(s, i, fetch) == Marker + SaveRemoteImage(m.url, fetch) + ")" + LocalizedRefs(s, m.end, fetch)
  {
  }

  /** Unfolding at a reference: its path (if saved) is reported first. */
  lemma RefPathsStep(s: string, i: nat, fetch: Fetcher)
    requires i < |s| && MatchAt(s, i).Some?
    ensures var m := MatchAt(s, i).value;
      LocalPaths(FindImageUrls(s, i), fetch) == SavedPath(m.url, fetch) + LocalPaths(FindImageUrls(s, m.end), fetch)
  {
    var m := MatchAt(s, i).value;
    var urls := FindImageUrls(s, i);
    assert urls == [m.url] + FindImageUrls(s, m.end);
    assert urls[1..] == FindImageUrls(s, m.end);
  }

  /** Unfolding where no reference starts: the character is kept. */
  lemma NoRefStep(s: string, i: nat, fetch: Fetcher)
    requires i < |s| && MatchAt(s, i).None?
    ensures LocalizedRefs(s, i, fetch) == [s[i]] + LocalizedRefs(s, i + 1, fetch)
  {
  }

  /** Unfolding where no reference starts: nothing is reported for it. */
  lemma NoRefPathsStep(s: string, i: nat)
    requires i < |s| && MatchAt(s, i).None?
    ensures FindImageUrls(s, i) == FindImageUrls(s, i + 1)
  {
  }

  /** Every reported local path is the target of an image reference in the rewritten text. */
  lemma {:induction false} LocalizedRefsShowsEveryPath(s: string, i: nat, fetch: Fetcher)
    requires i <= |s|
    ensures var paths := LocalPaths(FindImageUrls(s, i), fetch);
      forall k :: 0 <= k < |paths| ==> Contains(LocalizedRefs(s, i, fetch), Marker + paths[k] + ")")
    decreases |s| - i
  {
    if i < |s| {
      var out := LocalizedRefs(s, i, fetch);
      var paths := LocalPaths(FindImageUrls(s, i), fetch);
      if MatchAt(s, i).None? {
        NoRefStep(s, i, fetch);
        NoRefPathsStep(s, i);
        LocalizedRefsShowsEveryPath(s, i + 1, fetch);
        forall k | 0 <= k < |paths| ensures Contains(out, Marker + paths[k] + ")") {
          ContainsInLonger(LocalizedRefs(s, i + 1, fetch), [s[i]], Marker + paths[k] + ")");
        }
      } else {
        var m := MatchAt(s, i).value;
        RefStep(s, i, fetch);
        RefPathsStep(s, i, fetch);
        LocalizedRefsShowsEveryPath(s, m.end, fetch);
        var head := Marker + SaveRemoteImage(m.url, fetch) + ")";
        var rest := LocalizedRefs(s, m.end, fetch);
        var saved := SavedPath(m.url, fetch);
        var tailPaths := LocalPaths(FindImageUrls(s, m.end), fetch);
        forall k | 0 <= k < |paths| ensures Contains(out, Marker + paths[k] + ")") {
          if k < |saved| {
            assert Marker + paths[k] + ")" == head;
            ContainsAt(out, head, 0);
          } else {
            assert paths[k] == tailPaths[k - |saved|];
            ContainsInLonger(rest, head, Marker + paths[k] + ")");
          }
        }
      }
    }
  }

  /** A reference whose URL was not saved is kept as it is. */
  lemma UnsavedRefKept(s: string, i: nat, fetch: Fetcher)
    requires i < |s| && MatchAt(s, i).Some?
    requires SavedPath(MatchAt(s, i).value.url, fetch) == []
    requires LocalizedRefs(s, MatchAt(s, i).value.end, fetch) == s[MatchAt(s, i).value.end..]
    ensures LocalizedRefs(s, i, fetch) == s[i..]
  {
    var m := MatchAt(s, i).value;
    assert LocalizedRefs(s, i, fetch) == Marker + m.url + ")" + s[m.end..] by {
      RefStep(s, i, fetch);
      assert SaveRemoteImage(m.url, fetch) == m.url;
    }
    assert s[i..] == Marker + m.url + ")" + s[m.end..] by {
      MatchAtShape(s, i);
      assert s[i..] == s[i..m.end] + s[m.end..];
    }
  }

  /** A character where no reference starts is kept before a kept rest. */
  lemma UnmatchedCharKept(s: string, i: nat, fetch: Fetcher)
    requires i < |s| && MatchAt(s, i).None?
    requires LocalizedRefs(s, i + 1, fetch) == s[i + 1..]
    ensures LocalizedRefs(s, i, fetch) == s[i..]
  {
    NoRefStep(s, i, fetch);
    assert s[i..] == [s[i]] + s[i + 1..];
  }

  /** When no URL is saved, the text is kept as it is. */
  lemma {:induction false} LocalizedRefsKeepsUnsaved(s: string, i: nat, fetch: Fetcher)
    requires i <= |s| && LocalPaths(FindImageUrls(s, i), fetch) == []
    ensures LocalizedRefs(s, i, fetch) == s[i..]
    decreases |s| - i
  {
    if i < |s| {
      if MatchAt(s, i).None? {
        assert LocalPaths(FindImageUrls(s, i + 1), fetch) == [] by {
          assert FindImageUrls(s, i) == FindImageUrls(s, i + 1);
        }
        LocalizedRefsKeepsUnsaved(s, i + 1, fetch);
        UnmatchedCharKept(s, i, fetch);
      } else {
        var m := MatchAt(s, i).value;
        assert SavedPath(m.url, fetch) == [] && LocalPaths(FindImageUrls(s, m.end), fetch) == [] by {
          RefPathsStep(s, i, fetch);
        }
        LocalizedRefsKeepsUnsaved(s, m.end, fetch);
        UnsavedRefKept(s, i, fetch);
      }
    }
  }

  // ---------------------------------------------------------- idempotence

  /** The download oracle names files by stems without "!", as UUID hex digits are. */
  ghost predicate PlainStems(fetch: Fetcher) {
    forall u :: fetch(u).Response? ==> '!' !in fetch(u).stem
  }

  /** Every match starts with "!". */
  lemma MatchStartsWithBang(s: string, i: nat)
    requires i < |s| && s[i] != '!'
    ensures MatchAt(s, i).None?
  {
    if i + |Marker| <= |s| {
      assert s[i..][..|Marker|][0] == s[i];
    }
  }

  /** A character copied before a copied stretch extends it. */
  lemma PrependCopied(s: string, i: nat, j: nat, out: string, out': string, rest: string)
    requires i < j <= |s|
    requires out == [s[i]] + out' && out' == s[i + 1..j] + rest
    ensures out == s[i..j] + rest
  {
    assert s[i..j] == [s[i]] + s[i + 1..j];
  }

  /** Where the next reference at or after `i` starts, or the end of the text. */
  function NextRef(s: string, i: nat): (j: nat)
    requires i <= |s|
    ensures i <= j <= |s|
    ensures j < |s| ==> MatchAt(s, j).Some?
    decreases |s| - i
  {
    if i == |s| || MatchAt(s, i).Some? then i else NextRef(s, i + 1)
  }

  /** Up to the next reference the text is copied as it is. */
  lemma {:induction false} CopyUntilRef(s: string, i: nat, fetch: Fetcher)
    requires i <= |s|
    ensures LocalizedRefs(s, i, fetch) == s[i..NextRef(s, i)] + LocalizedRefs(s, NextRef(s, i), fetch)
    decreases |s| - i
  {
    var j := NextRef(s, i);
    if i < |s| && MatchAt(s, i).None? {
      CopyUntilRef(s, i + 1, fetch);
      NoRefStep(s, i, fetch);
      PrependCopied(s, i, j, LocalizedRefs(s, i, fetch), LocalizedRefs(s, i + 1, fetch), LocalizedRefs(s, j, fetch));
    } else {
      assert s[i..j] == [];
    }
  }

  /** Every match starts with "!", so a stretch without "!" is copied as it is. */
  lemma {:induction false} NoBangCopied(s: string, a: nat, b: nat, fetch: Fetcher)
    requires a <= b <= |s|
    requires forall q :: a <= q < b ==> s[q] != '!'
    ensures LocalizedRefs(s, a, fetch) == s[a..b] + LocalizedRefs(s, b, fetch)
    decreases b - a
  {
    if a < b {
      MatchStartsWithBang(s, a);
      NoRefStep(s, a, fetch);
      NoBangCopied(s, a + 1, b, fetch);
      PrependCopied(s, a, b, LocalizedRefs(s, a, fetch), LocalizedRefs(s, a + 1, fetch), LocalizedRefs(s, b, fetch));
    } else {
      assert s[a..b] == [];
    }
  }

  /** A block followed by the rest of a text, when the block stands at `o`, is the text from `o`. */
  lemma BlockThenRest(u: string, o: nat, e: nat, block: string, out: string, rest: string)
    requires o <= e <= |u| && u[o..e] == block
    requires out == block + rest && rest == u[e..]
    ensures out == u[o..]
  {
    assert u[o..] == u[o..e] + u[e..];
  }

  /** The scheme's length: 8 for "https://", 7 for "http://". */
  function SchemeLength(url: string): nat {
    if StartsWith(url, "https://") then 8 else 7
  }

  /** In a reference, no "!" follows the first character before the end of the scheme, and the ")" is none. */
  lemma RefBangFree(url: string)
    requires IsImageUrl(url)
    ensures var ref := Marker + url + ")";
      && ref[|ref| - 1] != '!'
      && forall d :: 0 < d < |Marker| + SchemeLength(url) ==> ref[d] != '!'
  {
    var ref := Marker + url + ")";
    var n := SchemeLength(url);
    forall d | 0 < d < |Marker| + n
      ensures ref[d] != '!'
    {
      if d < |Marker| {
        assert ref[d] == Marker[d];
      } else {
        assert ref[d] == url[d - |Marker|] == url[..n][d - |Marker|];
      }
    }
  }

  /** A URL cut after its scheme, then a whole reference, is again a URL the pattern captures. */
  lemma SpliceIsImageUrl(url: string, n: nat, url': string)
    requires IsImageUrl(url) && IsImageUrl(url') && SchemeLength(url) <= n <= |url|
    ensures IsImageUrl(url[..n] + Marker + url')
    ensures ')' !in url[..n]
  {
    var v := url[..n] + Marker + url';
    var sl := SchemeLength(url);
    assert v[..sl] == url[..n][..sl] == url[..sl];
    assert ')' !in url[..n] by {
      forall q | 0 <= q < n ensures url[..n][q] != ')' {
        assert url[..n][q] == url[q];
      }
    }
    forall q | 0 <= q < |v| ensures v[q] != ')' {
      if q < n {
        assert v[q] == url[..n][q];
      } else if q < n + |Marker| {
        assert v[q] == Marker[q - n];
      } else {
        assert v[q] == url'[q - n - |Marker|];
      }
    }
  }

  /** A reference that fits in text copied from `s[i..j]` is found at `i` in `s` too. */
  lemma RefInCopy(s: string, i: nat, j: nat, u: string, o: nat, url: string)
    requires i <= j <= |s| && o + (j - i) <= |u| && u[o..o + (j - i)] == s[i..j]
    requires IsImageUrl(url) && |Marker| + |url| + 1 <= j - i
    requires u[o..o + |Marker| + |url| + 1] == Marker + url + ")"
    ensures MatchAt(s, i).Some?
  {
    var len := |Marker| + |url| + 1;
    assert s[i..i + len] == u[o..o + len] by {
      assert s[i..i + len] == s[i..j][..len];
      assert u[o..o + len] == u[o..o + (j - i)][..len];
    }
    MatchAtFinds(s, i, url);
  }

  /** The part of a reference before its "!" at `d` is the marker and the URL's first characters. */
  lemma RefPrefix(u: string, o: nat, url: string, d: nat)
    requires IsImageUrl(url) && o + |Marker| + |url| + 1 <= |u|
    requires u[o..o + |Marker| + |url| + 1] == Marker + url + ")"
    requires 0 < d < |Marker| + |url| + 1 && u[o + d] == '!'
    ensures |Marker| + SchemeLength(url) <= d < |Marker| + |url|
    ensures u[o..o + d] == Marker + url[..d - |Marker|]
  {
    var ref := Marker + url + ")";
    assert ref[d] == u[o + d];
    RefBangFree(url);
    assert u[o..o + d] == u[o..o + |ref|][..d];
    assert ref[..d] == Marker + url[..d - |Marker|];
  }

  /**
   * A reference in `u` that runs past the copy of `s[i..j]` into the "!"
   * of the reference at `j` is, in `s`, one longer match at `i` whose URL
   * takes in that reference.
   */
  lemma RefRunsOn(s: string, i: nat, j: nat, e: nat, u: string, o: nat, url: string, url': string)
    requires i < j <= e <= |s| && o + (j - i) <= |u| && u[o..o + (j - i)] == s[i..j]
    requires IsImageUrl(url) && j - i < |Marker| + |url| + 1 && o + |Marker| + |url| + 1 <= |u|
    requires u[o..o + |Marker| + |url| + 1] == Marker + url + ")" && u[o + (j - i)] == '!'
    requires IsImageUrl(url') && s[j..e] == Marker + url' + ")"
    ensures MatchAt(s, i).Some?
  {
    var d := j - i;
    var n := d - |Marker|;
    assert |Marker| + SchemeLength(url) <= d < |Marker| + |url| && s[i..j] == Marker + url[..n] by {
      RefPrefix(u, o, url, d);
    }
    var v := url[..n] + Marker + url';
    assert IsImageUrl(v) by {
      SpliceIsImageUrl(url, n, url');
    }
    assert |v| == n + |Marker| + |url'| && e == i + |Marker| + |v| + 1;
    assert s[i..e] == Marker + v + ")" by {
      assert s[i..e] == s[i..j] + s[j..e];
    }
    MatchAtFinds(s, i, v);
  }

  /**
   * A match at `o` in text that begins with text copied from `s[i..j]`,
   * followed by nothing or by the rewriting of the reference at `j`, is
   * also a match at `i` in `s`: it either lies in the copy, or runs on
   * into the reference at `j`.
   */
  lemma MatchInCopy(s: string, i: nat, j: nat, u: string, o: nat, rest: string)
    requires i < j <= |s| && o <= |u| && u[o..] == s[i..j] + rest
    requires MatchAt(u, o).Some?
    requires j == |s| ==> rest == []
    requires j < |s| ==> MatchAt(s, j).Some? && |rest| > 0 && rest[0] == '!'
    ensures MatchAt(s, i).Some?
  {
    var url := MatchAt(u, o).value.url;
    MatchAtShape(u, o);
    var d := j - i;
    assert u[o..o + d] == s[i..j] by {
      assert u[o..o + d] == u[o..][..d];
    }
    if |Marker| + |url| + 1 <= d {
      RefInCopy(s, i, j, u, o, url);
    } else {
      assert |u| - o == d + |rest|;
      assert u[o + d] == '!' by {
        assert u[o + d] == u[o..][d] == rest[0];
      }
      var ms := MatchAt(s, j).value;
      MatchAtShape(s, j);
      RefRunsOn(s, i, j, ms.end, u, o, url, ms.url);
    }
  }

  /** Text that starts with the marker starts with "!". */
  lemma MarkerFirst(out: string, a: string, b: string, c: string)
    requires out == Marker + a + b + c
    ensures |out| > 0 && out[0] == '!'
  {
    assert out[0] == Marker[0];
  }

  /** Rewriting from the next reference gives nothing at the end of the text, and otherwise starts with "!". */
  lemma RewriteFromRef(s: string, j: nat, fetch: Fetcher)
    requires j <= |s| && (j < |s| ==> MatchAt(s, j).Some?)
    ensures j == |s| ==> LocalizedRefs(s, j, fetch) == []
    ensures j < |s| ==> |LocalizedRefs(s, j, fetch)| > 0 && LocalizedRefs(s, j, fetch)[0] == '!'
  {
    if j < |s| {
      RefStep(s, j, fetch);
      var m := MatchAt(s, j).value;
      MarkerFirst(LocalizedRefs(s, j, fetch), SaveRemoteImage(m.url, fetch), ")", LocalizedRefs(s, m.end, fetch));
    }
  }

  /**
   * Rewriting creates no reference: where the text has none, the rewritten
   * text (here standing at `o` in `u`) has none either.
   */
  lemma NoNewMatch(s: string, i: nat, u: string, o: nat, fetch: Fetcher)
    requires i < |s| && MatchAt(s, i).None?
    requires o <= |u| && u[o..] == LocalizedRefs(s, i, fetch)
    ensures MatchAt(u, o).None?
  {
    var j := NextRef(s, i);
    CopyUntilRef(s, i, fetch);
    assert j == NextRef(s, i + 1);
    RewriteFromRef(s, j, fetch);
    if MatchAt(u, o).Some? {
      MatchInCopy(s, i, j, u, o, LocalizedRefs(s, j, fetch));
      assert false;
    }
  }

  /**
   * A saved reference becomes `![image](/uploads/<stem><ext>)`: a "/"
   * stands where the scheme would, and, with a stem without "!", no
   * character but the first is "!".
   */
  lemma SavedBlockShape(url: string, fetch: Fetcher)
    requires Saved(url, fetch) && PlainStems(fetch)
    ensures var block := Marker + SaveRemoteImage(url, fetch) + ")";
      && |block| > |Marker| && block[|Marker|] == '/'
      && forall q :: 0 < q < |block| ==> block[q] != '!'
  {
    SaveRemoteImageSpec(url, fetch);
    var stem := fetch(url).stem;
    var ext := ImageExt(fetch(url).contentType);
    var local := SaveRemoteImage(url, fetch);
    var block := Marker + local + ")";
    assert local == UploadsPrefix + stem + ext;
    assert block[|Marker|] == local[0] == '/';
    forall q | 0 < q < |block|
      ensures block[q] != '!'
    {
      if q < |Marker| {
        assert block[q] == Marker[q];
      } else if q < |Marker| + |UploadsPrefix| {
        assert block[q] == UploadsPrefix[q - |Marker|];
      } else if q < |Marker| + |UploadsPrefix| + |stem| {
        assert block[q] == stem[q - |Marker| - |UploadsPrefix|];
      } else if q < |block| - 1 {
        assert block[q] == ext[q - |Marker| - |UploadsPrefix| - |stem|];
      }
    }
  }

  /** Where such a block stands, no match starts, and no "!" follows its first character. */
  lemma InertBlockAt(u: string, o: nat, block: string)
    requires o + |block| <= |u| && u[o..o + |block|] == block
    requires |block| > |Marker| && block[|Marker|] == '/'
    requires forall q :: 0 < q < |block| ==> block[q] != '!'
    ensures MatchAt(u, o).None?
    ensures forall q :: o + 1 <= q < o + |block| ==> u[q] != '!'
  {
    assert u[o + |Marker|] == block[|Marker|];
    assert SchemeEnd(u, o + |Marker|).None? by {
      assert u[o + |Marker|..][0] == '/';
    }
    forall q | o + 1 <= q < o + |block|
      ensures u[q] != '!'
    {
      assert u[q] == block[q - o];
    }
  }

  /**
   * The rewriting of the reference at `i`: its URL, the text it becomes,
   * and where the reference ends. An unsaved reference is kept; a saved
   * one becomes an inert block.
   */
  lemma RefBlock(s: string, i: nat, fetch: Fetcher) returns (url: string, block: string, end: nat)
    requires i < |s| && MatchAt(s, i).Some?
    ensures MatchAt(s, i) == Some(Match(url, end)) && IsImageUrl(url) && i < end <= |s|
    ensures LocalizedRefs(s, i, fetch) == block + LocalizedRefs(s, end, fetch)
    ensures !Saved(url, fetch) ==> block == Marker + url + ")"
    ensures Saved(url, fetch) && PlainStems(fetch) ==>
      && |block| > |Marker| && block[|Marker|] == '/'
      && forall q :: 0 < q < |block| ==> block[q] != '!'
  {
    var m := MatchAt(s, i).value;
    url, end := m.url, m.end;
    MatchAtShape(s, i);
    RefStep(s, i, fetch);
    block := Marker + SaveRemoteImage(url, fetch) + ")";
    SaveRemoteImageSpec(url, fetch);
    if Saved(url, fetch) && PlainStems(fetch) {
      SavedBlockShape(url, fetch);
    }
  }

  /** A text equal from `o` on to a block and a rest splits there. */
  lemma SplitAfterBlock(u: string, o: nat, block: string, rest: string)
    requires o <= |u| && u[o..] == block + rest
    ensures o + |block| <= |u| && u[o..o + |block|] == block && u[o + |block|..] == rest
  {
    assert u[o..o + |block|] == u[o..][..|block|];
    assert u[o + |block|..] == u[o..][|block|..];
  }

  /** An unsaved reference at `o`, followed by text left as it is, is left as it is. */
  lemma UnsavedRefFixed(u: string, o: nat, e: nat, url: string, fetch: Fetcher)
    requires IsImageUrl(url) && !Saved(url, fetch) && e == o + |Marker| + |url| + 1 && e <= |u|
    requires u[o..e] == Marker + url + ")" && LocalizedRefs(u, e, fetch) == u[e..]
    ensures LocalizedRefs(u, o, fetch) == u[o..]
  {
    MatchAtFinds(u, o, url);
    var url', block', e' := RefBlock(u, o, fetch);
    BlockThenRest(u, o, e, Marker + url + ")", LocalizedRefs(u, o, fetch), LocalizedRefs(u, e, fetch));
  }

  /** Text from `o` that no match starts at and no "!" follows up to `e`, followed by text left as it is, is left as it is. */
  lemma InertBlockFixed(u: string, o: nat, e: nat, fetch: Fetcher)
    requires o < e <= |u| && MatchAt(u, o).None?
    requires forall q :: o + 1 <= q < e ==> u[q] != '!'
    requires LocalizedRefs(u, e, fetch) == u[e..]
    ensures LocalizedRefs(u, o, fetch) == u[o..]
  {
    NoRefStep(u, o, fetch);
    NoBangCopied(u, o + 1, e, fetch);
    PrependCopied(u, o, e, LocalizedRefs(u, o, fetch), LocalizedRefs(u, o + 1, fetch), LocalizedRefs(u, e, fetch));
    BlockThenRest(u, o, e, u[o..e], u[o..e] + LocalizedRefs(u, e, fetch), LocalizedRefs(u, e, fetch));
  }

  /** A copied character: the rewritten text has no match there, and the rest follows it. */
  lemma CopiedCharSplit(s: string, i: nat, u: string, o: nat, fetch: Fetcher)
    requires i < |s| && MatchAt(s, i).None?
    requires o <= |u| && u[o..] == LocalizedRefs(s, i, fetch)
    ensures o < |u| && MatchAt(u, o).None? && u[o + 1..] == LocalizedRefs(s, i + 1, fetch)
  {
    NoRefStep(s, i, fetch);
    NoNewMatch(s, i, u, o, fetch);
    SplitAfterBlock(u, o, [s[i]], LocalizedRefs(s, i + 1, fetch));
  }

  /**
   * A rewritten reference standing at `o`, up to `e`: a saved one is inert,
   * an unsaved one is the reference itself; the rest of the rewriting
   * follows from `e`.
   */
  lemma RefSplit(s: string, i: nat, u: string, o: nat, fetch: Fetcher) returns (url: string, e: nat, end: nat)
    requires i < |s| && MatchAt(s, i).Some? && PlainStems(fetch)
    requires o <= |u| && u[o..] == LocalizedRefs(s, i, fetch)
    ensures i < end <= |s| && o < e <= |u| && u[e..] == LocalizedRefs(s, end, fetch)
    ensures Saved(url, fetch) ==> MatchAt(u, o).None? && forall q :: o + 1 <= q < e ==> u[q] != '!'
    ensures !Saved(url, fetch) ==>
      IsImageUrl(url) && e == o + |Marker| + |url| + 1 && u[o..e] == Marker + url + ")"
  {
    var block;
    url, block, end := RefBlock(s, i, fetch);
    e := o + |block|;
    SplitAfterBlock(u, o, block, LocalizedRefs(s, end, fetch));
    if Saved(url, fetch) {
      InertBlockAt(u, o, block);
    }
  }

  /**
   * Rewritten text is left as it is by a second rewriting: `u` from `o` on
   * holds the rewriting of `s` from `i`, and rewriting `u` from `o`
   * changes nothing. Saved references now point at local paths, which the
   * pattern does not match; unsaved ones are matched again and fail again.
   */
  lemma {:induction false} RewrittenIsFixed(s: string, i: nat, u: string, o: nat, fetch: Fetcher)
    requires i <= |s| && o <= |u| && u[o..] == LocalizedRefs(s, i, fetch) && PlainStems(fetch)
    ensures LocalizedRefs(u, o, fetch) == u[o..]
    decreases |s| - i
  {
    if i == |s| {
      assert |u[o..]| == 0;
    } else if MatchAt(s, i).None? {
      CopiedCharSplit(s, i, u, o, fetch);
      RewrittenIsFixed(s, i + 1, u, o + 1, fetch);
      InertBlockFixed(u, o, o + 1, fetch);
    } else {
      var url, e, end := RefSplit(s, i, u, o, fetch);
      RewrittenIsFixed(s, end, u, e, fetch);
      if Saved(url, fetch) {
        InertBlockFixed(u, o, e, fetch);
      } else {
        UnsavedRefFixed(u, o, e, url, fetch);
      }
    }
  }

  /**
   * The corrected rewriting is idempotent: rewriting its result again
   * downloads nothing new and changes nothing.
   */
  lemma LocalizedRefsIdempotent(s: string, fetch: Fetcher)
    requires PlainStems(fetch)
    ensures LocalizedRefs(LocalizedRefs(s, 0, fetch), 0, fetch) == LocalizedRefs(s, 0, fetch)
  {
    var t := LocalizedRefs(s, 0, fetch);
    assert t[0..] == t;
    RewrittenIsFixed(s, 0, t, 0, fetch);
  }

  // ------------------------------------------------------- counterexample

  /** Two image URLs, the first a prefix of the second, and where they are saved. */
  const ShortUrl: string := "http://a"
  const LongUrl: string := "http://ab"
  const ShortPath: string := "/uploads/u1.png"
  const LongPath: string := "/uploads/u2.png"

  /** A reply with one reference to each URL. */
  const PrefixDoc: string := Marker + ShortUrl + ")" + Marker + LongUrl + ")"

  /** Both downloads succeed, as PNG files saved under the stems "u1" and "u2". */
  function TwoDownloads(url: string): FetchReply {
    Response(200, "image/png", if url == ShortUrl then "u1" else "u2")
  }

  lemma TwoDownloadsPaths()
    ensures SaveRemoteImage(ShortUrl, TwoDownloads) == ShortPath
    ensures SaveRemoteImage(LongUrl, TwoDownloads) == LongPath
  {
    ContainsHasChar("image/png", "jpeg", 0);
    ContainsHasChar("image/png", "webp", 0);
  }

  lemma PrefixDocMatches()
    ensures MatchAt(PrefixDoc, 0) == Some(Match(ShortUrl, 18))
    ensures MatchAt(PrefixDoc, 18) == Some(Match(LongUrl, 37))
  {
    assert PrefixDoc[0..18] == Marker + ShortUrl + ")";
    MatchAtFinds(PrefixDoc, 0, ShortUrl);
    assert PrefixDoc[18..37] == Marker + LongUrl + ")";
    MatchAtFinds(PrefixDoc, 18, LongUrl);
  }

  lemma PrefixDocRefs()
    ensures FindImageUrls(PrefixDoc, 0) == [ShortUrl, LongUrl]
  {
    PrefixDocMatches();
    assert |PrefixDoc| == 37;
    assert FindImageUrls(PrefixDoc, 18) == [LongUrl];
  }

  /** The first replacement rewrites both occurrences of the short URL. */
  lemma PrefixDocFirstReplace()
    ensures ReplaceAll(PrefixDoc, ShortUrl, ShortPath) == Marker + ShortPath + ")" + Marker + ShortPath + "b)"
  {
    var tail := ")" + Marker + (ShortUrl + "b)");
    assert LongUrl == ShortUrl + "b";
    assert PrefixDoc == Marker + (ShortUrl + tail);
    ReplaceSkipsPrefix(Marker, ShortUrl + tail, ShortUrl, ShortPath);
    ReplaceAtHead(ShortUrl, tail, ShortPath);
    ReplaceSkipsPrefix(")" + Marker, ShortUrl + "b)", ShortUrl, ShortPath);
    ReplaceAtHead(ShortUrl, "b)", ShortPath);
    ReplaceSkipsPrefix("b)", [], ShortUrl, ShortPath);
    assert "b)" + [] == "b)";
  }

  /** After it, the long URL no longer occurs, so its replacement changes nothing. */
  lemma PrefixDocSecondReplace()
    ensures var t := Marker + ShortPath + ")" + Marker + ShortPath + "b)";
      ReplaceAll(t, LongUrl, LongPath) == t
  {
    var t := Marker + ShortPath + ")" + Marker + ShortPath + "b)";
    assert 'h' !in t;
    ReplaceSkipsPrefix(t, [], LongUrl, LongPath);
    assert t + [] == t;
  }

  /** The as-written rewriting of the reply: both references now point at the short URL's file. */
  const BrokenDoc: string := Marker + ShortPath + ")" + Marker + ShortPath + "b)"

  lemma PrefixDocAsWritten()
    ensures LocalizedText(PrefixDoc, [ShortUrl, LongUrl], TwoDownloads) == BrokenDoc
    ensures LocalPaths([ShortUrl, LongUrl], TwoDownloads) == [ShortPath, LongPath]
  {
    TwoDownloadsPaths();
    PrefixDocFirstReplace();
    PrefixDocSecondReplace();
    assert [ShortUrl, LongUrl][1..] == [LongUrl] && [LongUrl][1..] == [];
    assert LocalizedText(BrokenDoc, [LongUrl], TwoDownloads) == BrokenDoc;
    assert ShortPath[0] != ShortUrl[0] && LongPath[0] != LongUrl[0];
    assert SavedPath(ShortUrl, TwoDownloads) == [ShortPath];
    assert SavedPath(LongUrl, TwoDownloads) == [LongPath];
    assert LocalPaths([LongUrl], TwoDownloads) == [LongPath];
  }

  /** No reference in the rewritten reply points at the long URL's file. */
  lemma BrokenDocLacksLongPath()
    ensures !Contains(BrokenDoc, Marker + LongPath + ")")
  {
    assert (Marker + LongPath + ")")[19] == '2';
    assert '2' !in Marker && '2' !in ShortPath;
    ContainsHasChar(BrokenDoc, Marker + LongPath + ")", 19);
  }

  /**
   * As written, saving the short URL also rewrites the long one into the
   * broken "/uploads/u1.pngb"; the long URL's path is still reported, yet no
   * reference points at it.
   */
  lemma PrefixUrlBreaksReference()
    ensures var urls := FindImageUrls(PrefixDoc, 0);
      && LocalizedText(PrefixDoc, urls, TwoDownloads) == BrokenDoc
      && LocalPaths(urls, TwoDownloads) == [ShortPath, LongPath]
      && !Contains(LocalizedText(PrefixDoc, urls, TwoDownloads), Marker + LongPath + ")")
  {
    PrefixDocRefs();
    PrefixDocAsWritten();
    BrokenDocLacksLongPath();
  }

  /** Rewriting reference by reference gives each reference its own path on the same input. */
  lemma PrefixDocByReference()
    ensures LocalizedRefs(PrefixDoc, 0, TwoDownloads) == Marker + ShortPath + ")" + Marker + LongPath + ")"
  {
    PrefixDocMatches();
    TwoDownloadsPaths();
    assert LocalizedRefs(PrefixDoc, 37, TwoDownloads) == [];
  }

  // ---------------------------------------- as-written rewriting, twice

  /** Every match starts with "!", so a stretch without "!" yields no URL. */
  lemma {:induction false} NoBangNoUrls(s: string, i: nat, j: nat)
    requires i <= j <= |s| && '!' !in s[i..j]
    ensures FindImageUrls(s, i) == FindImageUrls(s, j)
    decreases j - i
  {
    if i < j {
      assert s[i] == s[i..j][0];
      MatchStartsWithBang(s, i);
      NoRefPathsStep(s, i);
      assert s[i + 1..j] == s[i..j][1..];
      NoBangNoUrls(s, i + 1, j);
    }
  }

  /** A reference whose target starts with "/" (a local file) is not matched. */
  lemma LocalRefNoMatch(s: string, i: nat)
    requires i + |Marker| < |s| && s[i..i + |Marker|] == Marker && s[i + |Marker|] == '/'
    ensures MatchAt(s, i).None?
  {
    var j := i + |Marker|;
    assert s[j..][0] == '/';
  }

  /** A reference at `i`, followed by `rest`, yields its URL first. */
  lemma RefThen(s: string, i: nat, url: string, rest: string, e: nat)
    requires i <= |s| && s[i..] == Marker + (url + (")" + rest)) && IsImageUrl(url)
    requires e == i + |Marker| + |url| + 1
    ensures e <= |s| && FindImageUrls(s, i) == [url] + FindImageUrls(s, e) && s[e..] == rest
  {
    assert Marker + (url + (")" + rest)) == (Marker + url + ")") + rest;
    BlockAt(s, i, Marker + url + ")", rest, e);
    MatchAtFinds(s, i, url);
  }

  /** The text from `i` splits into a block and the rest after it. */
  lemma BlockAt(s: string, i: nat, block: string, rest: string, e: nat)
    requires i <= |s| && s[i..] == block + rest && e == i + |block|
    ensures e <= |s| && s[i..e] == block && s[e..] == rest
  {
    assert s[i..e] == s[i..][..e - i];
    assert s[e..] == s[i..][e - i..];
  }

  /** A reference to a local path yields no URL. */
  lemma LocalRefBlock(s: string, i: nat, path: string, e: nat)
    requires e <= |s| && e == i + |Marker| + |path| && s[i..e] == Marker + path
    requires path != [] && path[0] == '/' && '!' !in path
    ensures FindImageUrls(s, i) == FindImageUrls(s, e)
  {
    var ref := Marker + path;
    assert MatchAt(s, i).None? by {
      assert s[i..i + |Marker|] == ref[..|Marker|];
      assert s[i + |Marker|] == ref[|Marker|];
      LocalRefNoMatch(s, i);
    }
    NoRefPathsStep(s, i);
    assert '!' !in s[i + 1..e] by {
      assert s[i + 1..e] == ref[1..];
      assert Marker[1..] == "[image](";
      assert ref[1..] == Marker[1..] + path;
    }
    NoBangNoUrls(s, i + 1, e);
  }

  /** A reference to a local path, followed by `rest`, yields no URL. */
  lemma LocalRefThen(s: string, i: nat, path: string, rest: string, e: nat)
    requires i <= |s| && s[i..] == Marker + (path + rest)
    requires path != [] && path[0] == '/' && '!' !in path
    requires e == i + |Marker| + |path|
    ensures e <= |s| && FindImageUrls(s, i) == FindImageUrls(s, e) && s[e..] == rest
  {
    assert Marker + (path + rest) == (Marker + path) + rest;
    BlockAt(s, i, Marker + path, rest, e);
    LocalRefBlock(s, i, path, e);
  }

  /** A character other than "!", followed by `rest`, yields no URL. */
  lemma CharThen(s: string, i: nat, c: char, rest: string)
    requires i <= |s| && s[i..] == [c] + rest && c != '!'
    ensures i < |s| && FindImageUrls(s, i) == FindImageUrls(s, i + 1) && s[i + 1..] == rest
  {
    assert s[i] == s[i..][0];
    MatchStartsWithBang(s, i);
    NoRefPathsStep(s, i);
    assert s[i + 1..] == s[i..][1..];
  }

  /** A reference at `i` that ends the text yields its URL alone. */
  lemma LastRef(s: string, i: nat, url: string)
    requires i <= |s| && s[i..] == Marker + (url + ")") && IsImageUrl(url)
    ensures FindImageUrls(s, i) == [url]
  {
    assert url + ")" == url + (")" + []);
    RefThen(s, i, url, [], i + |Marker| + |url| + 1);
  }

  /** Two references in a row yield their two URLs. */
  lemma TwoRefsUrls(s: string, u1: string, u2: string)
    requires IsImageUrl(u1) && IsImageUrl(u2)
    requires s == Marker + (u1 + (")" + (Marker + (u2 + ")"))))
    ensures FindImageUrls(s, 0) == [u1, u2]
  {
    var e := |Marker| + |u1| + 1;
    assert e <= |s| && FindImageUrls(s, 0) == [u1] + FindImageUrls(s, e) && s[e..] == Marker + (u2 + ")") by {
      assert s[0..] == s;
      RefThen(s, 0, u1, Marker + (u2 + ")"), e);
    }
    LastRef(s, e, u2);
  }

  /** A reference to a local path followed by a last reference yields the last URL alone. */
  lemma LocalThenLastRef(s: string, i: nat, path: string, url: string)
    requires path != [] && path[0] == '/' && '!' !in path && IsImageUrl(url)
    requires i <= |s| && s[i..] == Marker + (path + (Marker + (url + ")")))
    ensures FindImageUrls(s, i) == [url]
  {
    var e := i + |Marker| + |path|;
    assert e <= |s| && FindImageUrls(s, i) == FindImageUrls(s, e) && s[e..] == Marker + (url + ")") by {
      LocalRefThen(s, i, path, Marker + (url + ")"), e);
    }
    LastRef(s, e, url);
  }

  /** Once the outer reference starts with a local path, only the inner URL is found. */
  lemma ExposedUrls(s: string, path: string, url: string)
    requires path != [] && path[0] == '/' && '!' !in path && IsImageUrl(url)
    requires s == Marker + (path + (")" + (Marker + (path + (Marker + (url + ")"))))))
    ensures FindImageUrls(s, 0) == [url]
  {
    var n := |Marker| + |path|;
    var r := Marker + (path + (Marker + (url + ")")));
    assert n < |s| && FindImageUrls(s, 0) == FindImageUrls(s, n + 1) && s[n + 1..] == r by {
      assert s[0..] == s;
      LocalRefThen(s, 0, path, ")" + r, n);
      CharThen(s, n, ')', r);
    }
    LocalThenLastRef(s, n + 1, path, url);
  }

  /** Replacing `c` in the nested reply rewrites its two occurrences and leaves the inner URL. */
  lemma ReplaceNested(c: string, d: string, p: string)
    requires c != [] && c[0] == 'h' && !Contains(d + ")", c)
    ensures ReplaceAll(Marker + (c + (")" + (Marker + (c + (Marker + (d + ")")))))), c, p)
      == Marker + (p + (")" + (Marker + (p + (Marker + (d + ")"))))))
  {
    assert 'h' !in Marker && 'h' !in ")";
    ReplaceAbsent(d + ")", c, p);
    ReplaceSkipsPrefix(Marker, d + ")", c, p);
    ReplaceAtHead(c, Marker + (d + ")"), p);
    ReplaceSkipsPrefix(Marker, c + (Marker + (d + ")")), c, p);
    ReplaceSkipsPrefix(")", Marker + (c + (Marker + (d + ")"))), c, p);
    ReplaceAtHead(c, ")" + (Marker + (c + (Marker + (d + ")")))), p);
    ReplaceSkipsPrefix(Marker, c + (")" + (Marker + (c + (Marker + (d + ")"))))), c, p);
  }

  /** Replacing `d` in the exposed reply rewrites the inner reference only. */
  lemma ReplaceExposed(p: string, d: string, q: string)
    requires d != [] && d[0] == 'h' && 'h' !in p
    ensures ReplaceAll(Marker + (p + (")" + (Marker + (p + (Marker + (d + ")")))))), d, q)
      == Marker + (p + (")" + (Marker + (p + (Marker + (q + ")"))))))
  {
    assert 'h' !in Marker && 'h' !in ")";
    ReplaceSkipsPrefix(")", [], d, q);
    assert ")" + [] == ")";
    ReplaceAtHead(d, ")", q);
    ReplaceSkipsPrefix(Marker, d + ")", d, q);
    ReplaceSkipsPrefix(p, Marker + (d + ")"), d, q);
    ReplaceSkipsPrefix(Marker, p + (Marker + (d + ")")), d, q);
    ReplaceSkipsPrefix(")", Marker + (p + (Marker + (d + ")"))), d, q);
    ReplaceSkipsPrefix(p, ")" + (Marker + (p + (Marker + (d + ")")))), d, q);
    ReplaceSkipsPrefix(Marker, p + (")" + (Marker + (p + (Marker + (d + ")"))))), d, q);
  }

  /** An image URL that a saved URL is a prefix of, and the image its own reference hides. */
  const InnerUrl: string := "http://d"
  const InnerPath: string := "/uploads/u2.png"
  const OuterUrl: string := ShortUrl + (Marker + InnerUrl)

  /**
   * A reply with a reference to the short URL, then a reference whose URL
   * runs on (no ")" in between) into a reference to the inner URL.
   */
  const NestedDoc: string := Marker + (ShortUrl + (")" + (Marker + (OuterUrl + ")"))))

  /** Only the short and the inner URL download, as PNG files saved under "u1" and "u2". */
  function SavesTwo(url: string): FetchReply {
    if url == ShortUrl then Response(200, "image/png", "u1")
    else if url == InnerUrl then Response(200, "image/png", "u2")
    else FetchFailed
  }

  lemma SavesTwoPaths()
    ensures SaveRemoteImage(ShortUrl, SavesTwo) == ShortPath
    ensures SaveRemoteImage(InnerUrl, SavesTwo) == InnerPath
    ensures SaveRemoteImage(OuterUrl, SavesTwo) == OuterUrl
    ensures PlainStems(SavesTwo)
  {
    ContainsHasChar("image/png", "jpeg", 0);
    ContainsHasChar("image/png", "webp", 0);
    assert |OuterUrl| != |ShortUrl| && |OuterUrl| != |InnerUrl|;
  }

  lemma NestedDocRefs()
    ensures FindImageUrls(NestedDoc, 0) == [ShortUrl, OuterUrl]
  {
    TwoRefsUrls(NestedDoc, ShortUrl, OuterUrl);
  }

  /** The reply once the short URL is replaced: the outer reference now starts with a local path. */
  const Exposed: string := Marker + (ShortPath + (")" + (Marker + (ShortPath + (Marker + (InnerUrl + ")"))))))

  /** The first pass: the short URL is replaced everywhere, and the outer URL, no longer present, is not saved. */
  lemma NestedDocFirstPass()
    ensures LocalizedText(NestedDoc, [ShortUrl, OuterUrl], SavesTwo) == Exposed
  {
    SavesTwoPaths();
    ContainsHasChar(InnerUrl + ")", ShortUrl, 7);
    ReplaceNested(ShortUrl, InnerUrl, ShortPath);
    assert OuterUrl + ")" == ShortUrl + (Marker + (InnerUrl + ")"));
    assert NestedDoc == Marker + (ShortUrl + (")" + (Marker + (ShortUrl + (Marker + (InnerUrl + ")"))))));
    assert ShortPath != ShortUrl;
    assert ReplaceAll(NestedDoc, ShortUrl, ShortPath) == Exposed;
    assert LocalizedText(NestedDoc, [ShortUrl, OuterUrl], SavesTwo) == LocalizedText(Exposed, [OuterUrl], SavesTwo);
    assert [ShortUrl, OuterUrl][1..] == [OuterUrl] && [OuterUrl][1..] == [];
  }

  /** The second pass finds the inner reference, which the first one could not see. */
  lemma ExposedRefs()
    ensures FindImageUrls(Exposed, 0) == [InnerUrl]
  {
    ExposedUrls(Exposed, ShortPath, InnerUrl);
  }

  /** The second pass replaces the inner URL. */
  lemma ExposedSecondPass()
    ensures LocalizedText(Exposed, [InnerUrl], SavesTwo)
      == Marker + (ShortPath + (")" + (Marker + (ShortPath + (Marker + (InnerPath + ")"))))))
  {
    SavesTwoPaths();
    ReplaceExposed(ShortPath, InnerUrl, InnerPath);
    assert [InnerUrl][1..] == [];
  }

  /**
   * As written, localising is not idempotent, even with stems free of "!":
   * replacing the short URL inside the outer reference's URL ends that
   * reference early and exposes the inner one, which a second pass then
   * downloads and rewrites. The per-reference rewriting is idempotent on the
   * same input (`LocalizedRefsIdempotent`).
   */
  lemma AsWrittenNotIdempotent()
    ensures PlainStems(SavesTwo)
    ensures var t := LocalizedText(NestedDoc, FindImageUrls(NestedDoc, 0), SavesTwo);
      && LocalizedText(t, FindImageUrls(t, 0), SavesTwo) != t
      && LocalPaths(FindImageUrls(t, 0), SavesTwo) == [InnerPath]
    ensures var t := LocalizedRefs(NestedDoc, 0, SavesTwo);
      LocalizedRefs(t, 0, SavesTwo) == t
  {
    SavesTwoPaths();
    NestedDocRefs();
    NestedDocFirstPass();
    ExposedRefs();
    ExposedSecondPass();
    assert SavedPath(InnerUrl, SavesTwo) == [InnerPath];
    assert LocalPaths([InnerUrl], SavesTwo) == [InnerPath];
    LocalizedRefsIdempotent(NestedDoc, SavesTwo);
  }
}
