/**
 * Images in the Gemini provider (backend/providers/gemini_media.py): the
 * Markdown that shows image URLs returned by the API, the inline images
 * read out of a response, and where a generated image is saved.
 */
module GeminiMedia {
  import opened Wrappers
  import opened Text
  import Base64
  import GeminiResponse
  import GeminiMessages

  // ------------------------------------------------------- image Markdown

  /**
   * An image's `image_url` (else `imageUrl`) value: missing or falsy, a dict
   * with its "url" and "uri" fields, or some other truthy value.
   */
  datatype ImageUrl = NoImageUrl | UrlFields(url: Option<string>, uri: Option<string>) | UrlValue(s: string)

  /** An image record as the API returns it: a dict or an SDK object, with its image_url and its own url. */
  datatype Image = Image(isDict: bool, imageUrl: ImageUrl, url: Option<string>)

  /** `a or b or ""` on two optional strings. */
  function FirstText(a: Option<string>, b: Option<string>): string {
    if GeminiResponse.Present(a) then a.value
    else if GeminiResponse.Present(b) then b.value
    else ""
  }

  /**
   * `_extract_url` as written. For a dict, a missing image_url becomes
   * `{}`, which is a dict, so the image's own "url" is never consulted.
   */
  function ExtractUrlAsWritten(img: Image): (u: string)
    ensures img.isDict && img.imageUrl.NoImageUrl? ==> u == ""
    ensures u == ""
      || (img.imageUrl.UrlFields? && (img.imageUrl.url == Some(u) || img.imageUrl.uri == Some(u)))
      || (img.imageUrl.UrlValue? && u == img.imageUrl.s)
      || img.url == Some(u)
  {
    if img.isDict then
      match img.imageUrl
      case NoImageUrl => FirstText(None, None)
      case UrlFields(u, v) => FirstText(u, v)
      case UrlValue(s) => if s != "" then s else FirstText(img.url, None)
    else
      match img.imageUrl
      case UrlFields(u, v) => FirstText(u, v)
      case UrlValue(s) => if s != "" then s else FirstText(img.url, None)
      case NoImageUrl => FirstText(img.url, None)
  }

  /**
   * `_extract_url` as evidently intended: image_url first (a dict's url,
   * then its uri; another value as it is), then the image's own url, for
   * dicts and SDK objects alike.
   */
  function ExtractUrl(img: Image): (u: string)
    ensures img.imageUrl.UrlFields? ==> u == FirstText(img.imageUrl.url, img.imageUrl.uri)
    ensures img.imageUrl.UrlValue? && img.imageUrl.s != "" ==> u == img.imageUrl.s
    ensures img.imageUrl.NoImageUrl? ==> u == FirstText(img.url, None)
  {
    match img.imageUrl
    case UrlFields(u, v) => FirstText(u, v)
    case UrlValue(s) => if s != "" then s else FirstText(img.url, None)
    case NoImageUrl => FirstText(img.url, None)
  }

  /** The two readings differ only on a dict without image_url. */
  lemma ExtractUrlAgrees(img: Image)
    ensures !(img.isDict && img.imageUrl.NoImageUrl?) ==> ExtractUrlAsWritten(img) == ExtractUrl(img)
    ensures ExtractUrl(img) == ExtractUrl(img.(isDict := !img.isDict))
  {
  }

  /** The Markdown for one image URL. */
  function Link(url: string): string {
    "![image](" + url + ")"
  }

  /** The links of the non-empty URLs, in order. */
  function Links(urls: seq<string>): seq<string> {
    if urls == [] then []
    else
      var u := urls[|urls| - 1];
      Links(urls[..|urls| - 1]) + (if u != "" then [Link(u)] else [])
  }

  function UrlsOf(images: seq<Image>): (urls: seq<string>)
    ensures |urls| == |images| && forall k :: 0 <= k < |images| ==> urls[k] == ExtractUrl(images[k])
  {
    seq(|images|, k requires 0 <= k < |images| => ExtractUrl(images[k]))
  }

  /** `_format_image_markdown` (an empty or missing list is the empty sequence). */
  function FormatImageMarkdown(images: seq<Image>): (r: string)
    ensures r == "" <==> forall k :: 0 <= k < |images| ==> ExtractUrl(images[k]) == ""
  {
    var links := Links(UrlsOf(images));
    LinksSpec(UrlsOf(images));
    if links != [] then
      JoinNonEmpty(links, "\n\n");
      Join(links, "\n\n")
    else
      Join(links, "\n\n")
  }

  /** `_format_image_markdown` with `_extract_url` as written. */
  function FormatImageMarkdownAsWritten(images: seq<Image>): (r: string)
    ensures (forall k :: 0 <= k < |images| ==> !(images[k].isDict && images[k].imageUrl.NoImageUrl?)) ==>
      r == FormatImageMarkdown(images)
  {
    var written := seq(|images|, k requires 0 <= k < |images| => ExtractUrlAsWritten(images[k]));
    if forall k :: 0 <= k < |images| ==> !(images[k].isDict && images[k].imageUrl.NoImageUrl?) then
      AsWrittenUrlsAgree(images);
      Join(Links(written), "\n\n")
    else
      Join(Links(written), "\n\n")
  }

  /** Without a dict lacking image_url, both readings give the same URLs. */
  lemma AsWrittenUrlsAgree(images: seq<Image>)
    requires forall k :: 0 <= k < |images| ==> !(images[k].isDict && images[k].imageUrl.NoImageUrl?)
    ensures seq(|images|, k requires 0 <= k < |images| => ExtractUrlAsWritten(images[k])) == UrlsOf(images)
  {
    forall k | 0 <= k < |images| ensures ExtractUrlAsWritten(images[k]) == ExtractUrl(images[k]) {
      ExtractUrlAgrees(images[k]);
    }
  }

  /** Every non-empty URL has its link, and only those URLs give links. */
  lemma {:induction false} LinksSpec(urls: seq<string>)
    ensures forall k :: 0 <= k < |urls| && urls[k] != "" ==> Link(urls[k]) in Links(urls)
    ensures Links(urls) == [] <==> forall k :: 0 <= k < |urls| ==> urls[k] == ""
    ensures forall j :: 0 <= j < |Links(urls)| ==> Links(urls)[j] != ""
    decreases |urls|
  {
    if urls != [] {
      var init := urls[..|urls| - 1];
      LinksSpec(init);
      assert forall k :: 0 <= k < |init| ==> init[k] == urls[k];
    }
  }

  /** Each piece of a join can be found in the joined string. */
  lemma {:induction false} JoinContains(parts: seq<string>, sep: string, k: nat)
    requires k < |parts|
    ensures Contains(Join(parts, sep), parts[k])
    decreases |parts|
  {
    var r := Join(parts, sep);
    if k == 0 {
      assert r[0..|parts[0]|] == parts[0];
      ContainsAt(r, parts[0], 0);
    } else {
      JoinContains(parts[1..], sep, k - 1);
      ContainsInLonger(Join(parts[1..], sep), parts[0] + sep, parts[k]);
      assert r == parts[0] + sep + Join(parts[1..], sep);
    }
  }

  /**
   * The Markdown is empty exactly when no image has a URL, and shows the
   * link of every image that has one.
   */
  lemma FormatImageMarkdownSpec(images: seq<Image>)
    ensures FormatImageMarkdown(images) == "" <==> forall k :: 0 <= k < |images| ==> ExtractUrl(images[k]) == ""
    ensures forall k :: 0 <= k < |images| && ExtractUrl(images[k]) != "" ==>
      Contains(FormatImageMarkdown(images), Link(ExtractUrl(images[k])))
  {
    var urls := UrlsOf(images);
    var links := Links(urls);
    LinksSpec(urls);
    if links != [] {
      assert links[0] != "";
      JoinNonEmpty(links, "\n\n");
    }
    forall k | 0 <= k < |images| && ExtractUrl(images[k]) != ""
      ensures Contains(FormatImageMarkdown(images), Link(ExtractUrl(images[k])))
    {
      assert urls[k] == ExtractUrl(images[k]);
      var j :| 0 <= j < |links| && links[j] == Link(urls[k]);
      JoinContains(links, "\n\n", j);
    }
  }

  /** A dict image with only its own url shows nothing as written, and its link once corrected. */
  lemma DictUrlIgnored(url: string)
    requires url != ""
    ensures FormatImageMarkdownAsWritten([Image(true, NoImageUrl, Some(url))]) == ""
    ensures FormatImageMarkdown([Image(true, NoImageUrl, Some(url))]) == Link(url)
  {
    var img := Image(true, NoImageUrl, Some(url));
    assert ExtractUrlAsWritten(img) == "";
    var written := seq(1, k requires 0 <= k < 1 => ExtractUrlAsWritten([img][k]));
    assert written == [""];
    assert Links([""]) == [] by { assert [""][..0] == []; }
    assert UrlsOf([img]) == [url];
    assert Links([url]) == [Link(url)] by { assert [url][..0] == []; }
  }

  // ------------------------------------------------------- inline images

  /** An image found inline in a response: its bytes and its MIME type. */
  datatype InlineImage = InlineImage(bytes: seq<Base64.byte>, mime: Option<string>)

  /** The image one part carries, if any. */
  function PartImage(p: GeminiResponse.Part): (r: Option<InlineImage>)
    ensures r.Some? ==> r.value.bytes != [] && p.inline.Some? && r.value.mime == p.inline.value.mime
    ensures p.inline.Some? && p.inline.value.data.Some? && p.inline.value.data.value.DataBytes? ==>
      var b := p.inline.value.data.value.b;
      r == if b != [] then Some(InlineImage(b, p.inline.value.mime)) else None
    ensures p.inline.Some? && p.inline.value.data.Some? && p.inline.value.data.value.DataText? ==>
      var d := Base64.Decode(p.inline.value.data.value.s);
      r == if d.Some? && d.value != [] then Some(InlineImage(d.value, p.inline.value.mime)) else None
  {
    if p.inline.None? || p.inline.value.data.None? then None
    else
      var inline := p.inline.value;
      var bytes := match inline.data.value
        case DataText(s) => if s == "" then None else Base64.Decode(s)
        case DataBytes(b) => if b == [] then None else Some(b);
      if bytes.None? || bytes.value == [] then None else Some(InlineImage(bytes.value, inline.mime))
  }

  function PartImages(parts: seq<GeminiResponse.Part>): seq<InlineImage> {
    if parts == [] then []
    else
      var r := PartImage(parts[|parts| - 1]);
      PartImages(parts[..|parts| - 1]) + (if r.Some? then [r.value] else [])
  }

  /** The inline images of all candidates, candidate by candidate and part by part. */
  function Images(cs: seq<GeminiResponse.Candidate>): seq<InlineImage> {
    if cs == [] then [] else Images(cs[..|cs| - 1]) + PartImages(cs[|cs| - 1].parts)
  }

  /** The images of one candidate's parts: the inner loop of `_extract_inline_images`. */
  method CollectImages(parts: seq<GeminiResponse.Part>) returns (images: seq<InlineImage>)
    ensures images == PartImages(parts)
  {
    images := [];
    for j := 0 to |parts|
      invariant images == PartImages(parts[..j])
    {
      assert parts[..j + 1][..j] == parts[..j];
      var inline := parts[j].inline;
      if inline.None? {
        continue;
      }
      var data := inline.value.data;
      var mime := inline.value.mime;
      if data.None? || data.value == GeminiResponse.DataText("") || data.value == GeminiResponse.DataBytes([]) {
        continue;
      }
      var bytes: seq<Base64.byte>;
      if data.value.DataText? {
        var decoded := Base64.Decode(data.value.s);
        if decoded.None? {
          continue;
        }
        bytes := decoded.value;
      } else {
        bytes := data.value.b;
      }
      if bytes != [] {
        images := images + [InlineImage(bytes, mime)];
      }
    }
    assert parts[..|parts|] == parts;
  }

  /** `_extract_inline_images`. */
  method ExtractInlineImages(response: GeminiResponse.Response) returns (images: seq<InlineImage>)
    ensures images == Images(response.candidates)
  {
    images := [];
    var candidates := response.candidates;
    for i := 0 to |candidates|
      invariant images == Images(candidates[..i])
    {
      assert candidates[..i + 1][..i] == candidates[..i];
      var found := CollectImages(candidates[i].parts);
      images := images + found;
    }
    assert candidates[..|candidates|] == candidates;
  }

  /** An image sent as base64 text comes back as the bytes it encodes. */
  lemma EncodedImageRoundTrip(p: GeminiResponse.Part, b: seq<Base64.byte>, mime: Option<string>)
    requires b != [] && p.inline == Some(GeminiResponse.Inline(Some(GeminiResponse.DataText(Base64.Encode(b))), mime))
    ensures PartImages([p]) == [InlineImage(b, mime)]
  {
    Base64.DecodeEncode(b);
    assert [p][..0] == [];
  }

  /** Candidates keep their order, and parts theirs within a candidate. */
  lemma {:induction false} ImagesAppend(a: seq<GeminiResponse.Candidate>, b: seq<GeminiResponse.Candidate>)
    ensures Images(a + b) == Images(a) + Images(b)
    decreases |b|
  {
    if b != [] {
      var init, last := b[..|b| - 1], b[|b| - 1];
      calc {
        Images(a + b);
        Images((a + b)[..|a + b| - 1]) + PartImages((a + b)[|a + b| - 1].parts);
        { assert (a + b)[..|a + b| - 1] == a + init; assert (a + b)[|a + b| - 1] == last; }
        Images(a + init) + PartImages(last.parts);
        { ImagesAppend(a, init); }
        Images(a) + Images(init) + PartImages(last.parts);
      }
    } else {
      assert a + b == a;
    }
  }

  // ------------------------------------------------------- saved images

  /** A file the backend writes: its name under the uploads directory and its bytes. */
  datatype SavedFile = SavedFile(name: string, bytes: seq<Base64.byte>)

  /** The extension for a MIME type: the guessed one when there is one, else ".png". */
  function Extension(mime: Option<string>, guess: string -> Option<string>): (ext: string)
    ensures ext == ".png" || (GeminiResponse.Present(mime) && guess(mime.value) == Some(ext) && ext != "")
    ensures !GeminiResponse.Present(mime) ==> ext == ".png"
  {
    if GeminiResponse.Present(mime) && GeminiResponse.Present(guess(mime.value)) then guess(mime.value).value else ".png"
  }

  const ImagePrefix := "gemini_imagen_"

  /**
   * `_save_generated_image`: the URL path returned and the file written.
   * `hex` stands for the fresh `uuid4().hex` and `guess` for
   * `mimetypes.guess_extension`.
   */
  function SaveGeneratedImage(bytes: seq<Base64.byte>, mime: Option<string>, guess: string -> Option<string>, hex: string)
    : (r: (string, Option<SavedFile>))
    ensures bytes == [] <==> r.0 == ""
    ensures bytes == [] <==> r.1.None?
    ensures r.1.Some? ==>
      && r.1.value.bytes == bytes
      && r.1.value.name == ImagePrefix + hex + Extension(mime, guess)
      && r.0 == "/uploads/" + r.1.value.name
  {
    if bytes == [] then ("", None)
    else
      var name := ImagePrefix + hex + Extension(mime, guess);
      ("/uploads/" + name, Some(SavedFile(name, bytes)))
  }

  /** The path of a saved file names it under the uploads directory, as message conversion reads it back. */
  lemma UploadPathOfSaved(name: string)
    ensures StartsWith("/uploads/" + name, GeminiMessages.UploadsPrefix)
    ensures GeminiMessages.UploadPath("/uploads/" + name) == "uploads/" + name
  {
    var path := "/uploads/" + name;
    assert path[..|GeminiMessages.UploadsPrefix|] == GeminiMessages.UploadsPrefix;
    var stripped := LStripChar(path, '/');
    assert path[0] == '/' && path[1] == 'u';
    assert |path| - |stripped| == 1;
    assert stripped == path[1..];
    assert path[1..] == "uploads/" + name;
  }

  /**
   * A saved image, referenced later from a chat message by the path it was
   * given, is inlined into the Gemini request with the bytes that were saved.
   */
  lemma SavedImageInlinesBack(bytes: seq<Base64.byte>, mime: Option<string>, guess: string -> Option<string>, hex: string,
                              read: GeminiMessages.MediaReader, guessed: Option<string>)
    requires bytes != []
    requires read("uploads/" + SaveGeneratedImage(bytes, mime, guess, hex).1.value.name) == GeminiMessages.Loaded(guessed, bytes)
    ensures var path := SaveGeneratedImage(bytes, mime, guess, hex).0;
      var part := GeminiMessages.PartOf(GeminiMessages.InPart(Some("image_url"), None, None, Some(path)), read);
      && part.Some? && part.value.InlinePart?
      && Base64.Decode(part.value.data) == Some(bytes)
  {
    var name := SaveGeneratedImage(bytes, mime, guess, hex).1.value.name;
    UploadPathOfSaved(name);
    assert GeminiMessages.DefaultMime("image_url").Some?;
  }
}
