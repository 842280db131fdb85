/**
 * What the Gemini provider reads back out of an SDK response
 * (backend/providers/gemini_response.py): the thought signatures, the
 * grounding search results, the URL-context results, and the answer text
 * with its reasoning.
 *
 * The SDK hands over objects or dicts, and the source reads each field
 * under several spellings (`thought_signature` or `thoughtSignature`; `uri`,
 * `url` or `link`; ...). The datatypes here hold each field after that
 * lookup: the first truthy spelling, or None when no spelling is truthy.
 */
module GeminiResponse {
  import opened Wrappers
  import opened Text
  import Base64

  /** A string field that Python's `or` would keep: present and non-empty. */
  predicate Present(v: Option<string>) {
    v.Some? && v.value != ""
  }

  /** `a or b` on two optional strings. */
  function Or(a: Option<string>, b: Option<string>): Option<string> {
    if Present(a) then a else b
  }

  // ------------------------------------------------------------ response shape

  /** A thought signature: text, raw bytes, or another object with its `str()` and its truthiness. */
  datatype Signature = SigText(s: string) | SigBytes(b: seq<Base64.byte>) | SigOther(repr: string, truthy: bool)

  /** Inline data: a base64 string or raw bytes. */
  datatype InlineData = DataText(s: string) | DataBytes(b: seq<Base64.byte>)

  /** A part's inline or file data with its MIME type. */
  datatype Inline = Inline(data: Option<InlineData>, mime: Option<string>)

  /**
   * One part of a candidate's content. `thought` says whether the part's
   * `thought` attribute is the object True; `inline` is the first truthy of
   * inline_data, inlineData, file_data and fileData.
   */
  datatype Part = Part(text: Option<string>, thought: bool, signature: Option<Signature>, inline: Option<Inline>)

  /** The web record of a grounding chunk, when it is truthy. */
  datatype Web = Web(url: Option<string>, title: Option<string>)

  /** A grounding chunk: its web record and its own url, title and content fields. */
  datatype Chunk = Chunk(web: Option<Web>, url: Option<string>, title: Option<string>, content: Option<string>)

  /** An entry of url_metadata or retrieved_urls: a string, a dict, or anything else. */
  datatype UrlItem =
    | UrlText(s: string)
    | UrlRecord(url: Option<string>, title: Option<string>, status: Option<string>)
    | UrlUnknown

  /** A url_metadata or retrieved_urls value: missing or None, a list, or some other value. */
  datatype Listing = NoListing | ItemList(items: seq<UrlItem>) | NotAList

  /** URL-context metadata with its two listings. */
  datatype UrlContext = UrlContext(urlMetadata: Listing, retrievedUrls: Listing)

  /**
   * A candidate: the parts of its content (none when content or parts are
   * missing), the chunks of its grounding metadata (none when either is
   * missing), and its URL-context metadata (None when falsy).
   */
  datatype Candidate = Candidate(parts: seq<Part>, chunks: seq<Chunk>, urlContext: Option<UrlContext>)

  /** A response: its candidates and its response-level URL-context metadata. */
  datatype Response = Response(candidates: seq<Candidate>, urlContext: Option<UrlContext>)

  /** A result entry: `{"url": url, "title": title}`, with "content" when there is some. */
  datatype Entry = Entry(url: string, title: string, content: Option<string>)

  // -------------------------------------------------------- thought signatures

  predicate SigTruthy(s: Signature) {
    match s
    case SigText(t) => t != ""
    case SigBytes(b) => b != []
    case SigOther(_, truthy) => truthy
  }

  /** The string a signature is reported as: base64 for bytes, `str()` for other objects. */
  function SigString(s: Signature): string {
    match s
    case SigText(t) => t
    case SigBytes(b) => Base64.Encode(b)
    case SigOther(repr, _) => repr
  }

  /** The signatures of a list of parts, in order. */
  function PartSignatures(parts: seq<Part>): seq<string> {
    if parts == [] then []
    else
      var sig := parts[|parts| - 1].signature;
      PartSignatures(parts[..|parts| - 1]) + (if sig.Some? && SigTruthy(sig.value) then [SigString(sig.value)] else [])
  }

  /** The signatures of all candidates, candidate by candidate. */
  function Signatures(cs: seq<Candidate>): seq<string> {
    if cs == [] then [] else Signatures(cs[..|cs| - 1]) + PartSignatures(cs[|cs| - 1].parts)
  }

  /** The signatures of one candidate's parts: the inner loop of `_extract_thought_signatures`. */
  method CollectSignatures(parts: seq<Part>) returns (signatures: seq<string>)
    ensures signatures == PartSignatures(parts)
  {
    signatures := [];
    for j := 0 to |parts|
      invariant signatures == PartSignatures(parts[..j])
    {
      assert parts[..j + 1][..j] == parts[..j];
      var sig := parts[j].signature;
      if sig.Some? && SigTruthy(sig.value) {
        var s := match sig.value
          case SigText(t) => t
          case SigBytes(b) => Base64.Encode(b)
          case SigOther(repr, _) => repr;
        signatures := signatures + [s];
      }
    }
    assert parts[..|parts|] == parts;
  }

  /** `_extract_thought_signatures`: every truthy signature of every part of every candidate. */
  method ExtractThoughtSignatures(response: Response) returns (signatures: seq<string>)
    ensures signatures == Signatures(response.candidates)
  {
    signatures := [];
    var candidates := response.candidates;
    for i := 0 to |candidates|
      invariant signatures == Signatures(candidates[..i])
    {
      assert candidates[..i + 1][..i] == candidates[..i];
      var found := CollectSignatures(candidates[i].parts);
      signatures := signatures + found;
    }
    assert candidates[..|candidates|] == candidates;
  }

  lemma {:induction false} PartSignaturesAppend(a: seq<Part>, b: seq<Part>)
    ensures PartSignatures(a + b) == PartSignatures(a) + PartSignatures(b)
    decreases |b|
  {
    if b == [] {
      assert a + b == a;
    } else {
      assert (a + b)[..|a + b| - 1] == a + b[..|b| - 1];
      PartSignaturesAppend(a, b[..|b| - 1]);
    }
  }

  /** Candidates keep their order in the signature list, and parts theirs within a candidate. */
  lemma {:induction false} SignaturesAppend(a: seq<Candidate>, b: seq<Candidate>)
    ensures Signatures(a + b) == Signatures(a) + Signatures(b)
    decreases |b|
  {
    if b == [] {
      assert a + b == a;
    } else {
      var init, last := b[..|b| - 1], b[|b| - 1];
      calc {
        Signatures(a + b);
        Signatures((a + b)[..|a + b| - 1]) + PartSignatures((a + b)[|a + b| - 1].parts);
        { assert (a + b)[..|a + b| - 1] == a + init; assert (a + b)[|a + b| - 1] == last; }
        Signatures(a + init) + PartSignatures(last.parts);
        { SignaturesAppend(a, init); }
        Signatures(a) + Signatures(init) + PartSignatures(last.parts);
      }
    }
  }

  /** A signature given as bytes is reported as their base64 text, which decodes back to them. */
  lemma BytesSignature(p: Part, b: seq<Base64.byte>)
    requires p.signature == Some(SigBytes(b)) && b != []
    ensures PartSignatures([p]) == [Base64.Encode(b)]
    ensures Base64.Decode(PartSignatures([p])[0]) == Some(b)
  {
    assert [p][..0] == [];
    Base64.DecodeEncode(b);
  }

  /** A part without a truthy signature adds nothing wherever it stands. */
  lemma UnsignedPart(a: seq<Part>, p: Part, b: seq<Part>)
    requires p.signature.None? || !SigTruthy(p.signature.value)
    ensures PartSignatures(a + [p] + b) == PartSignatures(a + b)
  {
    assert [p][..0] == [];
    PartSignaturesAppend(a, [p]);
    assert PartSignatures(a + [p]) == PartSignatures(a);
    PartSignaturesAppend(a + [p], b);
    PartSignaturesAppend(a, b);
  }

  // ------------------------------------------------------------ deduplication

  /** The non-empty URLs of a list of entries. */
  function Urls(items: seq<Entry>): set<string> {
    if items == [] then {}
    else
      var u := items[|items| - 1].url;
      Urls(items[..|items| - 1]) + (if u == "" then {} else {u})
  }

  lemma {:induction false} UrlsMember(items: seq<Entry>, u: string)
    ensures u in Urls(items) <==> u != "" && exists k :: 0 <= k < |items| && items[k].url == u
    decreases |items|
  {
    if items != [] {
      var init := items[..|items| - 1];
      UrlsMember(init, u);
      if exists k :: 0 <= k < |items| && items[k].url == u {
        var k :| 0 <= k < |items| && items[k].url == u;
        if k < |init| {
          assert init[k] == items[k];
        }
      }
    }
  }

  /** The deduplication loop: each entry whose URL is non-empty and not seen before, in order. */
  function Dedup(items: seq<Entry>): seq<Entry> {
    if items == [] then []
    else
      var init, e := items[..|items| - 1], items[|items| - 1];
      Dedup(init) + (if e.url == "" || e.url in Urls(init) then [] else [e])
  }

  /** The position of the first entry with URL `u`. */
  function FirstIndex(items: seq<Entry>, u: string): (i: nat)
    requires u in Urls(items)
    ensures i < |items| && items[i].url == u
    ensures forall j :: 0 <= j < i ==> items[j].url != u
    decreases |items|
  {
    var init := items[..|items| - 1];
    UrlsMember(init, u);
    if u in Urls(init) then FirstIndex(init, u) else |items| - 1
  }

  lemma FirstIndexExtend(items: seq<Entry>, u: string)
    requires items != [] && u in Urls(items[..|items| - 1])
    ensures u in Urls(items) && FirstIndex(items, u) == FirstIndex(items[..|items| - 1], u)
  {
  }

  lemma {:induction false} DedupUrls(items: seq<Entry>)
    ensures Urls(Dedup(items)) == Urls(items)
    decreases |items|
  {
    if items != [] {
      var init, e := items[..|items| - 1], items[|items| - 1];
      DedupUrls(init);
      var d0 := Dedup(init);
      if e.url != "" && e.url !in Urls(init) {
        assert Dedup(items) == d0 + [e];
        assert (d0 + [e])[..|d0 + [e]| - 1] == d0;
        assert Urls(d0 + [e]) == Urls(d0) + {e.url};
        assert Urls(items) == Urls(init) + {e.url};
      } else {
        assert Dedup(items) == d0;
        assert Urls(items) == Urls(init);
      }
    }
  }

  lemma {:induction false} DedupFirst(items: seq<Entry>)
    ensures forall k :: 0 <= k < |Dedup(items)| ==>
      Dedup(items)[k].url in Urls(items) && Dedup(items)[k] == items[FirstIndex(items, Dedup(items)[k].url)]
    decreases |items|
  {
    if items != [] {
      var init, e := items[..|items| - 1], items[|items| - 1];
      DedupFirst(init);
      var d0 := Dedup(init);
      var isNew := e.url != "" && e.url !in Urls(init);
      var d := Dedup(items);
      assert d == d0 + (if isNew then [e] else []);
      forall k | 0 <= k < |d| ensures d[k].url in Urls(items) && d[k] == items[FirstIndex(items, d[k].url)] {
        if k < |d0| {
          assert d[k] == d0[k];
          assert d0[k].url in Urls(init) && d0[k] == init[FirstIndex(init, d0[k].url)];
          FirstIndexExtend(items, d0[k].url);
        } else {
          assert isNew && d[k] == e;
          assert e.url in Urls(items);
        }
      }
    }
  }

  lemma {:induction false} DedupOrder(items: seq<Entry>)
    ensures forall i, j :: 0 <= i < j < |Dedup(items)| && Dedup(items)[i].url in Urls(items) && Dedup(items)[j].url in Urls(items) ==>
      FirstIndex(items, Dedup(items)[i].url) < FirstIndex(items, Dedup(items)[j].url)
    decreases |items|
  {
    if items != [] {
      var init, e := items[..|items| - 1], items[|items| - 1];
      DedupOrder(init);
      DedupFirst(init);
      var d0 := Dedup(init);
      var isNew := e.url != "" && e.url !in Urls(init);
      var d := Dedup(items);
      assert d == d0 + (if isNew then [e] else []);
      forall i, j | 0 <= i < j < |d| && d[i].url in Urls(items) && d[j].url in Urls(items)
        ensures FirstIndex(items, d[i].url) < FirstIndex(items, d[j].url)
      {
        assert d[i] == d0[i] && d0[i].url in Urls(init);
        FirstIndexExtend(items, d0[i].url);
        if j < |d0| {
          assert d[j] == d0[j] && d0[j].url in Urls(init);
          FirstIndexExtend(items, d0[j].url);
        } else {
          assert isNew && d[j] == e;
        }
      }
    }
  }

  /**
   * Deduplication keeps every non-empty URL exactly once, with the entry
   * that first carried it, and in the order of those first occurrences.
   */
  lemma DedupSpec(items: seq<Entry>)
    ensures var d := Dedup(items);
      && Urls(d) == Urls(items)
      && (forall k :: 0 <= k < |d| ==> d[k].url in Urls(items) && d[k] == items[FirstIndex(items, d[k].url)])
      && (forall i, j :: 0 <= i < j < |d| ==> FirstIndex(items, d[i].url) < FirstIndex(items, d[j].url))
  {
    DedupUrls(items);
    DedupFirst(items);
    DedupOrder(items);
  }

  /** No URL occurs twice after deduplication, and none is empty. */
  lemma DedupUnique(items: seq<Entry>)
    ensures var d := Dedup(items);
      forall i, j :: 0 <= i < j < |d| ==> d[i].url != "" && d[i].url != d[j].url
  {
    DedupSpec(items);
    var d := Dedup(items);
    forall i, j | 0 <= i < j < |d| ensures d[i].url != "" && d[i].url != d[j].url {
      UrlsMember(items, d[i].url);
    }
  }

  /** The deduplication loop over a `seen` set, shared by both result kinds. */
  method Deduplicate(items: seq<Entry>) returns (deduped: seq<Entry>)
    ensures deduped == Dedup(items)
  {
    deduped := [];
    var seen: set<string> := {};
    for i := 0 to |items|
      invariant deduped == Dedup(items[..i]) && seen == Urls(items[..i])
    {
      assert items[..i + 1][..i] == items[..i];
      var url := items[i].url;
      if url == "" || url in seen {
        continue;
      }
      seen := seen + {url};
      deduped := deduped + [items[i]];
    }
    assert items[..|items|] == items;
  }

  // ----------------------------------------------------------- search results

  function WebUrl(c: Chunk): Option<string> {
    if c.web.Some? then c.web.value.url else None
  }

  function WebTitle(c: Chunk): Option<string> {
    if c.web.Some? then c.web.value.title else None
  }

  /**
   * The entry a grounding chunk yields: none without a URL; the web URL
   * before the chunk's own; the title from the web record, else the web URL,
   * else the chunk's title, else the URL; content only when non-empty.
   */
  function ChunkEntry(c: Chunk): (r: Option<Entry>)
    ensures r.Some? <==> Present(WebUrl(c)) || Present(c.url)
    ensures r.Some? ==> r.value.url != "" && r.value.title != ""
    ensures r.Some? ==> r.value.url == (if Present(WebUrl(c)) then WebUrl(c).value else c.url.value)
    ensures r.Some? && Present(WebTitle(c)) ==> r.value.title == WebTitle(c).value
    ensures r.Some? && !Present(WebTitle(c)) && Present(WebUrl(c)) ==> r.value.title == WebUrl(c).value
    ensures r.Some? && !Present(WebTitle(c)) && !Present(WebUrl(c)) && Present(c.title) ==> r.value.title == c.title.value
    ensures r.Some? && !Present(WebTitle(c)) && !Present(WebUrl(c)) && !Present(c.title) ==> r.value.title == r.value.url
    ensures r.Some? ==> (r.value.content.Some? <==> Present(c.content)) && (r.value.content.Some? ==> r.value.content == c.content)
  {
    var webUrl := WebUrl(c);
    var webTitle := if c.web.Some? then Or(WebTitle(c), webUrl) else None;
    var url := Or(webUrl, c.url);
    var title := Or(webTitle, c.title);
    if !Present(url) then None
    else Some(Entry(url.value, if Present(title) then title.value else url.value, if Present(c.content) then c.content else None))
  }

  function ChunkEntries(chunks: seq<Chunk>): seq<Entry> {
    if chunks == [] then []
    else
      var r := ChunkEntry(chunks[|chunks| - 1]);
      ChunkEntries(chunks[..|chunks| - 1]) + (if r.Some? then [r.value] else [])
  }

  /** The entries collected before deduplication, candidate by candidate. */
  function SearchEntries(cs: seq<Candidate>): seq<Entry> {
    if cs == [] then [] else SearchEntries(cs[..|cs| - 1]) + ChunkEntries(cs[|cs| - 1].chunks)
  }

  /** The entries of one candidate's grounding chunks: the inner loop of `_extract_search_results`. */
  method CollectChunks(chunks: seq<Chunk>) returns (entries: seq<Entry>)
    ensures entries == ChunkEntries(chunks)
  {
    entries := [];
    for j := 0 to |chunks|
      invariant entries == ChunkEntries(chunks[..j])
    {
      assert chunks[..j + 1][..j] == chunks[..j];
      var chunk := chunks[j];
      var url: Option<string> := None;
      var title: Option<string> := None;
      if chunk.web.Some? {
        url := chunk.web.value.url;
        title := Or(chunk.web.value.title, url);
      }
      url := Or(url, chunk.url);
      title := Or(title, chunk.title);
      if !Present(url) {
        assert ChunkEntry(chunk).None?;
        continue;
      }
      var content := if Present(chunk.content) then chunk.content else None;
      var entry := Entry(url.value, if Present(title) then title.value else url.value, content);
      assert ChunkEntry(chunk) == Some(entry);
      entries := entries + [entry];
    }
    assert chunks[..|chunks|] == chunks;
  }

  /** `_extract_search_results`: the entries of every grounding chunk, then deduplicated by URL. */
  method ExtractSearchResults(response: Response) returns (results: seq<Entry>)
    ensures results == Dedup(SearchEntries(response.candidates))
  {
    var collected: seq<Entry> := [];
    var candidates := response.candidates;
    for i := 0 to |candidates|
      invariant collected == SearchEntries(candidates[..i])
    {
      assert candidates[..i + 1][..i] == candidates[..i];
      var entries := CollectChunks(candidates[i].chunks);
      collected := collected + entries;
    }
    assert candidates[..|candidates|] == candidates;
    results := Deduplicate(collected);
  }

  // ------------------------------------------------------ URL-context results

  predicate Truthy(l: Listing) {
    l.NotAList? || (l.ItemList? && l.items != [])
  }

  /**
   * The entry a url_metadata item yields: a string is its own URL and title;
   * a dict needs a URL, takes its title or the URL, and its status as
   * content; anything else yields nothing.
   */
  function ItemEntry(item: UrlItem): (r: Option<Entry>)
    ensures item.UrlText? ==> r == Some(Entry(item.s, item.s, None))
    ensures item.UrlUnknown? ==> r.None?
    ensures item.UrlRecord? ==> (r.Some? <==> Present(item.url))
    ensures item.UrlRecord? && r.Some? ==>
      && r.value.url == item.url.value
      && r.value.title == (if Present(item.title) then item.title.value else item.url.value)
      && (r.value.content.Some? <==> Present(item.status))
      && (r.value.content.Some? ==> r.value.content == item.status)
  {
    match item
    case UrlText(s) => Some(Entry(s, s, None))
    case UrlRecord(url, title, status) =>
      if !Present(url) then None
      else Some(Entry(url.value, if Present(title) then title.value else url.value, if Present(status) then status else None))
    case UrlUnknown => None
  }

  function ItemEntries(items: seq<UrlItem>): seq<Entry> {
    if items == [] then []
    else
      var r := ItemEntry(items[|items| - 1]);
      ItemEntries(items[..|items| - 1]) + (if r.Some? then [r.value] else [])
  }

  /** url_metadata when truthy, else retrieved_urls. */
  function Chosen(md: UrlContext): Listing {
    if Truthy(md.urlMetadata) then md.urlMetadata else md.retrievedUrls
  }

  function ListingEntries(l: Listing): seq<Entry> {
    if l.ItemList? then ItemEntries(l.items) else []
  }

  /** The entries one candidate contributes: its own metadata, else the response's. */
  function CandidateUrlEntries(c: Candidate, fallback: Option<UrlContext>): seq<Entry> {
    var md := if c.urlContext.Some? then c.urlContext else fallback;
    if md.None? then [] else ListingEntries(Chosen(md.value))
  }

  function UrlContextEntries(cs: seq<Candidate>, fallback: Option<UrlContext>): seq<Entry> {
    if cs == [] then []
    else UrlContextEntries(cs[..|cs| - 1], fallback) + CandidateUrlEntries(cs[|cs| - 1], fallback)
  }

  /** The entries of one url_metadata list: the inner loop of `_extract_url_context_results`. */
  method CollectItems(items: seq<UrlItem>) returns (entries: seq<Entry>)
    ensures entries == ItemEntries(items)
  {
    entries := [];
    for j := 0 to |items|
      invariant entries == ItemEntries(items[..j])
    {
      assert items[..j + 1][..j] == items[..j];
      var item := items[j];
      if item.UrlText? {
        entries := entries + [Entry(item.s, item.s, None)];
        continue;
      }
      if !item.UrlRecord? {
        continue;
      }
      var url := item.url;
      if !Present(url) {
        continue;
      }
      var title := if Present(item.title) then item.title.value else url.value;
      var status := item.status;
      entries := entries + [Entry(url.value, title, if Present(status) then status else None)];
    }
    assert items[..|items|] == items;
  }

  /** `_extract_url_context_results`: the entries of every candidate's metadata, then deduplicated by URL. */
  method ExtractUrlContextResults(response: Response) returns (results: seq<Entry>)
    ensures results == Dedup(UrlContextEntries(response.candidates, response.urlContext))
  {
    var collected: seq<Entry> := [];
    var candidates := response.candidates;
    for i := 0 to |candidates|
      invariant collected == UrlContextEntries(candidates[..i], response.urlContext)
    {
      assert candidates[..i + 1][..i] == candidates[..i];
      var metadata := if candidates[i].urlContext.Some? then candidates[i].urlContext else response.urlContext;
      if metadata.None? {
        continue;
      }
      var listing := metadata.value.urlMetadata;
      if !Truthy(listing) {
        listing := metadata.value.retrievedUrls;
      }
      if listing.ItemList? {
        var entries := CollectItems(listing.items);
        collected := collected + entries;
      }
    }
    assert candidates[..|candidates|] == candidates;
    results := Deduplicate(collected);
  }

  /** A candidate with its own metadata ignores the response-level metadata. */
  lemma CandidateMetadataFirst(c: Candidate, f1: Option<UrlContext>, f2: Option<UrlContext>)
    requires c.urlContext.Some?
    ensures CandidateUrlEntries(c, f1) == CandidateUrlEntries(c, f2)
  {
  }

  /** A candidate without metadata reads the response-level metadata as if it were its own. */
  lemma ResponseMetadataFallback(c: Candidate, f: Option<UrlContext>)
    requires c.urlContext.None?
    ensures CandidateUrlEntries(c, f) == CandidateUrlEntries(c.(urlContext := f), None)
  {
  }

  /** A string item that is empty is collected but never survives deduplication. */
  lemma EmptyStringItemDropped(items: seq<Entry>)
    requires forall k :: 0 <= k < |items| ==> items[k].url == ""
    ensures Dedup(items) == []
  {
    DedupSpec(items);
    var d := Dedup(items);
    if d != [] {
      UrlsMember(items, d[0].url);
    }
  }

  // ------------------------------------------------------ text and reasoning

  predicate HasText(p: Part) {
    Present(p.text)
  }

  /** The non-empty texts of the parts whose thought flag is `thought`, in order. */
  function Texts(parts: seq<Part>, thought: bool): seq<string> {
    if parts == [] then []
    else
      var p := parts[|parts| - 1];
      Texts(parts[..|parts| - 1], thought) + (if HasText(p) && p.thought == thought then [p.text.value] else [])
  }

  /** `_extract_text_and_reasoning`: (content, reasoning) of the first candidate only. */
  function TextAndReasoning(cs: seq<Candidate>): (string, string) {
    if cs == [] then ("", "")
    else (Concat(Texts(cs[0].parts, false)), Join(Texts(cs[0].parts, true), "\n"))
  }

  /** `_extract_text_and_reasoning`: one pass over the first candidate's parts. */
  method ExtractTextAndReasoning(response: Response) returns (content: string, reasoning: string)
    ensures (content, reasoning) == TextAndReasoning(response.candidates)
  {
    var candidates := response.candidates;
    if candidates == [] {
      return "", "";
    }
    var parts := candidates[0].parts;
    var reasoningParts: seq<string> := [];
    var textParts: seq<string> := [];
    for i := 0 to |parts|
      invariant reasoningParts == Texts(parts[..i], true) && textParts == Texts(parts[..i], false)
    {
      assert parts[..i + 1][..i] == parts[..i];
      var text := parts[i].text;
      if !Present(text) {
        continue;
      }
      if parts[i].thought {
        reasoningParts := reasoningParts + [text.value];
      } else {
        textParts := textParts + [text.value];
      }
    }
    assert parts[..|parts|] == parts;
    reasoning := Join(reasoningParts, "\n");
    content := Concat(textParts);
  }

  lemma {:induction false} TextsAppend(a: seq<Part>, b: seq<Part>, thought: bool)
    ensures Texts(a + b, thought) == Texts(a, thought) + Texts(b, thought)
    decreases |b|
  {
    if b == [] {
      assert a + b == a;
    } else {
      assert (a + b)[..|a + b| - 1] == a + b[..|b| - 1];
      TextsAppend(a, b[..|b| - 1], thought);
    }
  }

  /** Every collected text is non-empty, and there is one exactly when some part of that kind has text. */
  lemma {:induction false} TextsSpec(parts: seq<Part>, thought: bool)
    ensures forall k :: 0 <= k < |Texts(parts, thought)| ==> Texts(parts, thought)[k] != ""
    ensures Texts(parts, thought) == [] <==> forall k :: 0 <= k < |parts| ==> !(HasText(parts[k]) && parts[k].thought == thought)
    decreases |parts|
  {
    if parts != [] {
      var init := parts[..|parts| - 1];
      TextsSpec(init, thought);
      assert forall k :: 0 <= k < |init| ==> init[k] == parts[k];
    }
  }

  lemma {:induction false} ConcatOfNonEmpty(ws: seq<string>)
    requires forall k :: 0 <= k < |ws| ==> ws[k] != ""
    ensures Concat(ws) == "" <==> ws == []
    decreases |ws|
  {
    if ws != [] {
      assert |Concat(ws)| >= |ws[|ws| - 1]|;
    }
  }

  /**
   * The content is empty exactly when no non-thought part of the first
   * candidate has text, and the reasoning exactly when no thought part has.
   */
  lemma TextAndReasoningEmpty(c: Candidate, rest: seq<Candidate>)
    ensures TextAndReasoning([c] + rest).0 == "" <==> forall k :: 0 <= k < |c.parts| ==> !(HasText(c.parts[k]) && !c.parts[k].thought)
    ensures TextAndReasoning([c] + rest).1 == "" <==> forall k :: 0 <= k < |c.parts| ==> !(HasText(c.parts[k]) && c.parts[k].thought)
  {
    TextsSpec(c.parts, false);
    TextsSpec(c.parts, true);
    ConcatOfNonEmpty(Texts(c.parts, false));
    var ts := Texts(c.parts, true);
    if ts != [] {
      JoinNonEmpty(ts, "\n");
    }
  }

  /** A thought part never reaches the content and an answer part never reaches the reasoning. */
  lemma PartKindSeparated(a: seq<Part>, p: Part, b: seq<Part>)
    ensures Texts(a + [p] + b, !p.thought) == Texts(a + b, !p.thought)
  {
    assert [p][..0] == [];
    TextsAppend(a, [p], !p.thought);
    assert Texts(a + [p], !p.thought) == Texts(a, !p.thought);
    TextsAppend(a + [p], b, !p.thought);
    TextsAppend(a, b, !p.thought);
  }

  /** Splitting the parts splits the content the same way. */
  lemma ContentAppend(a: seq<Part>, b: seq<Part>)
    ensures Concat(Texts(a + b, false)) == Concat(Texts(a, false)) + Concat(Texts(b, false))
  {
    TextsAppend(a, b, false);
    ConcatAppend(Texts(a, false), Texts(b, false));
  }
}
