/**
 * The browser client's side of the HTTP API (frontend/src/api/apiClient.ts):
 * endpoint URLs and the `chatStream` reader of the streamed reply. Unlike the
 * terminal reader, this one splits the received text into events at blank
 * lines, as in section 9.2 of the WHATWG HTML Living Standard (server-sent
 * events), and stops after delivering a chunk that carries an error or says
 * it is the last one.
 */
module WebApiClient {
  import opened Wrappers
  import opened Text
  import TerminalApi

  const ApiPrefix := "/api/v1"

  // ------------------------------------------------------------------ URLs

  /** `url`: the base URL as configured, the API prefix, then the path. */
  function Url(baseUrl: string, path: string): (r: string)
    ensures StartsWith(r, baseUrl)
    ensures r[|baseUrl|..] == ApiPrefix + path
  {
    baseUrl + ApiPrefix + path
  }

  /**
   * Both clients build the same endpoint URL from a base without a trailing
   * slash; the browser client, unlike the terminal one, keeps a trailing
   * slash, which then doubles the one the prefix starts with.
   */
  lemma UrlAgreesWithTerminal(baseUrl: string, path: string)
    ensures baseUrl == [] || baseUrl[|baseUrl| - 1] != '/' ==> Url(baseUrl, path) == TerminalApi.Url(baseUrl, path)
    ensures baseUrl != [] && baseUrl[|baseUrl| - 1] == '/' ==> Url(baseUrl, path) != TerminalApi.Url(baseUrl, path)
  {
    assert |TerminalApi.BaseUrl(baseUrl)| < |baseUrl| <== baseUrl != [] && baseUrl[|baseUrl| - 1] == '/';
  }

  // ------------------------------------------------------------ separators

  /**
   * The length of the match of the pattern `\r?\n\r?\n` that starts at
   * index `i` of `s`, or 0 when there is none. Each optional carriage
   * return is taken when present; giving it back never helps, because the
   * pattern would then need a line feed where the carriage return is.
   */
  function SepLen(s: string, i: nat): (n: nat)
    ensures n == 0 || (2 <= n <= 4 && i + n <= |s|)
    ensures n > 0 ==> (s[i] == '\r' || s[i] == '\n') && s[i + n - 1] == '\n'
  {
    var j := if i < |s| && s[i] == '\r' then i + 1 else i;
    if j < |s| && s[j] == '\n' then
      var k := if j + 1 < |s| && s[j + 1] == '\r' then j + 2 else j + 1;
      if k < |s| && s[k] == '\n' then k + 1 - i else 0
    else 0
  }

  /**
   * The match at `i` is the longest of the four separators the pattern
   * admits that `s` has at `i`.
   */
  lemma SepLenIsLongestSeparator(s: string, i: nat)
    requires i <= |s|
    ensures SepLen(s, i) ==
      if StartsWith(s[i..], "\r\n\r\n") then 4
      else if StartsWith(s[i..], "\r\n\n") || StartsWith(s[i..], "\n\r\n") then 3
      else if StartsWith(s[i..], "\n\n") then 2
      else 0
  {
    var t := s[i..];
    assert "\r\n\r\n" == ['\r', '\n', '\r', '\n'];
    assert "\r\n\n" == ['\r', '\n', '\n'] && "\n\r\n" == ['\n', '\r', '\n'] && "\n\n" == ['\n', '\n'];
    StartsWithChars(t, ['\r', '\n', '\r', '\n']);
    StartsWithChars(t, ['\r', '\n', '\n']);
    StartsWithChars(t, ['\n', '\r', '\n']);
    StartsWithChars(t, ['\n', '\n']);
    if i < |s| { assert t[0] == s[i]; }
    if i + 1 < |s| { assert t[1] == s[i + 1]; }
    if i + 2 < |s| { assert t[2] == s[i + 2]; }
    if i + 3 < |s| { assert t[3] == s[i + 3]; }
  }

  /** A text starts with a short pattern exactly when its first characters are the pattern's. */
  lemma StartsWithChars(t: string, p: string)
    ensures StartsWith(t, p) <==> |p| <= |t| && forall k :: 0 <= k < |p| ==> t[k] == p[k]
  {
    if |p| <= |t| && forall k :: 0 <= k < |p| ==> t[k] == p[k] {
      assert t[..|p|] == p;
    }
  }

  /** A match needs nothing after its own characters. */
  lemma SepLenAppend(s: string, t: string, i: nat)
    requires SepLen(s, i) > 0
    ensures SepLen(s + t, i) == SepLen(s, i)
  {
  }

  /**
   * A position without a match keeps having none when text is appended,
   * provided a match starts later in the same text.
   */
  lemma NoSepAppend(s: string, t: string, i: nat, k: nat)
    requires i < k && SepLen(s, k) > 0 && SepLen(s, i) == 0
    ensures SepLen(s + t, i) == 0
  {
    var u := s + t;
    assert u[..|s|] == s;
  }

  /**
   * `buffer.search(/\r?\n\r?\n/)` from index `from` on: the first index
   * where the pattern matches.
   */
  function FindSep(s: string, from: nat): (r: Option<nat>)
    ensures r.Some? ==> from <= r.value < |s| && SepLen(s, r.value) > 0
    ensures forall i :: from <= i < (if r.Some? then r.value else |s|) ==> SepLen(s, i) == 0
    decreases |s| - from
  {
    if from >= |s| then None
    else if SepLen(s, from) > 0 then Some(from)
    else FindSep(s, from + 1)
  }

  /** `buffer.search(/\r?\n\r?\n/)`; `buffer.match` finds the same first match. */
  function Search(s: string): Option<nat> {
    FindSep(s, 0)
  }

  /** Text received later never moves a separator already found, nor changes its length. */
  lemma SearchAppend(s: string, t: string)
    requires Search(s).Some?
    ensures Search(s + t) == Search(s)
    ensures SepLen(s + t, Search(s).value) == SepLen(s, Search(s).value)
  {
    var k := Search(s).value;
    SepLenAppend(s, t, k);
    forall i | 0 <= i < k
      ensures SepLen(s + t, i) == 0
    {
      NoSepAppend(s, t, i, k);
    }
    FindSepAt(s + t, 0, k);
  }

  lemma {:induction false} FindSepAt(s: string, from: nat, k: nat)
    requires from <= k && SepLen(s, k) > 0
    requires forall i :: from <= i < k ==> SepLen(s, i) == 0
    ensures FindSep(s, from) == Some(k)
    decreases k - from
  {
    if from < k {
      FindSepAt(s, from + 1, k);
    }
  }

  // ------------------------------------------------------------- the events

  /** One web search hit a chunk may carry. */
  datatype SearchResult = SearchResult(url: string, title: string, content: Option<string>)

  /** A parsed chunk of the stream; fields the JSON did not carry are `None`. */
  datatype StreamChunk = StreamChunk(
    content: Option<string>,
    reasoning: Option<string>,
    searchResults: Option<seq<SearchResult>>,
    sessionId: Option<int>,
    error: Option<string>,
    done: Option<bool>)

  /** `data.error || data.done`: a chunk after which the generator returns. */
  predicate Ends(c: StreamChunk) {
    (c.error.Some? && c.error.value != "") || c.done == Some(true)
  }

  /**
   * The field name `data:` at the front of `s`, and the end marker
   * `[DONE]`, compared character by character.
   */
  predicate IsDataField(s: string) {
    |s| >= 5 && s[0] == 'd' && s[1] == 'a' && s[2] == 't' && s[3] == 'a' && s[4] == ':'
  }

  predicate IsDoneMarker(s: string) {
    |s| == 6 && s[0] == '[' && s[1] == 'D' && s[2] == 'O' && s[3] == 'N' && s[4] == 'E' && s[5] == ']'
  }

  lemma FieldNames(s: string)
    ensures IsDataField(s) <==> StartsWith(s, "data:")
    ensures IsDoneMarker(s) <==> s == "[DONE]"
  {
    if StartsWith(s, "data:") {
      assert s[..5] == "data:";
      assert s[0] == 'd' && s[1] == 'a' && s[2] == 't' && s[3] == 'a' && s[4] == ':';
    }
    if IsDataField(s) {
      assert s[..5] == "data:";
    }
    if IsDoneMarker(s) {
      assert s == "[DONE]";
    }
  }

  /**
   * The payload of a raw event: the trimmed event must start with `data:`;
   * the payload is the trimmed rest, and an empty or `[DONE]` payload
   * counts as none.
   */
  function Data(rawEvent: string): Option<string> {
    var event := Strip(rawEvent);
    if !IsDataField(event) then None
    else
      var d := Strip(event[5..]);
      if d == "" || IsDoneMarker(d) then None else Some(d)
  }

  /** A payload is never empty, never the end marker, and already trimmed. */
  lemma DataIsTrimmedPayload(rawEvent: string)
    ensures var d := Data(rawEvent);
      d.Some? ==> d.value != "" && d.value != "[DONE]" && Strip(d.value) == d.value
    ensures Data(rawEvent).Some? ==> StartsWith(Strip(rawEvent), "data:")
  {
    var event := Strip(rawEvent);
    FieldNames(event);
    if Data(rawEvent).Some? {
      var d := Strip(event[5..]);
      FieldNames(d);
      StripOfStripped(d);
    }
  }

  /** The chunk an event yields, if any: a payload that is not valid JSON is skipped. */
  function EventChunk(rawEvent: string, parse: string -> Option<StreamChunk>): Option<StreamChunk> {
    match Data(rawEvent)
    case None => None
    case Some(d) => parse(d)
  }

  /**
   * One event's chunk, if any, followed by the result of the events after
   * it; the generator returns right after yielding a chunk that ends it.
   */
  function Step(yielded: Option<StreamChunk>, r: (seq<StreamChunk>, bool)): (seq<StreamChunk>, bool) {
    match yielded
    case None => r
    case Some(c) => if Ends(c) then ([c], true) else TerminalApi.Then([c], r)
  }

  /**
   * The complete events of a received text, in order, each without its
   * separator. Text after the last separator is an unfinished event and
   * is not among them.
   */
  function Frames(text: string): seq<string>
    decreases |text|
  {
    match Search(text)
    case None => []
    case Some(k) => [text[..k]] + Frames(text[k + SepLen(text, k)..])
  }

  /**
   * The chunks delivered for a sequence of events, and whether an ending
   * chunk stopped the stream. Every chunk but the last goes on, and the
   * stream stopped exactly when the last chunk ends it.
   */
  function Deliver(events: seq<string>, parse: string -> Option<StreamChunk>): (r: (seq<StreamChunk>, bool))
    ensures EndsOnlyLast(r)
    ensures |r.0| <= |events|
    decreases |events|
  {
    if events == [] then ([], false)
    else
      var rest := Deliver(events[1..], parse);
      StepKeepsEnding(EventChunk(events[0], parse), rest);
      Step(EventChunk(events[0], parse), rest)
  }

  /** What `chatStream` yields for a received text, and whether it returned early. */
  function Events(text: string, parse: string -> Option<StreamChunk>): (seq<StreamChunk>, bool) {
    Deliver(Frames(text), parse)
  }

  /** The stream stops exactly at its first ending chunk. */
  predicate EndsOnlyLast(r: (seq<StreamChunk>, bool)) {
    (forall i :: 0 <= i < |r.0| - 1 ==> !Ends(r.0[i])) &&
    (r.1 <==> r.0 != [] && Ends(r.0[|r.0| - 1]))
  }

  lemma StepKeepsEnding(yielded: Option<StreamChunk>, r: (seq<StreamChunk>, bool))
    requires EndsOnlyLast(r)
    ensures EndsOnlyLast(Step(yielded, r))
    ensures |Step(yielded, r).0| <= |r.0| + 1
  {
    if yielded.Some? && !Ends(yielded.value) {
      var s := Step(yielded, r).0;
      assert s == [yielded.value] + r.0;
      forall i | 0 <= i < |s| - 1
        ensures !Ends(s[i])
      {
        if i > 0 {
          assert s[i] == r.0[i - 1];
        }
      }
    }
  }

  /** The first complete event of the text is its first frame. */
  lemma FramesAt(text: string, k: nat, rawEvent: string, rest: string)
    requires Search(text) == Some(k)
    requires rawEvent == text[..k] && rest == text[k + SepLen(text, k)..]
    ensures Frames(text) == [rawEvent] + Frames(rest)
  {
  }

  /** The first event decides the first step of the stream. */
  lemma DeliverFirst(rawEvent: string, events: seq<string>, parse: string -> Option<StreamChunk>)
    ensures Deliver([rawEvent] + events, parse) == Step(EventChunk(rawEvent, parse), Deliver(events, parse))
  {
    assert ([rawEvent] + events)[1..] == events;
  }

  /** Text with no separator is an unfinished event: nothing is read from it. */
  lemma UnfinishedEventIgnored(text: string)
    requires Search(text).None?
    ensures Frames(text) == []
  {
  }

  /** No event holds a separator: each one ends at the first separator after its start. */
  lemma {:induction false} FramesHoldNoSeparator(text: string)
    ensures forall i :: 0 <= i < |Frames(text)| ==> Search(Frames(text)[i]).None?
    decreases |text|
  {
    match Search(text)
    case None =>
    case Some(k) =>
      var rest := text[k + SepLen(text, k)..];
      FramesAt(text, k, text[..k], rest);
      FramesHoldNoSeparator(rest);
      NoSepInPrefix(text, k);
  }

  /** The text before the first separator holds none. */
  lemma NoSepInPrefix(text: string, k: nat)
    requires Search(text) == Some(k)
    ensures Search(text[..k]).None?
  {
    var raw := text[..k];
    if Search(raw).Some? {
      var j := Search(raw).value;
      assert raw + text[k..] == text;
      SepLenAppend(raw, text[k..], j);
    }
  }

  /**
   * An event written as its text and then one of the four separators is
   * read back as that event, provided its text has no separator of its
   * own and does not end in a line break.
   */
  lemma FramedEvent(raw: string, sep: string, rest: string)
    requires sep == "\n\n" || sep == "\r\n\r\n"
    requires Frameable(raw)
    ensures Frames(raw + sep + rest) == [raw] + Frames(rest)
  {
    var text := raw + sep + rest;
    FramedSearch(raw, sep, rest);
    assert text[..|raw|] == raw;
    assert text[|raw| + |sep|..] == rest;
    FramesAt(text, |raw|, raw, rest);
  }

  /** An event text that can be written before a separator and read back whole. */
  predicate Frameable(raw: string) {
    Search(raw).None? && (raw == [] || (raw[|raw| - 1] != '\r' && raw[|raw| - 1] != '\n'))
  }

  /** Each event text followed by the separator, as a server writes a stream. */
  function Framed(raws: seq<string>, sep: string): string
    decreases |raws|
  {
    if raws == [] then "" else raws[0] + sep + Framed(raws[1..], sep)
  }

  /** Reading a written stream gives back exactly the events written. */
  lemma {:induction false} FramesOfFramed(raws: seq<string>, sep: string)
    requires sep == "\n\n" || sep == "\r\n\r\n"
    requires forall i :: 0 <= i < |raws| ==> Frameable(raws[i])
    ensures Frames(Framed(raws, sep)) == raws
    decreases |raws|
  {
    if raws == [] {
      UnfinishedEventIgnored("");
    } else {
      var tail := Framed(raws[1..], sep);
      forall i | 0 <= i < |raws| - 1
        ensures Frameable(raws[1..][i])
      {
        assert raws[1..][i] == raws[i + 1];
      }
      FramesOfFramed(raws[1..], sep);
      FramedEvent(raws[0], sep, tail);
      assert raws == [raws[0]] + raws[1..];
    }
  }

  /** The separator written after an event's text is the first one found. */
  lemma FramedSearch(raw: string, sep: string, rest: string)
    requires sep == "\n\n" || sep == "\r\n\r\n"
    requires Frameable(raw)
    ensures Search(raw + sep + rest) == Some(|raw|)
    ensures SepLen(raw + sep + rest, |raw|) == |sep|
  {
    var text := raw + sep + rest;
    var k := |raw|;
    assert text[k..] == sep + rest;
    assert SepLen(text, k) == |sep|;
    forall i | 0 <= i < k
      ensures SepLen(text, i) == 0
    {
      NoSepInFramed(raw, sep + rest, i);
    }
    FindSepAt(text, 0, k);
  }

  lemma NoSepInFramed(raw: string, tail: string, i: nat)
    requires Frameable(raw)
    requires i < |raw|
    ensures SepLen(raw + tail, i) == 0
  {
    var text := raw + tail;
    var n := SepLen(text, i);
    if n > 0 {
      if i + n <= |raw| {
        assert text[..|raw|] == raw;
        SepLenPrefix(text, |raw|, i);
      } else {
        assert text[|raw| - 1] == raw[|raw| - 1];
        SepLenCovers(text, i, |raw| - 1);
      }
    }
  }

  /** A match that fits in a prefix is a match of the prefix. */
  lemma SepLenPrefix(s: string, m: nat, i: nat)
    requires m <= |s| && i + SepLen(s, i) <= m && SepLen(s, i) > 0
    ensures SepLen(s[..m], i) == SepLen(s, i)
  {
  }

  /** Every character a match covers is a line break. */
  lemma SepLenCovers(s: string, i: nat, j: nat)
    requires i <= j < i + SepLen(s, i)
    ensures s[j] == '\r' || s[j] == '\n'
  {
  }

  /** The payload of `data: ` followed by a payload that is its own trim, not empty and not `[DONE]`. */
  lemma DataOfFrame(payload: string)
    requires payload != "" && payload != "[DONE]" && Strip(payload) == payload
    ensures Data("data: " + payload) == Some(payload)
  {
    var event := "data: " + payload;
    StripOfStripped(payload);
    assert !IsSpace(event[0]) && event[|event| - 1] == payload[|payload| - 1];
    StripOfStripped(event);
    assert IsDataField(event);
    assert event[5..] == " " + payload;
    StripLeadingSpace(payload);
    FieldNames(payload);
  }

  lemma StripLeadingSpace(s: string)
    requires Strip(s) == s
    ensures Strip(" " + s) == s
  {
    assert (" " + s)[1..] == s;
    assert LStrip(" " + s) == LStrip(s);
  }

  // ------------------------------------------------------------ the reader

  /**
   * The checks `chatStream` makes on one raw event: it must start with
   * `data:`, its payload must be neither empty nor `[DONE]`, and the payload
   * must parse; a parsed chunk is yielded, and the generator returns after
   * it when it carries an error or `done`.
   */
  method ReadEvent(rawEvent: string, parse: string -> Option<StreamChunk>) returns (chunk: Option<StreamChunk>)
    ensures chunk == EventChunk(rawEvent, parse)
  {
    var event := Strip(rawEvent);
    chunk := None;
    if IsDataField(event) {
      var dataStr := Strip(event[5..]);
      if dataStr != "" && !IsDoneMarker(dataStr) {
        chunk := parse(dataStr);
      }
    }
  }

  /**
   * One pass of the inner loop of `chatStream`: the first complete event is
   * cut off the front of the buffer, with its separator, and read; the
   * generator stops after a chunk that carries an error or `done`.
   */
  method TakeEvent(buffer: string, delivered: seq<StreamChunk>, parse: string -> Option<StreamChunk>, ghost later: string)
    returns (buffer': string, delivered': seq<StreamChunk>, stopped: bool)
    requires Search(buffer).Some?
    ensures |buffer'| < |buffer|
    ensures TerminalApi.Then(delivered, Events(buffer + later, parse)) ==
      if stopped then (delivered', true) else TerminalApi.Then(delivered', Events(buffer' + later, parse))
  {
    var boundaryIndex := Search(buffer).value;
    var sepLength := SepLen(buffer, boundaryIndex);
    var rawEvent := buffer[..boundaryIndex];
    buffer' := buffer[boundaryIndex + sepLength..];
    BufferedEvent(buffer, later, boundaryIndex, rawEvent, buffer', parse);
    var data := ReadEvent(rawEvent, parse);
    ThenStep(delivered, data, Events(buffer' + later, parse));
    if data.None? {
      delivered', stopped := delivered, false;
    } else {
      delivered' := delivered + [data.value];
      stopped := Ends(data.value);
    }
  }

  /** The first complete event in the buffer is the first event of everything received. */
  lemma BufferedEvent(buffer: string, later: string, k: nat, rawEvent: string, rest: string, parse: string -> Option<StreamChunk>)
    requires Search(buffer) == Some(k)
    requires rawEvent == buffer[..k] && rest == buffer[k + SepLen(buffer, k)..]
    ensures Events(buffer + later, parse) == Step(EventChunk(rawEvent, parse), Events(rest + later, parse))
  {
    var n := SepLen(buffer, k);
    SearchAppend(buffer, later);
    assert SepLen(buffer + later, k) == n;
    assert (buffer + later)[..k] == rawEvent;
    assert (buffer + later)[k + n..] == rest + later;
    FramesAt(buffer + later, k, rawEvent, rest + later);
    DeliverFirst(rawEvent, Frames(rest + later), parse);
  }

  /** A step taken after some chunks were already delivered. */
  lemma ThenStep(delivered: seq<StreamChunk>, yielded: Option<StreamChunk>, r: (seq<StreamChunk>, bool))
    ensures TerminalApi.Then(delivered, Step(yielded, r)) ==
      match yielded
      case None => TerminalApi.Then(delivered, r)
      case Some(c) => if Ends(c) then (delivered + [c], true) else TerminalApi.Then(delivered + [c], r)
  {
    if yielded.Some? {
      TerminalApi.ThenThen(delivered, [yielded.value], r);
      assert delivered + [yielded.value] + [] == delivered + [yielded.value];
    } else {
      assert delivered + [] == delivered;
    }
  }

  /**
   * The inner loop of `chatStream`: takes every complete event off the
   * front of the buffer until no separator is left or an ending chunk
   * returns. `later` stands for the text still to come.
   */
  method TakeEvents(buffer: string, parse: string -> Option<StreamChunk>, ghost later: string)
    returns (rest: string, delivered: seq<StreamChunk>, stopped: bool)
    ensures !stopped ==> Search(rest).None?
    ensures Events(buffer + later, parse) ==
      if stopped then (delivered, true) else TerminalApi.Then(delivered, Events(rest + later, parse))
  {
    rest, delivered, stopped := buffer, [], false;
    assert [] + Events(buffer + later, parse).0 == Events(buffer + later, parse).0;
    var boundaryIndex := Search(rest);
    while boundaryIndex.Some?
      invariant boundaryIndex == Search(rest)
      invariant Events(buffer + later, parse) == TerminalApi.Then(delivered, Events(rest + later, parse))
      decreases |rest|
    {
      rest, delivered, stopped := TakeEvent(rest, delivered, parse, later);
      if stopped {
        return;
      }
      boundaryIndex := Search(rest);
    }
  }

  /** `response.ok`: a status in the 2xx range. */
  predicate Ok(status: nat) {
    200 <= status < 300
  }

  /**
   * `chatStream`: a response that is not OK, or has no body, fails before
   * anything is delivered; otherwise the body's chunks are appended to a
   * buffer and every complete event is taken off its front. What is
   * delivered depends only on the concatenation of the chunks, never on
   * where the network cut them.
   */
  method ChatStream(status: nat, body: Option<seq<string>>, parse: string -> Option<StreamChunk>)
    returns (r: Result<seq<StreamChunk>>)
    ensures r == if !Ok(status) || body.None? then Failure("HTTP error! status: " + Decimal(status))
      else Success(Events(Concat(body.value), parse).0)
  {
    if !Ok(status) || body.None? {
      return Failure("HTTP error! status: " + Decimal(status));
    }
    var delivered := ReadBody(body.value, parse);
    return Success(delivered);
  }

  /**
   * The read loop of `chatStream`: each chunk is appended to the buffer
   * and the complete events are taken off its front.
   */
  method ReadBody(chunks: seq<string>, parse: string -> Option<StreamChunk>) returns (delivered: seq<StreamChunk>)
    ensures delivered == Events(Concat(chunks), parse).0
  {
    delivered := [];
    var buffer := "";
    assert buffer + Concat(chunks[0..]) == Concat(chunks);
    assert [] + Events(Concat(chunks), parse).0 == Events(Concat(chunks), parse).0;
    for i := 0 to |chunks|
      invariant Search(buffer).None?
      invariant Events(Concat(chunks), parse) == TerminalApi.Then(delivered, Events(buffer + Concat(chunks[i..]), parse))
    {
      ghost var later := Concat(chunks[i + 1..]);
      TerminalApi.Received(buffer, chunks, i);
      var taken, stopped;
      buffer, taken, stopped := TakeEvents(buffer + chunks[i], parse, later);
      TerminalApi.ThenThen(delivered, taken, Events(buffer + later, parse));
      delivered := delivered + taken;
      if stopped {
        return;
      }
    }
    assert buffer + Concat(chunks[|chunks|..]) == buffer;
    UnfinishedEventIgnored(buffer);
    assert delivered + [] == delivered;
  }
}
