/**
 * The terminal client's side of the HTTP API (terminal/api_client.py):
 * endpoint URLs, the JSON body of a chat request, and the reader of the
 * streamed reply. The reader handles a subset of the event-stream format of
 * the WHATWG HTML Living Standard, section 9.2 (server-sent events): one
 * `data:` line per event, read line by line, with `[DONE]` ending the stream.
 */
module TerminalApi {
  import opened Wrappers
  import opened Text

  const DefaultBaseUrl := "http://localhost:8000"
  const ApiPrefix := "/api/v1"

  // ------------------------------------------------------------------ URLs

  /** `APIClient.__init__`: the configured base URL with every trailing slash removed. */
  function BaseUrl(configured: string): (r: string)
    ensures StartsWith(configured, r)
    ensures r == [] || r[|r| - 1] != '/'
    ensures forall i :: |r| <= i < |configured| ==> configured[i] == '/'
  {
    RStripChar(configured, '/')
  }

  /** `APIClient._url`: the base, the API prefix, then the path. */
  function Url(configured: string, path: string): (r: string)
    ensures StartsWith(r, BaseUrl(configured))
    ensures r[|BaseUrl(configured)|..] == ApiPrefix + path
  {
    BaseUrl(configured) + ApiPrefix + path
  }

  /** Trailing slashes on the configured base never reach an endpoint URL. */
  lemma UrlIgnoresTrailingSlash(configured: string, path: string)
    ensures Url(configured + "/", path) == Url(configured, path)
  {
    var s := configured + "/";
    assert s[..|s| - 1] == configured;
  }

  // ------------------------------------------------------------- the lines

  /**
   * The complete lines of `s`, reading it a character at a time; `cur`
   * is the part of a line already read. The text after the last newline
   * is still waiting for its end and is not a line yet.
   */
  function LinesFrom(s: string, cur: string): seq<string>
    decreases |s|
  {
    if s == [] then []
    else if s[0] == '\n' then [cur] + LinesFrom(s[1..], "")
    else LinesFrom(s[1..], cur + [s[0]])
  }

  function Lines(text: string): seq<string> {
    LinesFrom(text, "")
  }

  /** Characters other than newlines only extend the line being read. */
  lemma {:induction false} LinesFromSkip(a: string, b: string, cur: string)
    requires '\n' !in a
    ensures LinesFrom(a + b, cur) == LinesFrom(b, cur + a)
    decreases |a|
  {
    if a == [] {
      assert a + b == b && cur + a == cur;
    } else {
      assert (a + b)[0] == a[0] && (a + b)[1..] == a[1..] + b;
      LinesFromSkip(a[1..], b, cur + [a[0]]);
      assert cur + [a[0]] + a[1..] == cur + a;
    }
  }

  /** Cutting the text at its first newline yields that line, then the lines of the rest. */
  lemma LinesAtFirst(line: string, rest: string)
    requires '\n' !in line
    ensures Lines(line + "\n" + rest) == [line] + Lines(rest)
  {
    LinesFromSkip(line, "\n" + rest, "");
    assert line + "\n" + rest == line + ("\n" + rest);
    assert "" + line == line;
    assert ("\n" + rest)[0] == '\n' && ("\n" + rest)[1..] == rest;
  }

  /** Text without a newline holds no complete line. */
  lemma LinesWithoutNewline(text: string)
    requires '\n' !in text
    ensures Lines(text) == []
  {
    LinesFromSkip(text, "", "");
    assert text + "" == text;
  }

  /** Text that ends at a line boundary keeps its lines when more text follows. */
  lemma {:induction false} LinesFromAppend(a: string, b: string, cur: string)
    requires a != [] && a[|a| - 1] == '\n'
    ensures LinesFrom(a + b, cur) == LinesFrom(a, cur) + Lines(b)
    decreases |a|
  {
    assert (a + b)[0] == a[0] && (a + b)[1..] == a[1..] + b;
    if a[1..] == [] {
      assert a[1..] + b == b;
    } else if a[0] == '\n' {
      LinesFromAppend(a[1..], b, "");
    } else {
      LinesFromAppend(a[1..], b, cur + [a[0]]);
    }
  }

  lemma LinesAppend(a: string, b: string)
    requires a == [] || a[|a| - 1] == '\n'
    ensures Lines(a + b) == Lines(a) + Lines(b)
  {
    if a == [] {
      assert a + b == b;
    } else {
      LinesFromAppend(a, b, "");
    }
  }

  /** The lines are the pieces of Python's `text.split("\n")`, all but the last. */
  lemma {:induction false} LinesFromSplit(s: string, cur: string)
    ensures var pieces := SplitOn(s, '\n'); LinesFrom(s, cur) == ([cur + pieces[0]] + pieces[1..])[..|pieces| - 1]
    decreases |s|
  {
    if s != [] {
      var pieces := SplitOn(s, '\n');
      var rest := SplitOn(s[1..], '\n');
      LinesFromSplit(s[1..], if s[0] == '\n' then "" else cur + [s[0]]);
      if s[0] == '\n' {
        assert pieces == [""] + rest;
        assert "" + rest[0] == rest[0];
        assert rest == [rest[0]] + rest[1..];
        assert LinesFrom(s, cur) == [cur] + rest[..|rest| - 1];
        assert pieces[0] == "" && cur + "" == cur && pieces[1..] == rest;
        assert [cur + pieces[0]] + pieces[1..] == [cur] + rest;
        assert ([cur] + rest)[..|rest|] == [cur] + rest[..|rest| - 1];
      } else {
        var cur' := cur + [s[0]];
        assert LinesFrom(s, cur) == LinesFrom(s[1..], cur');
        assert pieces == [[s[0]] + rest[0]] + rest[1..];
        assert |pieces| == |rest| && pieces[1..] == rest[1..];
        assert cur + pieces[0] == cur' + rest[0];
        assert [cur + pieces[0]] + pieces[1..] == [cur' + rest[0]] + rest[1..];
      }
    }
  }

  lemma LinesAreSplitPieces(text: string)
    ensures var pieces := SplitOn(text, '\n'); Lines(text) == pieces[..|pieces| - 1]
  {
    LinesFromSplit(text, "");
    var pieces := SplitOn(text, '\n');
    assert "" + pieces[0] == pieces[0];
    assert [pieces[0]] + pieces[1..] == pieces;
  }

  // ------------------------------------------------------------- the events

  /** What one line does to the stream: nothing, end it, or deliver a parsed payload. */
  datatype Outcome<D> = Skip | Stop | Deliver(data: D)

  /**
   * The payload a line carries: the line with its trailing carriage
   * returns removed must start with `data:`; the payload is the rest with
   * leading whitespace removed, and an empty payload counts as none.
   */
  function Payload(line: string): (p: Option<string>)
    ensures p.Some? ==> p.value != "" && !IsSpace(p.value[0])
    ensures p.Some? ==> StartsWith(RStripChar(line, '\r'), "data:")
  {
    var l := RStripChar(line, '\r');
    if l == "" || !StartsWith(l, "data:") then None
    else
      var d := LStrip(l[5..]);
      if d == "" then None else Some(d)
  }

  /** `[DONE]` ends the stream; a payload that is not valid JSON is skipped. */
  function LineOutcome<D>(line: string, parse: string -> Option<D>): Outcome<D> {
    match Payload(line)
    case None => Skip
    case Some(p) =>
      if p == "[DONE]" then Stop
      else match parse(p)
        case None => Skip
        case Some(d) => Deliver(d)
  }

  /**
   * Only a `[DONE]` payload stops the stream, and a payload is delivered
   * exactly when it is not `[DONE]` and parses.
   */
  lemma LineOutcomeCases<D>(line: string, parse: string -> Option<D>)
    ensures LineOutcome(line, parse).Stop? <==> Payload(line) == Some("[DONE]")
    ensures LineOutcome(line, parse).Deliver? <==>
      Payload(line).Some? && Payload(line) != Some("[DONE]") && parse(Payload(line).value).Some?
    ensures LineOutcome(line, parse).Deliver? ==> parse(Payload(line).value) == Some(LineOutcome(line, parse).data)
  {
  }

  /** A line ended by CR LF reads like the same line ended by LF. */
  lemma CarriageReturnIgnored<D>(line: string, parse: string -> Option<D>)
    ensures LineOutcome(line + "\r", parse) == LineOutcome(line, parse)
  {
    var s := line + "\r";
    assert s[..|s| - 1] == line;
  }

  /** The payload of a `data:` line is the rest of it, carriage returns and leading whitespace removed. */
  lemma PayloadOfData(body: string)
    ensures var d := LStrip(RStripChar(body, '\r'));
      Payload("data:" + body) == if d == "" then None else Some(d)
  {
    RStripAppend("data:", body, '\r');
    var l := "data:" + RStripChar(body, '\r');
    assert l[..5] == "data:" && l[5..] == RStripChar(body, '\r');
  }

  /** Whitespace between `data:` and the payload does not matter. */
  lemma SpaceAfterColonIgnored(rest: string)
    ensures Payload("data: " + rest) == Payload("data:" + rest)
  {
    assert "data: " + rest == "data:" + (" " + rest);
    PayloadOfData(rest);
    PayloadOfData(" " + rest);
    LeadingSpaceIgnored(rest);
  }

  lemma LeadingSpaceIgnored(body: string)
    ensures LStrip(RStripChar(" " + body, '\r')) == LStrip(RStripChar(body, '\r'))
  {
    RStripAppend(" ", body, '\r');
    var r := RStripChar(body, '\r');
    assert (" " + r)[0] == ' ' && (" " + r)[1..] == r;
  }

  /** Stripping a character off the end never reaches into a head that does not end with it. */
  lemma {:induction false} RStripAppend(head: string, s: string, c: char)
    requires head == [] || head[|head| - 1] != c
    ensures RStripChar(head + s, c) == head + RStripChar(s, c)
    decreases |s|
  {
    if s == [] {
      assert head + s == head;
    } else {
      assert (head + s)[..|head + s| - 1] == head + s[..|s| - 1];
      RStripAppend(head, s[..|s| - 1], c);
    }
  }

  /** `(ys, stopped)` followed by a later result. */
  function Then<D>(ys: seq<D>, r: (seq<D>, bool)): (seq<D>, bool) {
    (ys + r.0, r.1)
  }

  /**
   * The payloads delivered for a sequence of lines, and whether a
   * `[DONE]` line ended the stream before the lines ran out.
   */
  function Events<D>(lines: seq<string>, parse: string -> Option<D>): (r: (seq<D>, bool))
    ensures |r.0| <= |lines|
    decreases |lines|
  {
    if lines == [] then ([], false) else Step(LineOutcome(lines[0], parse), Events(lines[1..], parse))
  }

  /** One line's outcome, followed by the result of the lines after it. */
  function Step<D>(o: Outcome<D>, r: (seq<D>, bool)): (seq<D>, bool) {
    match o
    case Skip => r
    case Stop => ([], true)
    case Deliver(d) => Then([d], r)
  }

  /** A step taken after some payloads were already delivered. */
  lemma ThenStep<D>(delivered: seq<D>, o: Outcome<D>, r: (seq<D>, bool))
    ensures Then(delivered, Step(o, r)) ==
      match o
      case Skip => Then(delivered, r)
      case Stop => (delivered, true)
      case Deliver(d) => Then(delivered + [d], r)
  {
    match o
    case Skip =>
    case Stop => assert delivered + [] == delivered;
    case Deliver(d) => assert delivered + ([d] + r.0) == (delivered + [d]) + r.0;
  }

  /** The payloads the reader delivers for a received text. */
  function Stream<D>(text: string, parse: string -> Option<D>): (seq<D>, bool) {
    Events(Lines(text), parse)
  }

  /** One complete line at the front of the text decides the first step of the stream. */
  lemma StreamAtFirst<D>(line: string, rest: string, parse: string -> Option<D>)
    requires '\n' !in line
    ensures Stream(line + "\n" + rest, parse) == Step(LineOutcome(line, parse), Stream(rest, parse))
  {
    LinesAtFirst(line, rest);
    var ls := [line] + Lines(rest);
    assert ls[0] == line && ls[1..] == Lines(rest);
  }

  /** The same, for a newline found at index `k` of the text. */
  lemma StreamAtNewline<D>(text: string, k: nat, later: string, parse: string -> Option<D>)
    requires k < |text| && text[k] == '\n' && '\n' !in text[..k]
    ensures Stream(text + later, parse) == Step(LineOutcome(text[..k], parse), Stream(text[k + 1..] + later, parse))
  {
    assert text + later == text[..k] + "\n" + (text[k + 1..] + later) by {
      assert text == text[..k] + [text[k]] + text[k + 1..];
    }
    StreamAtFirst(text[..k], text[k + 1..] + later, parse);
  }

  /** Lines after a `[DONE]` are never read; otherwise the two runs concatenate. */
  lemma {:induction false} EventsAppend<D>(a: seq<string>, b: seq<string>, parse: string -> Option<D>)
    ensures Events(a + b, parse) == if Events(a, parse).1 then Events(a, parse) else Then(Events(a, parse).0, Events(b, parse))
    decreases |a|
  {
    if a == [] {
      assert a + b == b;
      assert [] + Events(b, parse).0 == Events(b, parse).0;
    } else {
      assert (a + b)[0] == a[0] && (a + b)[1..] == a[1..] + b;
      EventsAppend(a[1..], b, parse);
      match LineOutcome(a[0], parse)
      case Skip =>
      case Stop =>
      case Deliver(d) =>
        assert [d] + (Events(a[1..], parse).0 + Events(b, parse).0) == [d] + Events(a[1..], parse).0 + Events(b, parse).0;
    }
  }

  /** The payloads of every line that would deliver one, were the stream never stopped. */
  function Deliverable<D>(lines: seq<string>, parse: string -> Option<D>): seq<D>
    decreases |lines|
  {
    if lines == [] then []
    else match LineOutcome(lines[0], parse)
      case Deliver(d) => [d] + Deliverable(lines[1..], parse)
      case _ => Deliverable(lines[1..], parse)
  }

  /**
   * What is delivered are the parsed payloads of the lines, in order, cut
   * off at the first `[DONE]`; without a `[DONE]` nothing is cut off.
   */
  lemma {:induction false} EventsArePayloads<D>(lines: seq<string>, parse: string -> Option<D>)
    ensures Events(lines, parse).0 <= Deliverable(lines, parse)
    ensures !Events(lines, parse).1 ==> Events(lines, parse).0 == Deliverable(lines, parse)
    decreases |lines|
  {
    if lines != [] {
      EventsArePayloads(lines[1..], parse);
    }
  }

  /** Text after the last newline is never delivered, however it ends. */
  lemma TrailingTextIgnored<D>(text: string, partial: string, parse: string -> Option<D>)
    requires text == [] || text[|text| - 1] == '\n'
    requires '\n' !in partial
    ensures Stream(text + partial, parse) == Stream(text, parse)
  {
    LinesAppend(text, partial);
    LinesWithoutNewline(partial);
    assert Lines(text) + [] == Lines(text);
  }

  /** Texts cut at a line boundary: the stream of the whole is the first stream, then the second unless the first stopped. */
  lemma StreamAppend<D>(a: string, b: string, parse: string -> Option<D>)
    requires a == [] || a[|a| - 1] == '\n'
    ensures Stream(a + b, parse) == if Stream(a, parse).1 then Stream(a, parse) else Then(Stream(a, parse).0, Stream(b, parse))
  {
    LinesAppend(a, b);
    EventsAppend(Lines(a), Lines(b), parse);
  }

  /** A `[DONE]` line ends the stream: nothing after it is delivered. */
  lemma DoneEndsStream<D>(text: string, done: string, after: string, parse: string -> Option<D>)
    requires text == [] || text[|text| - 1] == '\n'
    requires '\n' !in done && Payload(done) == Some("[DONE]")
    ensures Stream(text + done + "\n" + after, parse).0 == Stream(text, parse).0
    ensures Stream(text + done + "\n" + after, parse).1
  {
    var tail := done + "\n" + after;
    assert text + done + "\n" + after == text + tail;
    StreamAppend(text, tail, parse);
    StreamAtFirst(done, after, parse);
    assert Stream(text, parse).0 + [] == Stream(text, parse).0;
  }

  // ------------------------------------------------------------ the reader

  /** The received text of the chunks from index `i` on, split off its first chunk. */
  lemma ConcatFrom(chunks: seq<string>, i: nat)
    requires i < |chunks|
    ensures Concat(chunks[i..]) == chunks[i] + Concat(chunks[i + 1..])
  {
    assert chunks[i..] == [chunks[i]] + chunks[i + 1..];
    ConcatAppend([chunks[i]], chunks[i + 1..]);
    assert Concat([chunks[i]]) == Concat([]) + chunks[i];
  }

  /** The buffer followed by the chunks from index `i` on, with chunk `i` moved into the buffer. */
  lemma Received(buffer: string, chunks: seq<string>, i: nat)
    requires i < |chunks|
    ensures buffer + Concat(chunks[i..]) == (buffer + chunks[i]) + Concat(chunks[i + 1..])
    ensures chunks[i] == "" ==> buffer + chunks[i] == buffer
  {
    ConcatFrom(chunks, i);
  }

  lemma ThenThen<D>(a: seq<D>, b: seq<D>, r: (seq<D>, bool))
    ensures Then(a, Then(b, r)) == Then(a + b, r)
  {
    assert a + (b + r.0) == (a + b) + r.0;
  }

  /**
   * The checks `chat_stream` makes on one line: `continue` past empty and
   * non-`data:` lines and empty payloads, return on `[DONE]`, skip a
   * payload that is not valid JSON.
   */
  method ReadLine<D>(rawLine: string, parse: string -> Option<D>) returns (outcome: Outcome<D>)
    ensures outcome == LineOutcome(rawLine, parse)
  {
    var line := RStripChar(rawLine, '\r');
    if line == "" || !StartsWith(line, "data:") {
      return Skip;
    }
    var dataStr := LStrip(line[5..]);
    if dataStr == "" {
      return Skip;
    }
    if dataStr == "[DONE]" {
      return Stop;
    }
    var data := parse(dataStr);
    if data.None? {
      return Skip;
    }
    return Deliver(data.value);
  }

  /**
   * One pass of the inner loop of `chat_stream`: the first complete line
   * is taken off the front of `rest` and read.
   */
  method TakeLine<D>(rest: string, delivered: seq<D>, parse: string -> Option<D>, ghost later: string)
    returns (rest': string, delivered': seq<D>, stopped: bool)
    requires '\n' in rest
    ensures |rest'| < |rest|
    ensures Then(delivered, Stream(rest + later, parse)) ==
      if stopped then (delivered', true) else Then(delivered', Stream(rest' + later, parse))
  {
    var k := IndexOfChar(rest, '\n');
    var rawLine := rest[..k];
    rest' := rest[k + 1..];
    StreamAtNewline(rest, k, later, parse);
    var outcome := ReadLine(rawLine, parse);
    ThenStep(delivered, outcome, Stream(rest' + later, parse));
    match outcome
    case Skip =>
      delivered', stopped := delivered, false;
    case Stop =>
      delivered', stopped := delivered, true;
    case Deliver(data) =>
      delivered', stopped := delivered + [data], false;
  }

  /**
   * The inner loop of `chat_stream`: takes every complete line off the
   * front of the buffer, delivering payloads, until no newline is left or
   * a `[DONE]` line returns. `later` stands for the text still to come.
   */
  method TakeLines<D>(buffer: string, parse: string -> Option<D>, ghost later: string)
    returns (rest: string, delivered: seq<D>, stopped: bool)
    ensures !stopped ==> '\n' !in rest
    ensures Stream(buffer + later, parse) ==
      if stopped then (delivered, true) else Then(delivered, Stream(rest + later, parse))
  {
    rest, delivered, stopped := buffer, [], false;
    assert [] + Stream(buffer + later, parse).0 == Stream(buffer + later, parse).0;
    while '\n' in rest
      invariant Stream(buffer + later, parse) == Then(delivered, Stream(rest + later, parse))
      decreases |rest|
    {
      rest, delivered, stopped := TakeLine(rest, delivered, parse, later);
      if stopped {
        return;
      }
    }
  }

  /**
   * `chat_stream`: nothing unless the status is 200; otherwise the chunks
   * are appended to a buffer and every complete line is taken off its
   * front. What is delivered depends only on the concatenation of the
   * chunks, never on where the network cut them.
   */
  method ChatStream<D>(status: int, chunks: seq<string>, parse: string -> Option<D>) returns (delivered: seq<D>)
    ensures delivered == if status == 200 then Stream(Concat(chunks), parse).0 else []
  {
    delivered := [];
    if status != 200 {
      return;
    }
    var buffer := "";
    assert buffer + Concat(chunks[0..]) == Concat(chunks);
    assert [] + Stream(Concat(chunks), parse).0 == Stream(Concat(chunks), parse).0;
    for i := 0 to |chunks|
      invariant '\n' !in buffer
      invariant Stream(Concat(chunks), parse) == Then(delivered, Stream(buffer + Concat(chunks[i..]), parse))
    {
      ghost var later := Concat(chunks[i + 1..]);
      Received(buffer, chunks, i);
      if chunks[i] == "" {
        continue;
      }
      var taken, stopped;
      buffer, taken, stopped := TakeLines(buffer + chunks[i], parse, later);
      ThenThen(delivered, taken, Stream(buffer + later, parse));
      delivered := delivered + taken;
      if stopped {
        return;
      }
    }
    LinesWithoutNewline(buffer);
    assert buffer + Concat(chunks[|chunks|..]) == buffer;
    assert delivered + [] == delivered;
  }
}
