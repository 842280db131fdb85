/**
 * The OpenAI-compatible client of backend/providers/openai_base.py: the
 * reasoning probe over an SDK message, the server-sent events `stream_chat`
 * produces from the SDK's chunk stream, `chat`'s reply and error, and
 * `list_models`' fallback. The SDK is the sequence of chunks it yields
 * before it stops, plus the exception it raised, if any.
 */
module OpenAICompat {
  import opened Wrappers

  /** An event a provider stream yields as `data: {...}\n\n`. */
  datatype Event =
    | ReasoningEvent(reasoning: string)
    | ContentEvent(content: string)
    | DoneEvent
    | ErrorEvent(error: string)

  /** The events after which a consumer stops. */
  predicate Terminal(e: Event) {
    e.DoneEvent? || e.ErrorEvent?
  }

  /**
   * The attributes `_extract_reasoning` probes, in its order; None when
   * the attribute is missing or None.
   */
  datatype Probes = Probes(reasoningContent: Option<string>, reasoning: Option<string>, thought: Option<string>)

  function ProbeOrder(p: Probes): seq<Option<string>> {
    [p.reasoningContent, p.reasoning, p.thought]
  }

  /** Python truthiness of an optional string. */
  predicate Truthy(v: Option<string>) {
    v.Some? && v.value != ""
  }

  /** The first truthy value, or "". */
  function FirstTruthy(vals: seq<Option<string>>): string {
    if vals == [] then ""
    else if Truthy(vals[0]) then vals[0].value
    else FirstTruthy(vals[1..])
  }

  /** "" exactly when no value is truthy; otherwise the value of the first truthy one. */
  lemma {:induction false} FirstTruthySpec(vals: seq<Option<string>>)
    ensures FirstTruthy(vals) == "" <==> forall k :: 0 <= k < |vals| ==> !Truthy(vals[k])
    ensures FirstTruthy(vals) != "" ==>
      exists k :: 0 <= k < |vals| && vals[k] == Some(FirstTruthy(vals)) && forall j :: 0 <= j < k ==> !Truthy(vals[j])
    decreases |vals|
  {
    if vals != [] && !Truthy(vals[0]) {
      var rest := vals[1..];
      FirstTruthySpec(rest);
      assert forall k :: 1 <= k < |vals| ==> vals[k] == rest[k - 1];
      if FirstTruthy(rest) != "" {
        var k :| 0 <= k < |rest| && rest[k] == Some(FirstTruthy(rest)) && forall j :: 0 <= j < k ==> !Truthy(rest[j]);
        assert vals[k + 1] == Some(FirstTruthy(vals));
      }
    }
  }

  /** What `_extract_reasoning` returns: "" for None, else the first non-empty of reasoning_content, reasoning, thought. */
  function Reasoning(m: Option<Probes>): (r: string)
    ensures m.None? ==> r == ""
    ensures m.Some? && Truthy(m.value.reasoningContent) ==> r == m.value.reasoningContent.value
    ensures m.Some? && !Truthy(m.value.reasoningContent) && Truthy(m.value.reasoning) ==> r == m.value.reasoning.value
    ensures m.Some? && !Truthy(m.value.reasoningContent) && !Truthy(m.value.reasoning) ==>
      r == (if Truthy(m.value.thought) then m.value.thought.value else "")
  {
    if m.None? then "" else
      var p := m.value;
      var vals := ProbeOrder(p);
      assert vals[1..] == [p.reasoning, p.thought];
      assert vals[1..][1..] == [p.thought];
      assert vals[1..][1..][1..] == [];
      assert FirstTruthy([p.thought]) == if Truthy(p.thought) then p.thought.value else "";
      assert FirstTruthy([p.reasoning, p.thought]) == if Truthy(p.reasoning) then p.reasoning.value else FirstTruthy([p.thought]);
      FirstTruthy(vals)
  }

  /** `_extract_reasoning`: the probe loop, returning at the first truthy attribute. */
  method ExtractReasoning(m: Option<Probes>) returns (r: string)
    ensures r == Reasoning(m)
  {
    if m.None? {
      return "";
    }
    var fields := ProbeOrder(m.value);
    for i := 0 to |fields|
      invariant FirstTruthy(fields[i..]) == FirstTruthy(fields)
    {
      assert fields[i..][1..] == fields[i + 1..];
      if Truthy(fields[i]) {
        return fields[i].value;
      }
    }
    return "";
  }

  /** A chat-completion message or stream delta. */
  datatype Delta = Delta(probes: Probes, content: Option<string>)

  /** The events one delta yields: its reasoning, if any, and then its content, if any. */
  function DeltaEvents(d: Delta): (es: seq<Event>)
    ensures |es| <= 2 && forall k :: 0 <= k < |es| ==> !Terminal(es[k])
    ensures |es| == 2 ==> es[0].ReasoningEvent? && es[1].ContentEvent?
  {
    var reasoning := Reasoning(Some(d.probes));
    (if reasoning != "" then [ReasoningEvent(reasoning)] else [])
      + (if Truthy(d.content) then [ContentEvent(d.content.value)] else [])
  }

  /** The events of the chunks received, each chunk read through its first choice; a chunk without choices yields nothing. */
  function Emitted<D>(chunks: seq<seq<D>>, eventsOf: D -> seq<Event>): seq<Event> {
    if chunks == [] then []
    else
      var last := chunks[|chunks| - 1];
      Emitted(chunks[..|chunks| - 1], eventsOf) + (if last == [] then [] else eventsOf(last[0]))
  }

  /** The whole stream: the chunks' events, then `done`, or the error when the SDK raised. */
  function Streamed<D>(chunks: seq<seq<D>>, eventsOf: D -> seq<Event>, failure: Option<string>): seq<Event> {
    Emitted(chunks, eventsOf) + [if failure.Some? then ErrorEvent("Error: " + failure.value) else DoneEvent]
  }

  lemma {:induction false} EmittedNotTerminal<D>(chunks: seq<seq<D>>, eventsOf: D -> seq<Event>)
    requires forall c, k :: c in chunks && c != [] && 0 <= k < |eventsOf(c[0])| ==> !Terminal(eventsOf(c[0])[k])
    ensures forall k :: 0 <= k < |Emitted(chunks, eventsOf)| ==> !Terminal(Emitted(chunks, eventsOf)[k])
    decreases |chunks|
  {
    if chunks != [] {
      var init := chunks[..|chunks| - 1];
      assert forall c :: c in init ==> c in chunks;
      EmittedNotTerminal(init, eventsOf);
      var last := chunks[|chunks| - 1];
      assert last in chunks;
      var a, b := Emitted(init, eventsOf), (if last == [] then [] else eventsOf(last[0]));
      forall k | 0 <= k < |a + b| ensures !Terminal((a + b)[k]) {
        if k >= |a| {
          assert (a + b)[k] == b[k - |a|];
        }
      }
    }
  }

  /**
   * Exactly one `done` or `error` event ends every stream, and none comes
   * earlier; it is the error exactly when the SDK raised.
   */
  lemma StreamedEndsOnce<D>(chunks: seq<seq<D>>, eventsOf: D -> seq<Event>, failure: Option<string>)
    requires forall c, k :: c in chunks && c != [] && 0 <= k < |eventsOf(c[0])| ==> !Terminal(eventsOf(c[0])[k])
    ensures var es := Streamed(chunks, eventsOf, failure);
      && es != [] && Terminal(es[|es| - 1])
      && (es[|es| - 1].ErrorEvent? <==> failure.Some?)
      && forall k :: 0 <= k < |es| - 1 ==> !Terminal(es[k])
  {
    EmittedNotTerminal(chunks, eventsOf);
  }

  /** The content a consumer gets from the stream: the content events, concatenated. */
  function ContentOf(es: seq<Event>): string {
    if es == [] then ""
    else ContentOf(es[..|es| - 1]) + (if es[|es| - 1].ContentEvent? then es[|es| - 1].content else "")
  }

  lemma {:induction false} ContentOfAppend(a: seq<Event>, b: seq<Event>)
    ensures ContentOf(a + b) == ContentOf(a) + ContentOf(b)
    decreases |b|
  {
    if b == [] {
      assert a + b == a;
    } else {
      assert (a + b)[..|a + b| - 1] == a + b[..|b| - 1];
      assert (a + b)[|a + b| - 1] == b[|b| - 1];
      ContentOfAppend(a, b[..|b| - 1]);
    }
  }

  /** The content of the deltas, through each chunk's first choice; a missing content counts as "". */
  function DeltaContent(chunks: seq<seq<Delta>>): string {
    if chunks == [] then ""
    else
      var last := chunks[|chunks| - 1];
      DeltaContent(chunks[..|chunks| - 1])
        + (if last != [] && last[0].content.Some? then last[0].content.value else "")
  }

  /** A delta's events carry its content, when that is non-empty. */
  lemma DeltaEventsContent(d: Delta)
    ensures ContentOf(DeltaEvents(d)) == if d.content.Some? then d.content.value else ""
  {
    var reasoning := Reasoning(Some(d.probes));
    var r := if reasoning != "" then [ReasoningEvent(reasoning)] else [];
    var c := if Truthy(d.content) then [ContentEvent(d.content.value)] else [];
    ContentOfAppend(r, c);
    if r != [] {
      assert r[..0] == [];
    }
    if c != [] {
      assert c[..0] == [];
    }
  }

  lemma {:induction false} EmittedContent(chunks: seq<seq<Delta>>)
    ensures ContentOf(Emitted(chunks, DeltaEvents)) == DeltaContent(chunks)
    decreases |chunks|
  {
    if chunks != [] {
      var init := chunks[..|chunks| - 1];
      var last := chunks[|chunks| - 1];
      EmittedContent(init);
      var b := if last == [] then [] else DeltaEvents(last[0]);
      ContentOfAppend(Emitted(init, DeltaEvents), b);
      if last != [] {
        DeltaEventsContent(last[0]);
      }
    }
  }

  /** Chunking loses no text: the streamed content concatenates to the content of the deltas. */
  lemma StreamKeepsContent(chunks: seq<seq<Delta>>, failure: Option<string>)
    ensures ContentOf(Streamed(chunks, DeltaEvents, failure)) == DeltaContent(chunks)
  {
    var tail := [if failure.Some? then ErrorEvent("Error: " + failure.value) else DoneEvent];
    ContentOfAppend(Emitted(chunks, DeltaEvents), tail);
    assert tail[..0] == [];
    EmittedContent(chunks);
  }

  /** `stream_chat`: the events yielded, in order. */
  method StreamChat(chunks: seq<seq<Delta>>, failure: Option<string>) returns (events: seq<Event>)
    ensures events == Streamed(chunks, DeltaEvents, failure)
  {
    events := [];
    for i := 0 to |chunks|
      invariant events == Emitted(chunks[..i], DeltaEvents)
    {
      var chunk := chunks[i];
      assert Emitted(chunks[..i + 1], DeltaEvents)
        == Emitted(chunks[..i], DeltaEvents) + (if chunk == [] then [] else DeltaEvents(chunk[0])) by {
        assert chunks[..i + 1][..i] == chunks[..i];
      }
      if chunk == [] {
        continue;
      }
      var delta := chunk[0];
      ghost var before := events;
      var reasoning := ExtractReasoning(Some(delta.probes));
      if reasoning != "" {
        events := events + [ReasoningEvent(reasoning)];
      }
      if Truthy(delta.content) {
        events := events + [ContentEvent(delta.content.value)];
      }
      assert events == before + DeltaEvents(delta);
    }
    assert chunks[..|chunks|] == chunks;
    if failure.Some? {
      events := events + [ErrorEvent("Error: " + failure.value)];
    } else {
      events := events + [DoneEvent];
    }
  }

  /** `IndexError`'s message, raised when a reply carries no choices. */
  const NoChoiceMessage := "list index out of range"

  /**
   * `chat`: the first choice's content (None as "") and reasoning; any
   * failure, including a reply without choices, is re-raised as "API error: …".
   */
  function Chat(response: Result<seq<Delta>>): (r: Result<(string, string)>)
    ensures response.Failure? ==> r == Failure("API error: " + response.error)
    ensures response.Success? && response.value == [] ==> r == Failure("API error: " + NoChoiceMessage)
    ensures response.Success? && response.value != [] ==> r.Success?
    ensures r.Success? ==>
      && response.Success? && response.value != []
      && r.value.1 == Reasoning(Some(response.value[0].probes))
      && (response.value[0].content.Some? ==> r.value.0 == response.value[0].content.value)
      && (response.value[0].content.None? ==> r.value.0 == "")
  {
    match response
    case Failure(e) => Failure("API error: " + e)
    case Success(choices) =>
      if choices == [] then Failure("API error: " + NoChoiceMessage)
      else
        var msg := choices[0];
        Success((if msg.content.Some? then msg.content.value else "", Reasoning(Some(msg.probes))))
  }

  /** `list_models`: the model ids, or [] on any failure. */
  function ListModels(response: Result<seq<string>>): (ids: seq<string>)
    ensures response.Failure? ==> ids == []
    ensures response.Success? ==> ids == response.value
  {
    if response.Success? then response.value else []
  }
}
