/**
 * The Mistral client of backend/providers/mistral_client.py. Mistral may
 * send a message's content as structured parts, some carrying the model's
 * thinking; `_extract_reasoning_and_text` separates the two, and `chat`
 * and `stream_chat` prefer that reasoning over the reasoning attributes the
 * OpenAI-compatible client probes.
 */
module Mistral {
  import opened Wrappers
  import opened Text
  import OpenAICompat

  /** A Python value as the SDK hands it over: None, a string, a list, a dict, or anything else. */
  datatype Value =
    | VNone
    | VStr(s: string)
    | VList(items: seq<Value>)
    | VDict(entries: map<string, Value>)
    | VOther

  /** `d.get(key)`: None for a missing key. */
  function Get(d: Value, key: string): Value
    requires d.VDict?
  {
    if key in d.entries then d.entries[key] else VNone
  }

  /** A dict whose "type" is the string `kind`. */
  predicate HasType(v: Value, kind: string) {
    v.VDict? && Get(v, "type") == VStr(kind)
  }

  /** A `{"type": "text", "text": <str>}` item. */
  predicate IsTextItem(v: Value) {
    HasType(v, "text") && Get(v, "text").VStr?
  }

  /** A thinking part whose "thinking" is a list. */
  predicate IsThinkingPart(v: Value) {
    HasType(v, "thinking") && Get(v, "thinking").VList?
  }

  /** The texts of the text items inside a thinking part, in order. */
  function ThinkingTexts(items: seq<Value>): seq<string> {
    if items == [] then []
    else
      var t := items[|items| - 1];
      ThinkingTexts(items[..|items| - 1]) + (if IsTextItem(t) then [Get(t, "text").s] else [])
  }

  /** The reasoning pieces of a list of parts: the thinking texts of each thinking part, in order. */
  function ReasoningParts(parts: seq<Value>): seq<string> {
    if parts == [] then []
    else
      var p := parts[|parts| - 1];
      ReasoningParts(parts[..|parts| - 1]) + (if IsThinkingPart(p) then ThinkingTexts(Get(p, "thinking").items) else [])
  }

  /** The text pieces of a list of parts: the string "text" of each text part, in order. */
  function TextParts(parts: seq<Value>): seq<string> {
    if parts == [] then []
    else
      var p := parts[|parts| - 1];
      TextParts(parts[..|parts| - 1]) + (if IsTextItem(p) then [Get(p, "text").s] else [])
  }

  /** What `_extract_reasoning_and_text` returns, as (reasoning, text). */
  function Split(content: Value): (r: (string, string))
    ensures content.VNone? || content.VDict? || content.VOther? ==> r == ("", "")
    ensures content.VStr? ==> r == ("", content.s)
  {
    match content
    case VStr(s) => ("", s)
    case VList(parts) => (Concat(ReasoningParts(parts)), Concat(TextParts(parts)))
    case _ => ("", "")
  }

  /** `_extract_reasoning_and_text`: one pass over the parts, with an inner pass over a thinking part's items. */
  method ExtractReasoningAndText(content: Value) returns (reasoning: string, text: string)
    ensures reasoning == Split(content).0 && text == Split(content).1
  {
    if content.VNone? {
      return "", "";
    }
    if content.VStr? {
      return "", content.s;
    }
    var reasoningParts: seq<string> := [];
    var textParts: seq<string> := [];
    if content.VList? {
      var parts := content.items;
      for i := 0 to |parts|
        invariant reasoningParts == ReasoningParts(parts[..i])
        invariant textParts == TextParts(parts[..i])
      {
        var part := parts[i];
        assert parts[..i + 1][..i] == parts[..i];
        if !part.VDict? {
          continue;
        }
        var partType := Get(part, "type");
        if partType == VStr("thinking") {
          var thinking := Get(part, "thinking");
          if thinking.VList? {
            var items := thinking.items;
            for j := 0 to |items|
              invariant reasoningParts == ReasoningParts(parts[..i]) + ThinkingTexts(items[..j])
            {
              assert items[..j + 1][..j] == items[..j];
              var t := items[j];
              if t.VDict? && Get(t, "type") == VStr("text") && Get(t, "text").VStr? {
                reasoningParts := reasoningParts + [Get(t, "text").s];
              }
            }
            assert items[..|items|] == items;
          }
        } else if partType == VStr("text") {
          if Get(part, "text").VStr? {
            textParts := textParts + [Get(part, "text").s];
          }
        }
      }
      assert parts[..|parts|] == parts;
    }
    return Concat(reasoningParts), Concat(textParts);
  }

  lemma {:induction false} ReasoningPartsAppend(a: seq<Value>, b: seq<Value>)
    ensures ReasoningParts(a + b) == ReasoningParts(a) + ReasoningParts(b)
    decreases |b|
  {
    if b == [] {
      assert a + b == a;
    } else {
      assert (a + b)[..|a + b| - 1] == a + b[..|b| - 1];
      ReasoningPartsAppend(a, b[..|b| - 1]);
    }
  }

  lemma {:induction false} TextPartsAppend(a: seq<Value>, b: seq<Value>)
    ensures TextParts(a + b) == TextParts(a) + TextParts(b)
    decreases |b|
  {
    if b == [] {
      assert a + b == a;
    } else {
      assert (a + b)[..|a + b| - 1] == a + b[..|b| - 1];
      TextPartsAppend(a, b[..|b| - 1]);
    }
  }

  /** Splitting a part list in two splits its reasoning and its text the same way. */
  lemma SplitAppend(a: seq<Value>, b: seq<Value>)
    ensures Split(VList(a + b)).0 == Split(VList(a)).0 + Split(VList(b)).0
    ensures Split(VList(a + b)).1 == Split(VList(a)).1 + Split(VList(b)).1
  {
    ReasoningPartsAppend(a, b);
    TextPartsAppend(a, b);
    ConcatAppend(ReasoningParts(a), ReasoningParts(b));
    ConcatAppend(TextParts(a), TextParts(b));
  }

  /** A part that is neither a thinking part with a list nor a text part with a string is skipped wherever it stands. */
  lemma IgnoredPart(a: seq<Value>, p: Value, b: seq<Value>)
    requires !IsThinkingPart(p) && !IsTextItem(p)
    ensures Split(VList(a + [p] + b)) == Split(VList(a + b))
  {
    assert [p][..0] == [];
    assert ReasoningParts([p]) == [] && TextParts([p]) == [];
    assert Split(VList([p])) == ("", "");
    SplitAppend(a, [p]);
    assert Split(VList(a + [p])).0 == Split(VList(a)).0 + "";
    assert Split(VList(a + [p])).0 == Split(VList(a)).0;
    assert Split(VList(a + [p])).1 == Split(VList(a)).1;
    assert Split(VList(a + [p])) == Split(VList(a));
    SplitAppend(a + [p], b);
    SplitAppend(a, b);
  }

  /** A message or stream delta: the attributes the base client probes and the content. */
  datatype Delta = Delta(probes: OpenAICompat.Probes, content: Value)

  /** The reasoning `chat` and `stream_chat` report: the structured reasoning, else the probed attributes. */
  function FinalReasoning(d: Delta): (r: string)
    ensures Split(d.content).0 != "" ==> r == Split(d.content).0
    ensures Split(d.content).0 == "" ==> r == OpenAICompat.Reasoning(Some(d.probes))
  {
    var reasoning := Split(d.content).0;
    if reasoning != "" then reasoning else OpenAICompat.Reasoning(Some(d.probes))
  }

  /** The events one delta of `stream_chat` yields. */
  function DeltaEvents(d: Delta): (es: seq<OpenAICompat.Event>)
    ensures |es| <= 2 && forall k :: 0 <= k < |es| ==> !OpenAICompat.Terminal(es[k])
    ensures |es| == 2 ==> es == [OpenAICompat.ReasoningEvent(FinalReasoning(d)), OpenAICompat.ContentEvent(Split(d.content).1)]
  {
    var reasoning := FinalReasoning(d);
    var text := Split(d.content).1;
    (if reasoning != "" then [OpenAICompat.ReasoningEvent(reasoning)] else [])
      + (if text != "" then [OpenAICompat.ContentEvent(text)] else [])
  }

  /** `stream_chat`: the events yielded, in order. */
  method StreamChat(chunks: seq<seq<Delta>>, failure: Option<string>) returns (events: seq<OpenAICompat.Event>)
    ensures events == OpenAICompat.Streamed(chunks, DeltaEvents, failure)
  {
    events := [];
    for i := 0 to |chunks|
      invariant events == OpenAICompat.Emitted(chunks[..i], DeltaEvents)
    {
      var chunk := chunks[i];
      assert OpenAICompat.Emitted(chunks[..i + 1], DeltaEvents)
        == OpenAICompat.Emitted(chunks[..i], DeltaEvents) + (if chunk == [] then [] else DeltaEvents(chunk[0])) by {
        assert chunks[..i + 1][..i] == chunks[..i];
      }
      if chunk == [] {
        continue;
      }
      var delta := chunk[0];
      ghost var before := events;
      var reasoning, text := ExtractReasoningAndText(delta.content);
      var baseReasoning := OpenAICompat.ExtractReasoning(Some(delta.probes));
      var finalReasoning := if reasoning != "" then reasoning else baseReasoning;
      ghost var added := (if finalReasoning != "" then [OpenAICompat.ReasoningEvent(finalReasoning)] else [])
        + (if text != "" then [OpenAICompat.ContentEvent(text)] else []);
      assert added == DeltaEvents(delta) by {
        assert finalReasoning == FinalReasoning(delta);
      }
      if finalReasoning != "" {
        events := events + [OpenAICompat.ReasoningEvent(finalReasoning)];
      }
      if text != "" {
        events := events + [OpenAICompat.ContentEvent(text)];
      }
      assert events == before + added;
    }
    assert events == OpenAICompat.Emitted(chunks, DeltaEvents) by {
      assert chunks[..|chunks|] == chunks;
    }
    if failure.Some? {
      events := events + [OpenAICompat.ErrorEvent("Error: " + failure.value)];
    } else {
      events := events + [OpenAICompat.DoneEvent];
    }
  }

  /** A Mistral stream ends with exactly one `done` or `error` event, and nothing terminal before it. */
  lemma StreamEndsOnce(chunks: seq<seq<Delta>>, failure: Option<string>)
    ensures var es := OpenAICompat.Streamed(chunks, DeltaEvents, failure);
      && es != [] && OpenAICompat.Terminal(es[|es| - 1])
      && (es[|es| - 1].ErrorEvent? <==> failure.Some?)
      && forall k :: 0 <= k < |es| - 1 ==> !OpenAICompat.Terminal(es[k])
  {
    OpenAICompat.StreamedEndsOnce(chunks, DeltaEvents, failure);
  }

  /**
   * `chat`: the first choice's text and reasoning, the structured reasoning
   * taking precedence. The string-content fallback is kept as written;
   * the contract shows that it never changes the text.
   */
  function Chat(response: Result<seq<Delta>>): (r: Result<(string, string)>)
    ensures response.Failure? ==> r == Failure("Mistral API error: " + response.error)
    ensures response.Success? && response.value == [] ==> r == Failure("Mistral API error: " + OpenAICompat.NoChoiceMessage)
    ensures response.Success? && response.value != [] ==> r.Success?
    ensures r.Success? ==>
      && response.Success? && response.value != []
      && r.value == (Split(response.value[0].content).1, FinalReasoning(response.value[0]))
  {
    match response
    case Failure(e) => Failure("Mistral API error: " + e)
    case Success(choices) =>
      if choices == [] then Failure("Mistral API error: " + OpenAICompat.NoChoiceMessage)
      else
        var msg := choices[0];
        var (reasoning, text) := Split(msg.content);
        var text' := if text == "" && msg.content.VStr? then msg.content.s else text;
        var baseReasoning := OpenAICompat.Reasoning(Some(msg.probes));
        Success((text', if reasoning != "" then reasoning else baseReasoning))
  }
}
