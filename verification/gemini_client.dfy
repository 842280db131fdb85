/**
 * The standalone Gemini client of backend/providers/gemini_client.py: a
 * text-only form of the Gemini provider with its own thinking test,
 * message conversion, streaming, chat and model listing. It reads answers
 * with the same first-candidate rule as the provider mixins.
 */
module GeminiClient {
  import opened Wrappers
  import opened Text
  import GeminiConfig
  import GeminiMessages
  import GeminiResponse
  import OpenAICompat

  // ------------------------------------------------------------ thinking

  /** `_should_enable_thinking`: the name as given starts with a whitelisted prefix. */
  function ShouldEnableThinking(model: string): (r: bool)
    ensures r <==> exists k :: 0 <= k < |GeminiConfig.ThinkingModels| && StartsWith(model, GeminiConfig.ThinkingModels[k])
  {
    GeminiConfig.AnyPrefix(model, GeminiConfig.ThinkingModels)
  }

  /** No whitelisted prefix begins with "models/". */
  lemma PrefixesAreBare()
    ensures forall k :: 0 <= k < |GeminiConfig.ThinkingModels| ==>
      GeminiConfig.ThinkingModels[k] != [] && GeminiConfig.ThinkingModels[k][0] != 'm'
  {
  }

  /** Every model this client thinks with, the provider mixin thinks with too. */
  lemma ThinkingNarrowerThanMixin(model: string)
    requires ShouldEnableThinking(model)
    ensures GeminiConfig.ShouldEnableThinking(model)
  {
    PrefixesAreBare();
    var k :| 0 <= k < |GeminiConfig.ThinkingModels| && StartsWith(model, GeminiConfig.ThinkingModels[k]);
    assert model[0] == GeminiConfig.ThinkingModels[k][0];
    assert !StartsWith(model, GeminiConfig.ModelsPrefix);
  }

  /** The converse fails: a "models/" name of a thinking model gets no thinking from this client. */
  lemma ModelsNameNotThinking()
    ensures !ShouldEnableThinking("models/gemini-2.5-pro")
    ensures GeminiConfig.ShouldEnableThinking("models/gemini-2.5-pro")
  {
    var named := "models/gemini-2.5-pro";
    PrefixesAreBare();
    assert named[0] == 'm';
    assert GeminiConfig.BareName(named) == "gemini-2.5-pro" by {
      assert StartsWith(named, GeminiConfig.ModelsPrefix);
    }
    assert StartsWith(GeminiConfig.BareName(named), GeminiConfig.ThinkingModels[1]);
  }

  /** The thinking configuration sent with a request. */
  datatype ThinkingConfig = ThinkingConfig(includeThoughts: bool, thinkingBudget: int)

  /** The generation configuration sent with a request. */
  datatype GenerateConfig = GenerateConfig(temperature: real, maxOutputTokens: Option<int>,
                                           systemInstruction: Option<string>, thinking: Option<ThinkingConfig>)

  /** The configuration `stream_chat` and `chat` build: thoughts included, with no budget limit, for thinking models only. */
  function RequestConfig(model: string, temperature: real, maxTokens: Option<int>, instruction: Option<string>)
    : (c: GenerateConfig)
    ensures c.thinking.Some? <==> ShouldEnableThinking(model)
    ensures c.thinking.Some? ==> c.thinking.value == ThinkingConfig(true, -1)
    ensures c.temperature == temperature && c.maxOutputTokens == maxTokens && c.systemInstruction == instruction
  {
    GenerateConfig(temperature, maxTokens, instruction,
                   if ShouldEnableThinking(model) then Some(ThinkingConfig(true, -1)) else None)
  }

  // ------------------------------------------------------------ messages

  /** A chat message as the router passes it: role and content strings, either possibly missing. */
  datatype Message = Message(role: Option<string>, content: Option<string>)

  function RoleOf(m: Message): string {
    Lower(if m.role.Some? then m.role.value else "")
  }

  function ContentOf(m: Message): string {
    if m.content.Some? then m.content.value else ""
  }

  /** The non-empty contents of the system messages, in order. */
  function SystemTexts(ms: seq<Message>): seq<string> {
    if ms == [] then []
    else
      var m := ms[|ms| - 1];
      SystemTexts(ms[..|ms| - 1]) + (if RoleOf(m) == "system" && ContentOf(m) != "" then [ContentOf(m)] else [])
  }

  /** One content per non-system message, in order: its role mapped to "model" or "user", its text as one part. */
  function Contents(ms: seq<Message>): (r: seq<GeminiMessages.GeminiContent>)
    ensures |r| <= |ms|
    ensures forall k :: 0 <= k < |r| ==> (r[k].role == "model" || r[k].role == "user") && |r[k].parts| == 1
  {
    if ms == [] then []
    else
      var m := ms[|ms| - 1];
      Contents(ms[..|ms| - 1])
        + (if RoleOf(m) == "system" then []
           else [GeminiMessages.GeminiContent(if RoleOf(m) == "assistant" then "model" else "user",
                                              [GeminiMessages.TextPart(ContentOf(m), None)])])
  }

  /** `"\n".join(system_parts).strip() or None`. */
  function Instruction(ms: seq<Message>): Option<string> {
    StripOrNone(Join(SystemTexts(ms), "\n"))
  }

  /** `_messages_to_contents_and_system`. */
  method MessagesToContentsAndSystem(messages: seq<Message>)
    returns (contents: seq<GeminiMessages.GeminiContent>, instruction: Option<string>)
    ensures contents == Contents(messages) && instruction == Instruction(messages)
  {
    var systemParts: seq<string> := [];
    contents := [];
    for i := 0 to |messages|
      invariant systemParts == SystemTexts(messages[..i]) && contents == Contents(messages[..i])
    {
      assert messages[..i + 1][..i] == messages[..i];
      var role := Lower(if messages[i].role.Some? then messages[i].role.value else "");
      var content := if messages[i].content.Some? then messages[i].content.value else "";
      if role == "system" {
        if content != "" {
          systemParts := systemParts + [content];
        }
        continue;
      }
      var gRole := if role == "assistant" then "model" else "user";
      contents := contents + [GeminiMessages.GeminiContent(gRole, [GeminiMessages.TextPart(content, None)])];
    }
    assert messages[..|messages|] == messages;
    var joined := Strip(Join(systemParts, "\n"));
    instruction := if joined == "" then None else Some(joined);
    assert instruction == StripOrNone(Join(systemParts, "\n"));
  }

  lemma {:induction false} ContentsAppend(a: seq<Message>, b: seq<Message>)
    ensures Contents(a + b) == Contents(a) + Contents(b)
    decreases |b|
  {
    if b == [] {
      assert a + b == a;
    } else {
      assert (a + b)[..|a + b| - 1] == a + b[..|b| - 1];
      ContentsAppend(a, b[..|b| - 1]);
    }
  }

  /** A system message, wherever it stands, leaves the contents unchanged. */
  lemma SystemMessageInvisible(a: seq<Message>, m: Message, b: seq<Message>)
    requires RoleOf(m) == "system"
    ensures Contents(a + [m] + b) == Contents(a + b)
  {
    assert [m][..0] == [];
    ContentsAppend(a, [m]);
    assert Contents(a + [m]) == Contents(a);
    ContentsAppend(a + [m], b);
    ContentsAppend(a, b);
  }

  /** The message as the provider mixin receives it: string content, no thought signatures. */
  function Lift(m: Message): GeminiMessages.InMessage {
    GeminiMessages.InMessage(m.role, if m.content.Some? then Some(GeminiMessages.Str(m.content.value)) else None, [])
  }

  function Lifted(ms: seq<Message>): (r: seq<GeminiMessages.InMessage>)
    ensures |r| == |ms|
  {
    if ms == [] then [] else Lifted(ms[..|ms| - 1]) + [Lift(ms[|ms| - 1])]
  }

  lemma LiftOne(m: Message, read: GeminiMessages.MediaReader)
    ensures GeminiMessages.IsSystem(Lift(m)) <==> RoleOf(m) == "system"
    ensures GeminiMessages.ContentOf(Lift(m)) == GeminiMessages.Str(ContentOf(m))
    ensures !GeminiMessages.IsSystem(Lift(m)) ==>
      GeminiMessages.Converted(Lift(m), read) == GeminiMessages.GeminiContent(
        if RoleOf(m) == "assistant" then "model" else "user", [GeminiMessages.TextPart(ContentOf(m), None)])
  {
  }

  /** On text conversations the client builds the same contents as the provider mixin. */
  lemma {:induction false} ContentsAgreeWithMixin(ms: seq<Message>, read: GeminiMessages.MediaReader)
    ensures GeminiMessages.Contents(Lifted(ms), read) == Contents(ms)
    decreases |ms|
  {
    if ms != [] {
      var init, m := ms[..|ms| - 1], ms[|ms| - 1];
      ContentsAgreeWithMixin(init, read);
      LiftOne(m, read);
      var l := Lifted(ms);
      assert l[..|l| - 1] == Lifted(init) && l[|l| - 1] == Lift(m);
    }
  }

  /** Strings as string contents. */
  function AsContents(ws: seq<string>): seq<GeminiMessages.InContent> {
    if ws == [] then [] else AsContents(ws[..|ws| - 1]) + [GeminiMessages.Str(ws[|ws| - 1])]
  }

  lemma {:induction false} StringsOfContents(ws: seq<string>)
    ensures forall k :: 0 <= k < |AsContents(ws)| ==> AsContents(ws)[k].Str?
    ensures GeminiMessages.Strings(AsContents(ws)) == ws
    decreases |ws|
  {
    if ws != [] {
      var init := ws[..|ws| - 1];
      StringsOfContents(init);
      var cs := AsContents(ws);
      assert cs[..|cs| - 1] == AsContents(init);
      assert ws == init + [ws[|ws| - 1]];
    }
  }

  lemma {:induction false} SystemPartsLifted(ms: seq<Message>)
    ensures GeminiMessages.SystemParts(Lifted(ms)) == AsContents(SystemTexts(ms))
    decreases |ms|
  {
    if ms != [] {
      var init, m := ms[..|ms| - 1], ms[|ms| - 1];
      SystemPartsLifted(init);
      var l := Lifted(ms);
      assert l[..|l| - 1] == Lifted(init) && l[|l| - 1] == Lift(m);
      assert GeminiMessages.IsSystem(Lift(m)) <==> RoleOf(m) == "system";
      assert GeminiMessages.ContentOf(Lift(m)) == GeminiMessages.Str(ContentOf(m));
      assert GeminiMessages.Truthy(GeminiMessages.Str(ContentOf(m))) <==> ContentOf(m) != "";
      var ws0 := SystemTexts(init);
      if RoleOf(m) == "system" && ContentOf(m) != "" {
        var ws := ws0 + [ContentOf(m)];
        assert SystemTexts(ms) == ws;
        assert ws[..|ws| - 1] == ws0;
      } else {
        assert SystemTexts(ms) == ws0;
        assert GeminiMessages.SystemParts(l) == GeminiMessages.SystemParts(Lifted(init));
      }
    }
  }

  /** On text conversations the client builds the same system instruction as the provider mixin, which then never fails. */
  lemma InstructionAgreesWithMixin(ms: seq<Message>)
    ensures GeminiMessages.Instruction(GeminiMessages.SystemParts(Lifted(ms))) == Success(Instruction(ms))
  {
    SystemPartsLifted(ms);
    StringsOfContents(SystemTexts(ms));
    var cs := GeminiMessages.SystemParts(Lifted(ms));
    assert !exists k :: 0 <= k < |cs| && cs[k].Parts?;
  }

  // ------------------------------------------------------------ streaming

  /** The events of one chunk, read through its first candidate: its reasoning, then its answer text. */
  function CandidateEvents(c: GeminiResponse.Candidate): (es: seq<OpenAICompat.Event>)
    ensures |es| <= 2 && forall k :: 0 <= k < |es| ==> !OpenAICompat.Terminal(es[k])
    ensures |es| == 2 ==> es[0].ReasoningEvent? && es[1].ContentEvent?
    ensures var (content, reasoning) := GeminiResponse.TextAndReasoning([c]);
      && (reasoning != "" <==> OpenAICompat.ReasoningEvent(reasoning) in es)
      && (content != "" <==> OpenAICompat.ContentEvent(content) in es)
  {
    var (content, reasoning) := GeminiResponse.TextAndReasoning([c]);
    (if reasoning != "" then [OpenAICompat.ReasoningEvent(reasoning)] else [])
      + (if content != "" then [OpenAICompat.ContentEvent(content)] else [])
  }

  /**
   * `stream_chat`: the events yielded for the chunks received (each a list of
   * candidates), then `done`, or one error event when the SDK raised.
   */
  method StreamChat(chunks: seq<seq<GeminiResponse.Candidate>>, failure: Option<string>)
    returns (events: seq<OpenAICompat.Event>)
    ensures events == OpenAICompat.Streamed(chunks, CandidateEvents, failure)
  {
    events := [];
    for i := 0 to |chunks|
      invariant events == OpenAICompat.Emitted(chunks[..i], CandidateEvents)
    {
      var chunk := chunks[i];
      assert OpenAICompat.Emitted(chunks[..i + 1], CandidateEvents)
        == OpenAICompat.Emitted(chunks[..i], CandidateEvents) + (if chunk == [] then [] else CandidateEvents(chunk[0])) by {
        assert chunks[..i + 1][..i] == chunks[..i];
      }
      var response := GeminiResponse.Response(chunk, None);
      var _, reasoning := GeminiResponse.ExtractTextAndReasoning(response);
      ghost var before := events;
      if reasoning != "" {
        events := events + [OpenAICompat.ReasoningEvent(reasoning)];
      }
      var text, _ := GeminiResponse.ExtractTextAndReasoning(response);
      if text != "" {
        events := events + [OpenAICompat.ContentEvent(text)];
      }
      assert events == before + (if chunk == [] then [] else CandidateEvents(chunk[0])) by {
        if chunk != [] {
          assert GeminiResponse.TextAndReasoning(chunk) == GeminiResponse.TextAndReasoning([chunk[0]]);
        }
      }
    }
    assert events == OpenAICompat.Emitted(chunks, CandidateEvents) by {
      assert chunks[..|chunks|] == chunks;
    }
    if failure.Some? {
      events := events + [OpenAICompat.ErrorEvent("Error: " + failure.value)];
    } else {
      events := events + [OpenAICompat.DoneEvent];
    }
  }

  /** A stream ends with exactly one `done` or `error` event, and nothing terminal before it. */
  lemma StreamEndsOnce(chunks: seq<seq<GeminiResponse.Candidate>>, failure: Option<string>)
    ensures var es := OpenAICompat.Streamed(chunks, CandidateEvents, failure);
      && es != [] && OpenAICompat.Terminal(es[|es| - 1])
      && (es[|es| - 1].ErrorEvent? <==> failure.Some?)
      && forall k :: 0 <= k < |es| - 1 ==> !OpenAICompat.Terminal(es[k])
  {
    OpenAICompat.StreamedEndsOnce(chunks, CandidateEvents, failure);
  }

  // ------------------------------------------------------------ chat and models

  /**
   * `chat`: the answer text and reasoning of the first candidate, ("", "")
   * without candidates; any failure is re-raised as "Gemini API error: …".
   */
  function Chat(response: Result<seq<GeminiResponse.Candidate>>): (r: Result<(string, string)>)
    ensures response.Failure? ==> r == Failure("Gemini API error: " + response.error)
    ensures response.Success? ==> r.Success?
    ensures response.Success? && response.value == [] ==> r.value == ("", "")
    ensures response.Success? && response.value != [] ==> r.value == GeminiResponse.TextAndReasoning([response.value[0]])
  {
    match response
    case Failure(e) => Failure("Gemini API error: " + e)
    case Success(cs) =>
      var (content, _) := GeminiResponse.TextAndReasoning(cs);
      var (_, reasoning) := GeminiResponse.TextAndReasoning(cs);
      Success((content, reasoning))
  }

  /** A listed model: its name, its id and its `str()`. */
  datatype ModelEntry = ModelEntry(name: Option<string>, id: Option<string>, repr: string)

  /** The name, else the id, else the `str()`, with one leading "models/" removed. */
  function ModelId(m: ModelEntry): string {
    var mid := if GeminiResponse.Present(m.name) then m.name.value
               else if GeminiResponse.Present(m.id) then m.id.value
               else m.repr;
    GeminiConfig.BareName(mid)
  }

  /** The ids of a listing, skipping empty ones, in order. */
  function ModelIds(ms: seq<ModelEntry>): (ids: seq<string>)
    ensures |ids| <= |ms|
    ensures forall k :: 0 <= k < |ids| ==> ids[k] != ""
  {
    if ms == [] then []
    else
      var mid := ModelId(ms[|ms| - 1]);
      ModelIds(ms[..|ms| - 1]) + (if mid != "" then [mid] else [])
  }

  /** `list_models`: the ids listed, or [] when listing raised at any point. */
  method ListModels(listing: Result<seq<ModelEntry>>) returns (ids: seq<string>)
    ensures listing.Failure? ==> ids == []
    ensures listing.Success? ==> ids == ModelIds(listing.value)
  {
    if listing.Failure? {
      return [];
    }
    var models := listing.value;
    ids := [];
    for i := 0 to |models|
      invariant ids == ModelIds(models[..i])
    {
      assert models[..i + 1][..i] == models[..i];
      var m := models[i];
      var mid := if GeminiResponse.Present(m.name) then m.name.value
                 else if GeminiResponse.Present(m.id) then m.id.value
                 else m.repr;
      if StartsWith(mid, GeminiConfig.ModelsPrefix) {
        mid := mid[|GeminiConfig.ModelsPrefix|..];
      }
      if mid != "" {
        ids := ids + [mid];
      }
    }
    assert models[..|models|] == models;
  }

  /** Models named "models/<id>" list as their ids. */
  function Named(xs: seq<string>): (ms: seq<ModelEntry>)
    ensures |ms| == |xs|
  {
    if xs == [] then [] else Named(xs[..|xs| - 1]) + [ModelEntry(Some(GeminiConfig.ModelsPrefix + xs[|xs| - 1]), None, "")]
  }

  /** Listing models named "models/<id>" gives back the ids. */
  lemma {:induction false} ListedIdsRoundTrip(xs: seq<string>)
    requires forall k :: 0 <= k < |xs| ==> xs[k] != ""
    ensures ModelIds(Named(xs)) == xs
    decreases |xs|
  {
    if xs != [] {
      var init, x := xs[..|xs| - 1], xs[|xs| - 1];
      ListedIdsRoundTrip(init);
      var ms := Named(xs);
      assert ms[..|ms| - 1] == Named(init);
      var full := GeminiConfig.ModelsPrefix + x;
      assert StartsWith(full, GeminiConfig.ModelsPrefix) by {
        assert full[..|GeminiConfig.ModelsPrefix|] == GeminiConfig.ModelsPrefix;
      }
      assert GeminiConfig.BareName(full) == x;
      assert xs == init + [x];
    }
  }
}
