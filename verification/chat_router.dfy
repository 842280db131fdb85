/**
 * The chat endpoint `chat_completion` of backend/routers/chat.py over the
 * in-memory database: it resolves or creates the session, keeps the user
 * and system turns of the request, builds the upstream message list,
 * stores the new turns before the provider is called, and then either
 * streams the provider's chunks (see `ChatRelay`) or answers at once,
 * writing at most one assistant message.
 *
 * The provider is an oracle: the stream steps it produces, the reply it
 * gives when not streaming, and whether setting up the call raises. A
 * failing commit is the flag `commitFails`. The clock text of the default
 * title is a parameter.
 */
module ChatRouter {
  import opened Wrappers
  import opened ChatHelpers
  import opened ChatRelay
  import opened Database
  import ProviderRegistry
  import ProviderKwargs

  /** A request message (`MessageCreate`) with the audios field the router reads. */
  datatype IncomingMessage = IncomingMessage(
    role: string, content: string, images: MediaField, videos: MediaField, audios: MediaField)

  /** The fields of `ChatRequest` the endpoint reads; `settings` feeds `_build_provider_kwargs`. */
  datatype ChatCall = ChatCall(
    sessionId: Option<int>,
    provider: string,
    model: string,
    messages: seq<IncomingMessage>,
    messageProvider: Option<string>,
    messageModel: Option<string>,
    stream: bool,
    title: Option<string>,
    systemPrompt: Option<string>,
    settings: ProviderKwargs.ChatRequest)

  /** Python truthiness of an optional string. */
  predicate Given(s: Option<string>) {
    s.Some? && s.value != ""
  }

  /** Python's `a or b` for an optional string. */
  function Or(a: Option<string>, b: string): string {
    if Given(a) then a.value else b
  }

  /** `if chat_request.session_id:` — None and 0 are both falsy. */
  predicate HasSessionId(call: ChatCall) {
    call.sessionId.Some? && call.sessionId.value != 0
  }

  function ProviderId(call: ChatCall): string {
    Or(call.messageProvider, call.provider)
  }

  function ModelId(call: ChatCall): string {
    Or(call.messageModel, call.model)
  }

  /** The title of a session the endpoint creates. */
  function NewTitle(call: ChatCall, clockText: string): string {
    Or(call.title, "Chat " + clockText)
  }

  // ------------------------------------------------------------ incoming turns

  /** A kept request message with its media coerced to lists (`incoming_data`). */
  datatype Turn = Turn(
    role: string, content: string,
    images: Option<seq<string>>, videos: Option<seq<string>>, audios: Option<seq<string>>)

  predicate Forwardable(role: string) {
    role == "user" || role == "system"
  }

  function ToTurn(m: IncomingMessage, parse: Parser): Turn {
    Turn(m.role, m.content, EnsureList(m.images, parse), EnsureList(m.videos, parse), EnsureList(m.audios, parse))
  }

  /** `incoming_data`: the user and system messages of the request, in order. */
  function IncomingData(msgs: seq<IncomingMessage>, parse: Parser): (turns: seq<Turn>)
    ensures forall k :: 0 <= k < |turns| ==> Forwardable(turns[k].role)
    ensures |turns| <= |msgs|
  {
    if msgs == [] then []
    else
      var m := msgs[|msgs| - 1];
      IncomingData(msgs[..|msgs| - 1], parse) + (if Forwardable(m.role) then [ToTurn(m, parse)] else [])
  }

  /** The filter works message by message: a user or system message is kept, any other is dropped. */
  lemma {:induction false} IncomingDataAppend(a: seq<IncomingMessage>, b: seq<IncomingMessage>, parse: Parser)
    ensures IncomingData(a + b, parse) == IncomingData(a, parse) + IncomingData(b, parse)
    ensures |b| == 1 ==> IncomingData(b, parse) == if Forwardable(b[0].role) then [ToTurn(b[0], parse)] else []
    decreases |b|
  {
    if b == [] {
      assert a + b == a;
    } else {
      assert (a + b)[..|a + b| - 1] == a + b[..|b| - 1];
      IncomingDataAppend(a, b[..|b| - 1], parse);
      if |b| == 1 {
        assert b[..0] == [];
      }
    }
  }

  /** The media column value a list is stored as. */
  function Stored(v: Option<seq<string>>): MediaField {
    if v.Some? then Urls(v.value) else Missing
  }

  /** A stored row is the turn `t` of session `sessionId`, sent to `providerId`/`modelId`. */
  predicate StoresTurn(row: MessageRow, sessionId: int, t: Turn, providerId: string, modelId: string) {
    && row.sessionId == sessionId
    && row.role == t.role
    && row.content == t.content
    && row.images == Stored(t.images)
    && row.videos == Stored(t.videos)
    && row.audios == Stored(t.audios)
    && row.thoughtProcess.None?
    && row.provider == Some(providerId)
    && row.model == Some(modelId)
  }

  // --------------------------------------------------------- upstream messages

  /** One upstream message: a role and its (possibly multimodal) content. */
  datatype ApiMessage = ApiMessage(role: string, content: ApiContent)

  /**
   * `api` is what the provider is sent: the system prompt first when one
   * is given, then the stored history, then the new turns, each with its
   * own role and its formatted content.
   */
  predicate UpstreamMessages(api: seq<ApiMessage>, existing: seq<MessageRow>, turns: seq<Turn>,
    systemPrompt: Option<string>, parse: Parser)
  {
    var offset := if Given(systemPrompt) then 1 else 0;
    && |api| == offset + |existing| + |turns|
    && (Given(systemPrompt) ==> api[0] == ApiMessage("system", Plain(systemPrompt.value)))
    && (forall k :: 0 <= k < |existing| ==>
          && api[offset + k].role == existing[k].role
          && FormatsContent(existing[k].content, existing[k].images, existing[k].videos, existing[k].audios,
               parse, api[offset + k].content))
    && (forall k :: 0 <= k < |turns| ==>
          && api[offset + |existing| + k].role == turns[k].role
          && FormatsContent(turns[k].content, Stored(turns[k].images), Stored(turns[k].videos),
               Stored(turns[k].audios), parse, api[offset + |existing| + k].content))
  }

  /** `api_messages`: the optional system prompt, the stored history, then the new turns. */
  method BuildApiMessages(existing: seq<MessageRow>, turns: seq<Turn>, systemPrompt: Option<string>, parse: Parser)
    returns (api: seq<ApiMessage>)
    ensures UpstreamMessages(api, existing, turns, systemPrompt, parse)
  {
    api := [];
    for k := 0 to |existing|
      invariant |api| == k
      invariant forall q :: 0 <= q < k ==>
        && api[q].role == existing[q].role
        && FormatsContent(existing[q].content, existing[q].images, existing[q].videos, existing[q].audios,
             parse, api[q].content)
    {
      var m := existing[k];
      var content := FormatApiContent(m.content, m.images, m.videos, m.audios, parse);
      api := api + [ApiMessage(m.role, content)];
    }
    for k := 0 to |turns|
      invariant |api| == |existing| + k
      invariant forall q :: 0 <= q < |existing| ==>
        && api[q].role == existing[q].role
        && FormatsContent(existing[q].content, existing[q].images, existing[q].videos, existing[q].audios,
             parse, api[q].content)
      invariant forall q :: 0 <= q < k ==>
        && api[|existing| + q].role == turns[q].role
        && FormatsContent(turns[q].content, Stored(turns[q].images), Stored(turns[q].videos),
             Stored(turns[q].audios), parse, api[|existing| + q].content)
    {
      var t := turns[k];
      var content := FormatApiContent(t.content, Stored(t.images), Stored(t.videos), Stored(t.audios), parse);
      api := api + [ApiMessage(t.role, content)];
    }
    if Given(systemPrompt) {
      api := [ApiMessage("system", Plain(systemPrompt.value))] + api;
    }
  }

  /** A turn's lists pass through `Stored` and `_ensure_list` unchanged. */
  lemma StoredRoundTrip(v: Option<seq<string>>, parse: Parser)
    ensures EnsureList(Stored(v), parse) == v
  {
  }

  // ------------------------------------------------------------ persistence

  /** Lines 120-123: the new turns are stored and the session's `updated_at` bumped, when there are any. */
  method PersistTurns(db: Db, idx: nat, turns: seq<Turn>, providerId: string, modelId: string)
    requires db.Valid() && idx < |db.sessions|
    modifies db
    ensures db.Valid()
    ensures |db.sessions| == |old(db.sessions)|
    ensures forall q :: 0 <= q < |db.sessions| && q != idx ==> db.sessions[q] == old(db.sessions[q])
    ensures turns == [] ==> db.sessions == old(db.sessions)
    ensures turns != [] ==> db.sessions[idx] == old(db.sessions[idx]).(updatedAt := old(db.now) + 1)
    ensures |db.messages| == |old(db.messages)| + |turns|
    ensures db.messages[..|old(db.messages)|] == old(db.messages)
    ensures forall k :: 0 <= k < |turns| ==>
      StoresTurn(db.messages[|old(db.messages)| + k], db.sessions[idx].id, turns[k], providerId, modelId)
  {
    if turns == [] {
      return;
    }
    var t := db.Tick();
    db.UpdateSession(idx, db.sessions[idx].(updatedAt := t));
    var sessionId := db.sessions[idx].id;
    ghost var before := db.messages;
    for k := 0 to |turns|
      invariant db.Valid()
      invariant idx < |db.sessions| && db.sessions == old(db.sessions)[idx := old(db.sessions[idx]).(updatedAt := old(db.now) + 1)]
      invariant |db.messages| == |before| + k && db.messages[..|before|] == before
      invariant forall q :: 0 <= q < k ==> StoresTurn(db.messages[|before| + q], sessionId, turns[q], providerId, modelId)
    {
      var u := turns[k];
      ghost var prev := db.messages;
      var row := db.InsertMessage(sessionId, u.role, u.content, Stored(u.images), Stored(u.videos), Stored(u.audios),
        None, Some(providerId), Some(modelId));
      assert db.messages[..|before|] == before by {
        assert db.messages[..|before|] == prev[..|before|];
      }
    }
  }

  /** The assistant row that the endpoint writes. */
  predicate StoresAnswer(row: MessageRow, sessionId: int, content: string, reasoning: string, providerId: string, modelId: string) {
    && row.sessionId == sessionId
    && row.role == "assistant"
    && row.content == content
    && row.images == Missing && row.videos == Missing && row.audios == Missing
    && row.thoughtProcess == (if reasoning != "" then Some(reasoning) else None)
    && row.provider == Some(providerId)
    && row.model == Some(modelId)
  }

  /**
   * Writes the assistant message and moves the session to the provider and
   * model that answered; a failing commit leaves the database as it was.
   */
  method SaveAnswer(db: Db, idx: nat, content: string, reasoning: string, providerId: string, modelId: string,
    commitFails: bool)
    returns (saved: bool)
    requires db.Valid() && idx < |db.sessions|
    modifies db
    ensures db.Valid()
    ensures saved <==> !commitFails
    ensures !saved ==> db.sessions == old(db.sessions) && db.messages == old(db.messages)
    ensures saved ==>
      && |db.messages| == |old(db.messages)| + 1
      && db.messages[..|old(db.messages)|] == old(db.messages)
      && StoresAnswer(db.messages[|old(db.messages)|], old(db.sessions[idx]).id, content, reasoning, providerId, modelId)
      && db.sessions == old(db.sessions)[idx := old(db.sessions[idx]).(provider := providerId, model := modelId,
           updatedAt := old(db.now) + 1)]
  {
    if commitFails {
      return false;
    }
    var t := db.Tick();
    db.UpdateSession(idx, db.sessions[idx].(provider := providerId, model := modelId, updatedAt := t));
    var thought := if reasoning != "" then Some(reasoning) else None;
    var row := db.InsertMessage(db.sessions[idx].id, "assistant", content, Missing, Missing, Missing,
      thought, Some(providerId), Some(modelId));
    saved := true;
  }

  // ----------------------------------------------------------- the endpoint

  /** Why the endpoint answers with an HTTP error. */
  datatype Failure =
    | SessionNotFound(id: int)
    | UnsupportedProvider(providerId: string)
    | ProviderError(message: string)
    | EmptyResponse
    | SaveFailed

  /** The HTTP status of each failure. */
  function StatusCode(f: Failure): (code: int)
    ensures code == 404 <==> f.SessionNotFound?
    ensures code == 400 <==> f.UnsupportedProvider?
    ensures code in {400, 404, 500}
  {
    match f
    case SessionNotFound(_) => 404
    case UnsupportedProvider(_) => 400
    case ProviderError(_) => 500
    case EmptyResponse => 500
    case SaveFailed => 500
  }

  /** The error detail of the failures whose text does not embed a number. */
  function Detail(f: Failure): (d: string)
    requires !f.SessionNotFound?
  {
    match f
    case UnsupportedProvider(id) => "Unsupported provider: " + id
    case ProviderError(msg) => "Provider error: " + msg
    case EmptyResponse => "Empty response from provider"
    case SaveFailed => "Failed to save assistant message"
  }

  /** What the non-streaming provider call gives: an exception, or content and reasoning. */
  datatype ProviderReply = ProviderFailed(message: string) | Answer(content: string, reasoning: string)

  /** The endpoint's response. */
  datatype Reply =
    | Rejected(failure: Failure)
    | Streamed(events: seq<Emitted>)
    | Answered(sessionId: int, message: MessageRow)

  /** Lines 35-55: the session named by the request, or a new one committed at once. */
  method OpenSession(db: Db, call: ChatCall, clockText: string) returns (idx: Option<nat>)
    requires db.Valid()
    modifies db
    ensures db.Valid()
    ensures db.messages == old(db.messages)
    ensures HasSessionId(call) ==>
      db.sessions == old(db.sessions) && idx == FindSession(old(db.sessions), call.sessionId.value)
    ensures !HasSessionId(call) ==>
      && db.sessions == old(db.sessions) + [SessionRow(NextRowId(SessionIds(old(db.sessions))),
           NewTitle(call, clockText), call.provider, call.model, old(db.now) + 1, old(db.now) + 1)]
      && idx == Some(|old(db.sessions)|)
    ensures idx.Some? ==> idx.value < |db.sessions|
  {
    if HasSessionId(call) {
      idx := FindSession(db.sessions, call.sessionId.value);
    } else {
      var row := db.InsertSession(NewTitle(call, clockText), call.provider, call.model);
      idx := Some(|db.sessions| - 1);
    }
  }

  /** The event `generate` sends when saving the answer fails. */
  const SaveErrorMessage := "Failed to save assistant response"

  /** Whether the streamed answer is written: the stream ended normally with some content. */
  predicate StreamAnswered(steps: seq<StreamStep>, fetch: Fetcher) {
    var s := Finish(Run(steps, fetch));
    s.outcome.Exhausted? && s.content != ""
  }

  /**
   * `generate` (lines 127-227): the session id first, then either the
   * setup error, or the relayed events followed by the save of the answer.
   */
  method Generate(db: Db, idx: nat, providerId: string, modelId: string, setupError: Option<string>,
    steps: seq<StreamStep>, fetch: Fetcher, commitFails: bool)
    returns (events: seq<Emitted>, saved: bool)
    requires db.Valid() && idx < |db.sessions|
    modifies db
    ensures db.Valid()
    ensures saved <==> setupError.None? && StreamAnswered(steps, fetch) && !commitFails
    ensures setupError.Some? ==> events == [SessionIdEvent(old(db.sessions[idx]).id), ErrorEvent(setupError.value)]
    ensures setupError.None? ==>
      var s := Finish(Run(steps, fetch));
      events == [SessionIdEvent(old(db.sessions[idx]).id)] + s.events
        + (if StreamAnswered(steps, fetch) && commitFails then [ErrorEvent(SaveErrorMessage)] else [])
    ensures !saved ==> db.sessions == old(db.sessions) && db.messages == old(db.messages)
    ensures saved ==>
      var s := Finish(Run(steps, fetch));
      && |db.messages| == |old(db.messages)| + 1
      && db.messages[..|old(db.messages)|] == old(db.messages)
      && StoresAnswer(db.messages[|old(db.messages)|], old(db.sessions[idx]).id,
           Localize(s.content, fetch), s.reasoning, providerId, modelId)
      && db.sessions == old(db.sessions)[idx := old(db.sessions[idx]).(provider := providerId, model := modelId,
           updatedAt := old(db.now) + 1)]
  {
    events := [SessionIdEvent(db.sessions[idx].id)];
    saved := false;
    if setupError.Some? {
      events := events + [ErrorEvent(setupError.value)];
      return;
    }
    var s := Relay(steps, fetch);
    events := events + s.events;
    if !s.outcome.Exhausted? {
      return;
    }
    if s.content != "" {
      var fullResponse, _ := LocalizeMarkdownImages(s.content, fetch);
      saved := SaveAnswer(db, idx, fullResponse, s.reasoning, providerId, modelId, commitFails);
      if !saved {
        events := events + [ErrorEvent(SaveErrorMessage)];
      }
    }
  }

  /** Lines 236-285: the answer is localised, refused when empty, and written. */
  method AnswerAtOnce(db: Db, idx: nat, providerId: string, modelId: string, setupError: Option<string>,
    reply: ProviderReply, fetch: Fetcher, commitFails: bool)
    returns (r: Reply)
    requires db.Valid() && idx < |db.sessions|
    modifies db
    ensures db.Valid()
    ensures setupError.Some? ==> r == Rejected(ProviderError(setupError.value))
    ensures setupError.None? && reply.ProviderFailed? ==> r == Rejected(ProviderError(reply.message))
    ensures setupError.None? && reply.Answer? && Localize(reply.content, fetch) == "" ==> r == Rejected(EmptyResponse)
    ensures setupError.None? && reply.Answer? && Localize(reply.content, fetch) != "" && commitFails ==>
      r == Rejected(SaveFailed)
    ensures setupError.None? && reply.Answer? && Localize(reply.content, fetch) != "" && !commitFails ==> r.Answered?
    ensures r.Rejected? ==> db.sessions == old(db.sessions) && db.messages == old(db.messages)
    ensures !r.Rejected? ==>
      && setupError.None? && reply.Answer? && !commitFails
      && r.Answered? && r.sessionId == old(db.sessions[idx]).id
      && |db.messages| == |old(db.messages)| + 1
      && db.messages[..|old(db.messages)|] == old(db.messages)
      && r.message == db.messages[|old(db.messages)|]
      && StoresAnswer(r.message, r.sessionId, Localize(reply.content, fetch), reply.reasoning, providerId, modelId)
      && db.sessions == old(db.sessions)[idx := old(db.sessions[idx]).(provider := providerId, model := modelId,
           updatedAt := old(db.now) + 1)]
  {
    if setupError.Some? {
      return Rejected(ProviderError(setupError.value));
    }
    if reply.ProviderFailed? {
      return Rejected(ProviderError(reply.message));
    }
    var responseContent, _ := LocalizeMarkdownImages(reply.content, fetch);
    if responseContent == "" {
      return Rejected(EmptyResponse);
    }
    var sessionId := db.sessions[idx].id;
    var saved := SaveAnswer(db, idx, responseContent, reply.reasoning, providerId, modelId, commitFails);
    if !saved {
      return Rejected(SaveFailed);
    }
    r := Answered(sessionId, db.messages[|db.messages| - 1]);
  }

  /** Whether the endpoint writes an assistant message once the session and provider are resolved. */
  predicate AnswerWritten(call: ChatCall, setupError: Option<string>, steps: seq<StreamStep>, reply: ProviderReply,
    fetch: Fetcher, commitFails: bool)
  {
    && setupError.None?
    && !commitFails
    && if call.stream then StreamAnswered(steps, fetch)
       else reply.Answer? && Localize(reply.content, fetch) != ""
  }

  /** The id of the session the endpoint works on, when it finds or creates one. */
  function SessionIdFor(call: ChatCall, sessions: seq<SessionRow>): int {
    if HasSessionId(call) then call.sessionId.value else NextRowId(SessionIds(sessions))
  }

  /**
   * What answering does to the message table and what it gives back, with
   * `before` the table once the turns are stored: exactly one assistant
   * message is appended when the answer is written and nothing otherwise; a
   * stream opens with the session id, and when its answer is stored the
   * client saw no error and the stored text is the localisation of the
   * content it was sent.
   */
  predicate Responded(call: ChatCall, fetch: Fetcher, setupError: Option<string>, steps: seq<StreamStep>,
    reply: ProviderReply, commitFails: bool, sid: int, before: seq<MessageRow>, after: seq<MessageRow>, r: Reply)
  {
    var written := AnswerWritten(call, setupError, steps, reply, fetch, commitFails);
    && |after| == |before| + (if written then 1 else 0)
    && after[..|before|] == before
    && (written ==> after[|before|].role == "assistant" && after[|before|].sessionId == sid)
    && (call.stream ==> r.Streamed? && r.events != [] && r.events[0] == SessionIdEvent(sid))
    && (call.stream && written ==>
          && (forall k :: 0 <= k < |r.events| ==> !Terminal(r.events[k]))
          && after[|before|].content == Localize(ForwardedContent(r.events[1..]), fetch))
    && (!call.stream ==> (r.Answered? <==> written))
  }

  /**
   * What the endpoint does to the message table once the session and the
   * provider are resolved: the incoming turns are appended first, in order,
   * and then answering appends at most the assistant message.
   */
  predicate Conversed(call: ChatCall, parse: Parser, fetch: Fetcher, setupError: Option<string>,
    steps: seq<StreamStep>, reply: ProviderReply, commitFails: bool, sid: int,
    before: seq<MessageRow>, after: seq<MessageRow>, r: Reply)
  {
    var turns := IncomingData(call.messages, parse);
    var m := |before| + |turns|;
    && m <= |after|
    && after[..|before|] == before
    && (forall k :: 0 <= k < |turns| ==> StoresTurn(after[|before| + k], sid, turns[k], ProviderId(call), ModelId(call)))
    && Responded(call, fetch, setupError, steps, reply, commitFails, sid, after[..m], after, r)
  }

  /** A stream whose answer is saved sent no error, and its text is the content of what was forwarded. */
  lemma SavedStreamClean(steps: seq<StreamStep>, fetch: Fetcher)
    requires StreamAnswered(steps, fetch)
    ensures var s := Finish(Run(steps, fetch));
      && (forall k :: 0 <= k < |s.events| ==> !Terminal(s.events[k]))
      && s.content == ForwardedContent(s.events)
  {
    RelaySpec(steps, fetch);
  }

  /** The streaming answer: `generate` as the response body. */
  method RespondStreaming(db: Db, idx: nat, call: ChatCall, providerId: string, modelId: string, fetch: Fetcher,
    setupError: Option<string>, steps: seq<StreamStep>, reply: ProviderReply, commitFails: bool)
    returns (r: Reply)
    requires call.stream
    requires db.Valid() && idx < |db.sessions|
    modifies db
    ensures db.Valid()
    ensures db.sessions == old(db.sessions)
      || db.sessions == old(db.sessions)[idx := old(db.sessions[idx]).(provider := providerId, model := modelId,
           updatedAt := old(db.now) + 1)]
    ensures Responded(call, fetch, setupError, steps, reply, commitFails, old(db.sessions[idx]).id,
      old(db.messages), db.messages, r)
  {
    ghost var sid := db.sessions[idx].id;
    var events, saved := Generate(db, idx, providerId, modelId, setupError, steps, fetch, commitFails);
    r := Streamed(events);
    if saved {
      ghost var fin := Finish(Run(steps, fetch));
      SavedStreamClean(steps, fetch);
      assert events == [SessionIdEvent(sid)] + fin.events;
      assert events[1..] == fin.events;
    }
  }

  /** The immediate answer: one provider call, then the JSON response. */
  method RespondAtOnce(db: Db, idx: nat, call: ChatCall, providerId: string, modelId: string, fetch: Fetcher,
    setupError: Option<string>, steps: seq<StreamStep>, reply: ProviderReply, commitFails: bool)
    returns (r: Reply)
    requires !call.stream
    requires db.Valid() && idx < |db.sessions|
    modifies db
    ensures db.Valid()
    ensures db.sessions == old(db.sessions)
      || db.sessions == old(db.sessions)[idx := old(db.sessions[idx]).(provider := providerId, model := modelId,
           updatedAt := old(db.now) + 1)]
    ensures Responded(call, fetch, setupError, steps, reply, commitFails, old(db.sessions[idx]).id,
      old(db.messages), db.messages, r)
  {
    r := AnswerAtOnce(db, idx, providerId, modelId, setupError, reply, fetch, commitFails);
  }

  /** After the turns are stored: the streaming or the immediate answer, and its write. */
  method Respond(db: Db, idx: nat, call: ChatCall, providerId: string, modelId: string, fetch: Fetcher,
    setupError: Option<string>, steps: seq<StreamStep>, reply: ProviderReply, commitFails: bool)
    returns (r: Reply)
    requires db.Valid() && idx < |db.sessions|
    modifies db
    ensures db.Valid()
    ensures db.sessions == old(db.sessions)
      || db.sessions == old(db.sessions)[idx := old(db.sessions[idx]).(provider := providerId, model := modelId,
           updatedAt := old(db.now) + 1)]
    ensures Responded(call, fetch, setupError, steps, reply, commitFails, old(db.sessions[idx]).id,
      old(db.messages), db.messages, r)
  {
    if call.stream {
      r := RespondStreaming(db, idx, call, providerId, modelId, fetch, setupError, steps, reply, commitFails);
    } else {
      r := RespondAtOnce(db, idx, call, providerId, modelId, fetch, setupError, steps, reply, commitFails);
    }
  }

  /** The session is resolved and the provider is registered: the endpoint goes on to call it. */
  predicate Proceeds(call: ChatCall, sessions: seq<SessionRow>) {
    && (HasSessionId(call) ==> FindSession(sessions, call.sessionId.value).Some?)
    && ProviderRegistry.GetProvider(ProviderId(call)).Some?
  }

  /**
   * Lines 66-285 once the session and the provider are known: the turns
   * are stored before the provider is called and stay stored whatever it
   * does; at most one assistant message follows them.
   */
  method Converse(db: Db, idx: nat, call: ChatCall, parse: Parser, fetch: Fetcher,
    setupError: Option<string>, steps: seq<StreamStep>, reply: ProviderReply, commitFails: bool)
    returns (r: Reply, upstream: seq<ApiMessage>)
    requires db.Valid() && idx < |db.sessions|
    modifies db
    ensures db.Valid()
    ensures |db.sessions| == |old(db.sessions)|
    ensures forall q :: 0 <= q < |db.sessions| && q != idx ==> db.sessions[q] == old(db.sessions[q])
    ensures db.sessions[idx].id == old(db.sessions[idx]).id && db.sessions[idx].title == old(db.sessions[idx]).title
    ensures Conversed(call, parse, fetch, setupError, steps, reply, commitFails, old(db.sessions[idx]).id,
      old(db.messages), db.messages, r)
    ensures UpstreamMessages(upstream, MessagesOf(old(db.messages), old(db.sessions[idx]).id),
      IncomingData(call.messages, parse), call.systemPrompt, parse)
  {
    var existing := MessagesOf(db.messages, db.sessions[idx].id);
    var turns := IncomingData(call.messages, parse);
    upstream := BuildApiMessages(existing, turns, call.systemPrompt, parse);
    r := StoreAndRespond(db, idx, call, parse, turns, fetch, setupError, steps, reply, commitFails);
  }

  /** The turns are committed, then the provider is called and its answer written. */
  method StoreAndRespond(db: Db, idx: nat, call: ChatCall, parse: Parser, turns: seq<Turn>, fetch: Fetcher,
    setupError: Option<string>, steps: seq<StreamStep>, reply: ProviderReply, commitFails: bool)
    returns (r: Reply)
    requires db.Valid() && idx < |db.sessions|
    requires turns == IncomingData(call.messages, parse)
    modifies db
    ensures db.Valid()
    ensures |db.sessions| == |old(db.sessions)|
    ensures forall q :: 0 <= q < |db.sessions| && q != idx ==> db.sessions[q] == old(db.sessions[q])
    ensures db.sessions[idx].id == old(db.sessions[idx]).id && db.sessions[idx].title == old(db.sessions[idx]).title
    ensures Conversed(call, parse, fetch, setupError, steps, reply, commitFails, old(db.sessions[idx]).id,
      old(db.messages), db.messages, r)
  {
    var providerId := ProviderId(call);
    var modelId := ModelId(call);
    ghost var before := db.messages;
    ghost var sid := db.sessions[idx].id;
    PersistTurns(db, idx, turns, providerId, modelId);
    assert db.sessions[idx].id == sid;
    ghost var persisted := db.messages;
    r := Respond(db, idx, call, providerId, modelId, fetch, setupError, steps, reply, commitFails);
    assert db.messages[..|persisted|] == persisted;
    assert |persisted| == |before| + |turns|;
    assert Responded(call, fetch, setupError, steps, reply, commitFails, sid,
      db.messages[..|before| + |turns|], db.messages, r);
    assert db.messages[..|before|] == before by {
      assert db.messages[..|persisted|][..|before|] == persisted[..|before|];
    }
    forall k | 0 <= k < |turns|
      ensures StoresTurn(db.messages[|before| + k], sid, turns[k], providerId, modelId)
    {
      assert db.messages[|before| + k] == persisted[|before| + k];
    }
  }

  /**
   * `chat_completion`. An unknown session is refused before anything is
   * written; a new session stays even when the provider is then refused.
   * Otherwise the user and system turns are stored before the provider is
   * called and stay stored whatever it does, and at most one assistant
   * message follows them; it is written exactly when the answer is
   * complete, non-empty and committed (`Conversed`).
   */
  method ChatCompletion(db: Db, call: ChatCall, clockText: string, parse: Parser, fetch: Fetcher,
    setupError: Option<string>, steps: seq<StreamStep>, reply: ProviderReply, commitFails: bool)
    returns (r: Reply, upstream: seq<ApiMessage>)
    requires db.Valid()
    modifies db
    ensures db.Valid()
    ensures HasSessionId(call) && FindSession(old(db.sessions), call.sessionId.value).None? ==>
      && r == Rejected(SessionNotFound(call.sessionId.value))
      && db.sessions == old(db.sessions) && db.messages == old(db.messages)
    ensures !HasSessionId(call) ==>
      && |db.sessions| == |old(db.sessions)| + 1
      && db.sessions[..|old(db.sessions)|] == old(db.sessions)
      && db.sessions[|old(db.sessions)|].id == NextRowId(SessionIds(old(db.sessions)))
      && db.sessions[|old(db.sessions)|].title == NewTitle(call, clockText)
    ensures (&& (!HasSessionId(call) || FindSession(old(db.sessions), call.sessionId.value).Some?)
             && ProviderRegistry.GetProvider(ProviderId(call)).None?) ==>
      r == Rejected(UnsupportedProvider(ProviderId(call))) && db.messages == old(db.messages)
    ensures Proceeds(call, old(db.sessions)) ==>
      Conversed(call, parse, fetch, setupError, steps, reply, commitFails, SessionIdFor(call, old(db.sessions)),
        old(db.messages), db.messages, r)
    ensures Proceeds(call, old(db.sessions)) ==>
      UpstreamMessages(upstream, MessagesOf(old(db.messages), SessionIdFor(call, old(db.sessions))),
        IncomingData(call.messages, parse), call.systemPrompt, parse)
    ensures !Proceeds(call, old(db.sessions)) ==> upstream == []
  {
    upstream := [];
    var idx := OpenSession(db, call, clockText);
    if idx.None? {
      return Rejected(SessionNotFound(call.sessionId.value)), upstream;
    }
    var client := ProviderRegistry.GetProvider(ProviderId(call));
    if client.None? {
      return Rejected(UnsupportedProvider(ProviderId(call))), upstream;
    }
    ghost var afterOpen := db.sessions;
    assert afterOpen[idx.value].id == SessionIdFor(call, old(db.sessions));
    r, upstream := Converse(db, idx.value, call, parse, fetch, setupError, steps, reply, commitFails);
    if !HasSessionId(call) {
      assert db.sessions[..|afterOpen| - 1] == afterOpen[..|afterOpen| - 1];
    }
  }
}
