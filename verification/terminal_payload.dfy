/**
 * The JSON body the terminal client posts with a chat request
 * (terminal/api_client.py, `chat` and `chat_stream`).
 */
module TerminalPayload {
  import opened Wrappers

  /** A message as the client holds it; only role and content are sent. */
  datatype Message = Message(role: string, content: string, id: Option<int>, thoughtProcess: Option<string>)

  datatype Turn = Turn(role: string, content: string)

  /** The JSON values a chat request body holds. */
  datatype Value = Str(s: string) | Int(n: int) | Real(x: real) | Bool(b: bool) | Turns(turns: seq<Turn>)

  /** Python truth of an optional integer: present and non-zero. */
  predicate IntTruthy(v: Option<int>) {
    v.Some? && v.value != 0
  }

  /** Python truth of an optional string: present and non-empty. */
  predicate StrTruthy(v: Option<string>) {
    v.Some? && v.value != ""
  }

  /** The fields of the request body. */
  datatype Key =
    | ProviderKey | ModelKey | MessagesKey | StreamKey | TemperatureKey
    | SessionIdKey | MessageProviderKey | MessageModelKey | MaxTokensKey | TitleKey

  /** The JSON name of each field. */
  function KeyName(k: Key): string {
    match k
    case ProviderKey => "provider"
    case ModelKey => "model"
    case MessagesKey => "messages"
    case StreamKey => "stream"
    case TemperatureKey => "temperature"
    case SessionIdKey => "session_id"
    case MessageProviderKey => "message_provider"
    case MessageModelKey => "message_model"
    case MaxTokensKey => "max_tokens"
    case TitleKey => "title"
  }

  /** No two fields share a JSON name. */
  lemma KeyNamesDistinct(a: Key, b: Key)
    ensures KeyName(a) == KeyName(b) ==> a == b
  {
    if a != b {
      assert KeyName(a)[..3] != KeyName(b)[..3] || |KeyName(a)| != |KeyName(b)| || KeyName(a)[|KeyName(a)| - 1] != KeyName(b)[|KeyName(b)| - 1];
    }
  }

  /** `[{"role": m.role, "content": m.content} for m in messages]`. */
  function TurnsOf(messages: seq<Message>): (turns: seq<Turn>)
    ensures |turns| == |messages|
    ensures forall k :: 0 <= k < |messages| ==> turns[k] == Turn(messages[k].role, messages[k].content)
  {
    seq(|messages|, k requires 0 <= k < |messages| => Turn(messages[k].role, messages[k].content))
  }

  /** The value of a field of the body, or `None` when the field is left out. */
  function Field(payload: map<Key, Value>, k: Key): Option<Value> {
    if k in payload then Some(payload[k]) else None
  }

  /**
   * The body `chat` (stream false) and `chat_stream` (stream true) post:
   * five fixed fields, then each optional field only when it is truthy,
   * so a session id or token limit of 0 and an empty title are left out.
   */
  method BuildPayload(messages: seq<Message>, provider: string, model: string, stream: bool,
                      sessionId: Option<int>, messageProvider: Option<string>, messageModel: Option<string>,
                      temperature: real, maxTokens: Option<int>, title: Option<string>)
    returns (payload: map<Key, Value>)
    ensures Field(payload, ProviderKey) == Some(Str(provider))
    ensures Field(payload, ModelKey) == Some(Str(model))
    ensures Field(payload, MessagesKey) == Some(Turns(TurnsOf(messages)))
    ensures Field(payload, StreamKey) == Some(Bool(stream))
    ensures Field(payload, TemperatureKey) == Some(Real(temperature))
    ensures Field(payload, SessionIdKey) == if IntTruthy(sessionId) then Some(Int(sessionId.value)) else None
    ensures Field(payload, MessageProviderKey) ==
      if StrTruthy(messageProvider) then Some(Str(messageProvider.value)) else None
    ensures Field(payload, MessageModelKey) == if StrTruthy(messageModel) then Some(Str(messageModel.value)) else None
    ensures Field(payload, MaxTokensKey) == if IntTruthy(maxTokens) then Some(Int(maxTokens.value)) else None
    ensures Field(payload, TitleKey) == if StrTruthy(title) then Some(Str(title.value)) else None
  {
    payload := map[ProviderKey := Str(provider), ModelKey := Str(model), MessagesKey := Turns(TurnsOf(messages)),
                   StreamKey := Bool(stream), TemperatureKey := Real(temperature)];
    if IntTruthy(sessionId) {
      payload := payload[SessionIdKey := Int(sessionId.value)];
    }
    if StrTruthy(messageProvider) {
      payload := payload[MessageProviderKey := Str(messageProvider.value)];
    }
    if StrTruthy(messageModel) {
      payload := payload[MessageModelKey := Str(messageModel.value)];
    }
    if IntTruthy(maxTokens) {
      payload := payload[MaxTokensKey := Int(maxTokens.value)];
    }
    if StrTruthy(title) {
      payload := payload[TitleKey := Str(title.value)];
    }
  }
}
