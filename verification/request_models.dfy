/**
 * The field constraints of the request bodies in backend/models.py:
 * `MessageCreate`, `SessionCreate`, `ImagePixelLimit` and the numeric and
 * pattern constraints of `ChatRequest`, with its defaults. A body is
 * accepted when every constrained field satisfies its constraint; the
 * fields that do not are the validation errors, in declaration order.
 */
module RequestModels {
  import opened Wrappers
  import ProviderKwargs

  /** `MessageCreate`: the role must match `^(user|assistant|system)$`. */
  datatype MessageCreate = MessageCreate(role: string, content: string,
    images: Option<seq<string>>, videos: Option<seq<string>>)

  predicate ValidRole(role: string) {
    role == "user" || role == "assistant" || role == "system"
  }

  /** `SessionCreate.title`: between 1 and 255 characters. */
  predicate ValidTitle(title: string) {
    1 <= |title| <= 255
  }

  /** `ImagePixelLimit`: each bound, when given, is at least 1. */
  predicate ValidPixelLimit(l: ProviderKwargs.PixelLimit) {
    && (l.maxPixels.Some? ==> l.maxPixels.value >= 1)
    && (l.minPixels.Some? ==> l.minPixels.value >= 1)
  }

  /** The `ChatRequest` fields that carry a constraint, with the messages it holds. */
  datatype ChatRequestBody = ChatRequestBody(
    messages: seq<MessageCreate>,
    stream: bool,
    temperature: real,
    maxTokens: Option<int>,
    frequencyPenalty: real,
    presencePenalty: real,
    topP: real,
    imageDetail: Option<string>,
    imagePixelLimit: Option<ProviderKwargs.PixelLimit>,
    fps: Option<real>,
    maxCompletionTokens: Option<int>,
    thinkingBudget: Option<int>,
    minP: Option<real>)

  /** The constrained fields, in declaration order. */
  datatype Field =
    | Messages | Temperature | MaxTokens | FrequencyPenalty | PresencePenalty | TopP
    | ImageDetail | ImagePixelLimit | Fps | MaxCompletionTokens | ThinkingBudget | MinP

  const Fields: seq<Field> := [
    Messages, Temperature, MaxTokens, FrequencyPenalty, PresencePenalty, TopP,
    ImageDetail, ImagePixelLimit, Fps, MaxCompletionTokens, ThinkingBudget, MinP]

  /** Whether one field satisfies its `Field(...)` constraint; an absent optional field always does. */
  predicate FieldOk(req: ChatRequestBody, f: Field) {
    match f
    case Messages => forall k :: 0 <= k < |req.messages| ==> ValidRole(req.messages[k].role)
    case Temperature => 0.0 <= req.temperature <= 2.0
    case MaxTokens => req.maxTokens.Some? ==> req.maxTokens.value >= 1
    case FrequencyPenalty => -2.0 <= req.frequencyPenalty <= 2.0
    case PresencePenalty => -2.0 <= req.presencePenalty <= 2.0
    case TopP => 0.0 <= req.topP <= 1.0
    case ImageDetail =>
      req.imageDetail.Some? ==> req.imageDetail.value in {"auto", "low", "high"}
    case ImagePixelLimit => req.imagePixelLimit.Some? ==> ValidPixelLimit(req.imagePixelLimit.value)
    case Fps => req.fps.Some? ==> 0.1 <= req.fps.value <= 10.0
    case MaxCompletionTokens => req.maxCompletionTokens.Some? ==> req.maxCompletionTokens.value >= 1
    case ThinkingBudget => req.thinkingBudget.Some? ==> 128 <= req.thinkingBudget.value <= 32768
    case MinP => req.minP.Some? ==> 0.0 <= req.minP.value <= 1.0
  }

  /** A body pydantic accepts. */
  predicate ValidChatRequest(req: ChatRequestBody) {
    forall f :: FieldOk(req, f)
  }

  /** The fields among `fields` that fail their constraint, in order. */
  function Violations(req: ChatRequestBody, fields: seq<Field>): (errs: seq<Field>)
    ensures |errs| <= |fields|
  {
    if fields == [] then []
    else
      var rest := Violations(req, fields[1..]);
      if FieldOk(req, fields[0]) then rest else [fields[0]] + rest
  }

  /** The errors are exactly the failing fields, so a body is accepted exactly when there are none. */
  lemma {:induction false} ViolationsSpec(req: ChatRequestBody, fields: seq<Field>)
    ensures forall f :: f in Violations(req, fields) <==> f in fields && !FieldOk(req, f)
    decreases |fields|
  {
    if fields != [] {
      ViolationsSpec(req, fields[1..]);
      assert fields == [fields[0]] + fields[1..];
    }
  }

  lemma ValidIffNoViolations(req: ChatRequestBody)
    ensures ValidChatRequest(req) <==> Violations(req, Fields) == []
  {
    ViolationsSpec(req, Fields);
    forall f ensures f in Fields {
      match f
      case Messages =>
      case Temperature =>
      case MaxTokens =>
      case FrequencyPenalty =>
      case PresencePenalty =>
      case TopP =>
      case ImageDetail =>
      case ImagePixelLimit =>
      case Fps =>
      case MaxCompletionTokens =>
      case ThinkingBudget =>
      case MinP =>
    }
    if Violations(req, Fields) != [] {
      assert Violations(req, Fields)[0] in Violations(req, Fields);
    }
  }

  /** A body with only the required fields given: the declared defaults. */
  function Defaults(messages: seq<MessageCreate>): (req: ChatRequestBody)
    ensures req.stream
  {
    ChatRequestBody(messages, true, 0.7, None, 0.0, 0.0, 1.0, None, None, None, None, None, None)
  }

  /** The defaults satisfy every constraint, so such a body is accepted exactly when its roles are. */
  lemma DefaultsValid(messages: seq<MessageCreate>)
    ensures ValidChatRequest(Defaults(messages)) <==> forall k :: 0 <= k < |messages| ==> ValidRole(messages[k].role)
  {
    var req := Defaults(messages);
    if forall k :: 0 <= k < |messages| ==> ValidRole(messages[k].role) {
      forall f ensures FieldOk(req, f) {
        match f
        case Messages =>
        case Temperature =>
        case MaxTokens =>
        case FrequencyPenalty =>
        case PresencePenalty =>
        case TopP =>
        case ImageDetail =>
        case ImagePixelLimit =>
        case Fps =>
        case MaxCompletionTokens =>
        case ThinkingBudget =>
        case MinP =>
      }
    } else {
      assert !FieldOk(req, Messages);
    }
  }
}
