/**
 * The keyword arguments the chat router passes to a provider
 * (`_build_provider_kwargs` in backend/routers/chat_helpers.py): six
 * sampling parameters always, and every optional request setting that is
 * not None, under the same name and with the same value.
 */
module ProviderKwargs {
  import opened Wrappers

  /**
   * A value as the request carries it. `Null` is the None that an always-passed
   * key carries (`max_tokens`, `stop`). An optional request setting that is
   * None is `Option.None` instead, and is never `Some(Null)`.
   */
  datatype Value =
    | Null
    | Flag(flag: bool)
    | Int(i: int)
    | Num(r: real)
    | Text(text: string)
    | Texts(items: seq<string>)
    | Limit(pixels: map<PixelKey, int>)

  /** The two entries of an image pixel limit. */
  datatype PixelKey = MaxPixels | MinPixels

  /** `ImagePixelLimit`: both bounds are optional. */
  datatype PixelLimit = PixelLimit(maxPixels: Option<int>, minPixels: Option<int>)

  /** The six keys that are always passed. */
  datatype BaseKey = Temperature | MaxTokens | FrequencyPenalty | PresencePenalty | TopP | Stop

  /** The keys that are passed only when the request sets them. */
  datatype OptKey =
    | Thinking | ReasoningEffort | DisableReasoning | ReasoningFormat | IncludeReasoning
    | MaxCompletionTokens | EnableThinking | ThinkingBudget | MinP | TopK | SafePrompt | RandomSeed
    | SequentialImageGeneration | MaxImages | Watermark | PromptOptimizeMode | Size | Seed
    | ImageDetail | ImagePixelLimit | Fps | VideoDetail | MaxFrames
    | Resolution | Ratio | Duration | GenerateAudio | Draft | CameraFixed

  /** A key of the provider keyword arguments. */
  datatype Key = Base(b: BaseKey) | Opt(o: OptKey)

  /** The keyword each key is passed under. */
  function KeyName(k: Key): string {
    match k
    case Base(Temperature) => "temperature"
    case Base(MaxTokens) => "max_tokens"
    case Base(FrequencyPenalty) => "frequency_penalty"
    case Base(PresencePenalty) => "presence_penalty"
    case Base(TopP) => "top_p"
    case Base(Stop) => "stop"
    case Opt(Thinking) => "thinking"
    case Opt(ReasoningEffort) => "reasoning_effort"
    case Opt(DisableReasoning) => "disable_reasoning"
    case Opt(ReasoningFormat) => "reasoning_format"
    case Opt(IncludeReasoning) => "include_reasoning"
    case Opt(MaxCompletionTokens) => "max_completion_tokens"
    case Opt(EnableThinking) => "enable_thinking"
    case Opt(ThinkingBudget) => "thinking_budget"
    case Opt(MinP) => "min_p"
    case Opt(TopK) => "top_k"
    case Opt(SafePrompt) => "safe_prompt"
    case Opt(RandomSeed) => "random_seed"
    case Opt(SequentialImageGeneration) => "sequential_image_generation"
    case Opt(MaxImages) => "max_images"
    case Opt(Watermark) => "watermark"
    case Opt(PromptOptimizeMode) => "prompt_optimize_mode"
    case Opt(Size) => "size"
    case Opt(Seed) => "seed"
    case Opt(ImageDetail) => "image_detail"
    case Opt(ImagePixelLimit) => "image_pixel_limit"
    case Opt(Fps) => "fps"
    case Opt(VideoDetail) => "video_detail"
    case Opt(MaxFrames) => "max_frames"
    case Opt(Resolution) => "resolution"
    case Opt(Ratio) => "ratio"
    case Opt(Duration) => "duration"
    case Opt(GenerateAudio) => "generate_audio"
    case Opt(Draft) => "draft"
    case Opt(CameraFixed) => "camera_fixed"
  }

  /** The optional keys in the order `_build_provider_kwargs` tests them. */
  const OptKeys: seq<OptKey> := [
    Thinking, ReasoningEffort, DisableReasoning, ReasoningFormat, IncludeReasoning,
    MaxCompletionTokens, EnableThinking, ThinkingBudget, MinP, TopK, SafePrompt, RandomSeed,
    SequentialImageGeneration, MaxImages, Watermark, PromptOptimizeMode, Size, Seed,
    ImageDetail, ImagePixelLimit, Fps, VideoDetail, MaxFrames,
    Resolution, Ratio, Duration, GenerateAudio, Draft, CameraFixed]

  /** Every optional key is among those the function looks up. */
  lemma OptKeysComplete(o: OptKey)
    ensures o in OptKeys
  {
  }

  /** The request settings `_build_provider_kwargs` reads. */
  datatype ChatRequest = ChatRequest(
    temperature: real,
    maxTokens: Option<int>,
    frequencyPenalty: real,
    presencePenalty: real,
    topP: real,
    stop: Option<seq<string>>,
    thinking: Option<Value>,
    reasoningEffort: Option<Value>,
    disableReasoning: Option<Value>,
    reasoningFormat: Option<Value>,
    includeReasoning: Option<Value>,
    maxCompletionTokens: Option<Value>,
    enableThinking: Option<Value>,
    thinkingBudget: Option<Value>,
    minP: Option<Value>,
    topK: Option<Value>,
    safePrompt: Option<Value>,
    randomSeed: Option<Value>,
    sequentialImageGeneration: Option<Value>,
    maxImages: Option<Value>,
    watermark: Option<Value>,
    promptOptimizeMode: Option<Value>,
    size: Option<Value>,
    seed: Option<Value>,
    imageDetail: Option<Value>,
    imagePixelLimit: Option<PixelLimit>,
    fps: Option<Value>,
    videoDetail: Option<Value>,
    maxFrames: Option<Value>,
    resolution: Option<Value>,
    ratio: Option<Value>,
    duration: Option<Value>,
    generateAudio: Option<Value>,
    draft: Option<Value>,
    cameraFixed: Option<Value>)

  /** The value of an always-passed key; a missing max_tokens or stop is passed as None. */
  function BaseValue(req: ChatRequest, b: BaseKey): Value {
    match b
    case Temperature => Num(req.temperature)
    case MaxTokens => if req.maxTokens.Some? then Int(req.maxTokens.value) else Null
    case FrequencyPenalty => Num(req.frequencyPenalty)
    case PresencePenalty => Num(req.presencePenalty)
    case TopP => Num(req.topP)
    case Stop => if req.stop.Some? then Texts(req.stop.value) else Null
  }

  /** A pixel limit with its None-valued entries dropped (`model_dump(exclude_none=True)`). */
  function CleanLimit(l: PixelLimit): (m: map<PixelKey, int>)
    ensures MaxPixels in m <==> l.maxPixels.Some?
    ensures MinPixels in m <==> l.minPixels.Some?
    ensures MaxPixels in m ==> m[MaxPixels] == l.maxPixels.value
    ensures MinPixels in m ==> m[MinPixels] == l.minPixels.value
  {
    var withMax := if l.maxPixels.Some? then map[MaxPixels := l.maxPixels.value] else map[];
    if l.minPixels.Some? then withMax[MinPixels := l.minPixels.value] else withMax
  }

  /** The request field behind an optional key; None means the key is not passed. */
  function OptionalValue(req: ChatRequest, o: OptKey): Option<Value> {
    match o
    case Thinking => req.thinking
    case ReasoningEffort => req.reasoningEffort
    case DisableReasoning => req.disableReasoning
    case ReasoningFormat => req.reasoningFormat
    case IncludeReasoning => req.includeReasoning
    case MaxCompletionTokens => req.maxCompletionTokens
    case EnableThinking => req.enableThinking
    case ThinkingBudget => req.thinkingBudget
    case MinP => req.minP
    case TopK => req.topK
    case SafePrompt => req.safePrompt
    case RandomSeed => req.randomSeed
    case SequentialImageGeneration => req.sequentialImageGeneration
    case MaxImages => req.maxImages
    case Watermark => req.watermark
    case PromptOptimizeMode => req.promptOptimizeMode
    case Size => req.size
    case Seed => req.seed
    case ImageDetail => req.imageDetail
    case ImagePixelLimit =>
      if req.imagePixelLimit.Some? then Some(Limit(CleanLimit(req.imagePixelLimit.value))) else None
    case Fps => req.fps
    case VideoDetail => req.videoDetail
    case MaxFrames => req.maxFrames
    case Resolution => req.resolution
    case Ratio => req.ratio
    case Duration => req.duration
    case GenerateAudio => req.generateAudio
    case Draft => req.draft
    case CameraFixed => req.cameraFixed
  }

  /** The six always-passed keys with their values. */
  function BaseKwargs(req: ChatRequest): map<Key, Value> {
    map[
      Base(Temperature) := BaseValue(req, Temperature),
      Base(MaxTokens) := BaseValue(req, MaxTokens),
      Base(FrequencyPenalty) := BaseValue(req, FrequencyPenalty),
      Base(PresencePenalty) := BaseValue(req, PresencePenalty),
      Base(TopP) := BaseValue(req, TopP),
      Base(Stop) := BaseValue(req, Stop)]
  }

  /** The base dictionary holds every base key with its value, and no optional key. */
  lemma BaseKwargsSpec(req: ChatRequest)
    ensures forall b :: Base(b) in BaseKwargs(req) && BaseKwargs(req)[Base(b)] == BaseValue(req, b)
    ensures forall o :: Opt(o) !in BaseKwargs(req)
  {
    forall b ensures Base(b) in BaseKwargs(req) && BaseKwargs(req)[Base(b)] == BaseValue(req, b) {
      match b
      case Temperature =>
      case MaxTokens =>
      case FrequencyPenalty =>
      case PresencePenalty =>
      case TopP =>
      case Stop =>
    }
  }

  /**
   * `_build_provider_kwargs`: the six base keys always, then each optional
   * key, in source order, when its request field is not None. The 29
   * `if … is not None` statements of the source, which differ only in the
   * field they test, are modelled as one pass over `OptKeys`.
   */
  method BuildProviderKwargs(req: ChatRequest) returns (kwargs: map<Key, Value>)
    ensures forall b :: Base(b) in kwargs && kwargs[Base(b)] == BaseValue(req, b)
    ensures forall o :: Opt(o) in kwargs <==> OptionalValue(req, o).Some?
    ensures forall o :: Opt(o) in kwargs ==> kwargs[Opt(o)] == OptionalValue(req, o).value
  {
    kwargs := BaseKwargs(req);
    BaseKwargsSpec(req);
    for i := 0 to |OptKeys|
      invariant forall b :: Base(b) in kwargs && kwargs[Base(b)] == BaseValue(req, b)
      invariant forall o :: Opt(o) in kwargs <==> o in OptKeys[..i] && OptionalValue(req, o).Some?
      invariant forall o :: Opt(o) in kwargs ==> kwargs[Opt(o)] == OptionalValue(req, o).value
    {
      var o := OptKeys[i];
      var v := OptionalValue(req, o);
      assert OptKeys[..i + 1] == OptKeys[..i] + [o];
      if v.Some? {
        kwargs := kwargs[Opt(o) := v.value];
      }
    }
    forall o ensures o in OptKeys[..|OptKeys|] {
      OptKeysComplete(o);
    }
  }
}
