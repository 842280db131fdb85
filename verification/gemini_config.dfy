/**
 * The model-name predicates and request-configuration helpers of the
 * Gemini provider (backend/providers/gemini_config.py): which models get a
 * thinking configuration, which are Imagen or Gemini image models, the
 * Imagen config dict, response modalities, the tool list and the safety
 * settings.
 */
module GeminiConfig {
  import opened Wrappers
  import opened Text

  /** The model-name prefixes that get a thinking configuration. */
  const ThinkingModels: seq<string> := [
    "gemini-2.5-flash",
    "gemini-2.5-pro",
    "gemini-2.5-flash-preview-tts",
    "gemini-2.5-pro-preview-tts",
    "gemini-flash-latest",
    "gemini-flash-lite-latest",
    "gemini-pro-latest",
    "gemini-2.5-flash-lite",
    "gemini-2.5-flash-image-preview",
    "gemini-2.5-flash-image",
    "gemini-2.5-flash-preview-09-2025",
    "gemini-2.5-flash-lite-preview-09-2025",
    "gemini-3-pro-preview",
    "gemini-3-flash-preview",
    "gemini-3-pro-image-preview",
    "nano-banana-pro-preview",
    "gemini-2.5-computer-use-preview-10-2025",
    "deep-research-pro-preview-12-2025"
  ]

  const ModelsPrefix := "models/"

  /** The name without one leading "models/", compared case-sensitively. */
  function BareName(model: string): (name: string)
    ensures StartsWith(model, ModelsPrefix) ==> model == ModelsPrefix + name
    ensures !StartsWith(model, ModelsPrefix) ==> name == model
  {
    if StartsWith(model, ModelsPrefix) then model[|ModelsPrefix|..] else model
  }

  /** `any(name.startswith(p) for p in prefixes)`. */
  function AnyPrefix(name: string, prefixes: seq<string>): (r: bool)
    ensures r <==> exists k :: 0 <= k < |prefixes| && StartsWith(name, prefixes[k])
  {
    if prefixes == [] then false
    else if StartsWith(name, prefixes[0]) then true
    else
      assert forall k :: 1 <= k < |prefixes| ==> prefixes[k] == prefixes[1..][k - 1];
      AnyPrefix(name, prefixes[1..])
  }

  /** `_should_enable_thinking`: "thinking" anywhere in the lowercased name, or a whitelisted prefix of the bare name. */
  function ShouldEnableThinking(model: string): (r: bool)
    ensures r <==>
      || Contains(Lower(model), "thinking")
      || exists k :: 0 <= k < |ThinkingModels| && StartsWith(BareName(model), ThinkingModels[k])
  {
    Contains(Lower(model), "thinking") || AnyPrefix(BareName(model), ThinkingModels)
  }

  /** `_supports_thinking_level`: the bare name, lowercased, starts with "gemini-3". */
  predicate SupportsThinkingLevel(model: string) {
    StartsWith(Lower(BareName(model)), "gemini-3")
  }

  /** `_is_imagen_model`. */
  predicate IsImagenModel(model: string) {
    StartsWith(Lower(BareName(model)), "imagen-")
  }

  /** `_is_gemini_image_model`: mentions "image" but is not an Imagen model. */
  predicate IsGeminiImageModel(model: string) {
    var lowered := Lower(BareName(model));
    Contains(lowered, "image") && !StartsWith(lowered, "imagen-")
  }

  /**
   * The name tests ignore one leading "models/": a model asked for by its
   * resource name is classified like its bare name.
   */
  lemma ModelsPrefixIgnored(model: string)
    requires !StartsWith(model, ModelsPrefix)
    ensures SupportsThinkingLevel(ModelsPrefix + model) == SupportsThinkingLevel(model)
    ensures IsImagenModel(ModelsPrefix + model) == IsImagenModel(model)
    ensures IsGeminiImageModel(ModelsPrefix + model) == IsGeminiImageModel(model)
  {
    var full := ModelsPrefix + model;
    assert full[..|ModelsPrefix|] == ModelsPrefix;
    assert full[|ModelsPrefix|..] == model;
  }

  /** A bare name starting with "gemini-3" supports a thinking level. */
  lemma ThinkingLevelOfPrefix(model: string)
    requires StartsWith(model, "gemini-3")
    ensures SupportsThinkingLevel(model)
  {
    assert model[0] != 'm';
    var lowered := Lower(model);
    assert lowered[..8] == model[..8];
  }

  /** A bare name whose `i`-th character differs, in any case, from that of "gemini-3" does not. */
  lemma NoThinkingLevelAt(model: string, i: nat)
    requires i < 8 && i < |model| && model[0] != 'm' && LowerChar(model[i]) != "gemini-3"[i]
    ensures !SupportsThinkingLevel(model)
  {
    var lowered := Lower(model);
    assert lowered[i] != "gemini-3"[i];
    if 8 <= |lowered| {
      assert lowered[..8][i] == lowered[i];
      assert lowered[..8] != "gemini-3";
    }
  }

  /**
   * Of the models that get a thinking configuration, exactly the three
   * `gemini-3` ones also support a thinking level.
   */
  lemma ListedThinkingLevels(k: nat)
    requires k < |ThinkingModels|
    ensures SupportsThinkingLevel(ThinkingModels[k]) <==> 12 <= k <= 14
  {
    var m := ThinkingModels[k];
    if 12 <= k <= 14 {
      assert m[..8] == "gemini-3";
      ThinkingLevelOfPrefix(m);
    } else if k == 15 || k == 17 {
      NoThinkingLevelAt(m, 0);
    } else {
      NoThinkingLevelAt(m, 7);
    }
  }

  /** An Imagen model name always mentions "image", so exactly one of the two predicates holds for it. */
  lemma ImagenMentionsImage(model: string)
    requires IsImagenModel(model)
    ensures Contains(Lower(BareName(model)), "image") && !IsGeminiImageModel(model)
  {
    var lowered := Lower(BareName(model));
    assert lowered[..|"image"|] == "image";
    ContainsAt(lowered, "image", 0);
  }

  /**
   * The two image tests split the names that mention "image": each such
   * name is an Imagen model or a Gemini image model, never both, and a name
   * that does not mention it is neither.
   */
  lemma ImageModelKinds(model: string)
    ensures Contains(Lower(BareName(model)), "image") <==> IsImagenModel(model) || IsGeminiImageModel(model)
    ensures !(IsImagenModel(model) && IsGeminiImageModel(model))
  {
    if IsImagenModel(model) {
      ImagenMentionsImage(model);
    }
  }

  // ------------------------------------------------------------ Imagen config

  /** The `imagen_*` request arguments `_build_imagen_config` reads; None when absent. */
  datatype ImagenArgs = ImagenArgs(numberOfImages: Option<int>, imageSize: Option<string>,
    aspectRatio: Option<string>, personGeneration: Option<string>)

  datatype ConfigValue = IntValue(i: int) | StrValue(s: string)

  predicate TruthyStr(v: Option<string>) {
    v.Some? && v.value != ""
  }

  /** `_build_imagen_config`: a key for each argument given (the count even when 0, the strings when non-empty). */
  function BuildImagenConfig(args: ImagenArgs): (config: map<string, ConfigValue>)
    ensures "number_of_images" in config <==> args.numberOfImages.Some?
    ensures args.numberOfImages.Some? ==> config["number_of_images"] == IntValue(args.numberOfImages.value)
    ensures "image_size" in config <==> TruthyStr(args.imageSize)
    ensures TruthyStr(args.imageSize) ==> config["image_size"] == StrValue(args.imageSize.value)
    ensures "aspect_ratio" in config <==> TruthyStr(args.aspectRatio)
    ensures TruthyStr(args.aspectRatio) ==> config["aspect_ratio"] == StrValue(args.aspectRatio.value)
    ensures "person_generation" in config <==> TruthyStr(args.personGeneration)
    ensures TruthyStr(args.personGeneration) ==> config["person_generation"] == StrValue(args.personGeneration.value)
    ensures config.Keys <= {"number_of_images", "image_size", "aspect_ratio", "person_generation"}
  {
    var c0: map<string, ConfigValue> := map[];
    var c1 := if args.numberOfImages.Some? then c0["number_of_images" := IntValue(args.numberOfImages.value)] else c0;
    var c2 := if TruthyStr(args.imageSize) then c1["image_size" := StrValue(args.imageSize.value)] else c1;
    var c3 := if TruthyStr(args.aspectRatio) then c2["aspect_ratio" := StrValue(args.aspectRatio.value)] else c2;
    if TruthyStr(args.personGeneration) then c3["person_generation" := StrValue(args.personGeneration.value)] else c3
  }

  // ------------------------------------------------------ response modalities

  /** What one modality value becomes: its stripped upper-case form when that is IMAGE or TEXT, else nothing. */
  function Modality(m: string): (r: Option<string>)
    ensures r.Some? ==> r.value == "IMAGE" || r.value == "TEXT"
  {
    if m == "" then None
    else
      var v := Upper(Strip(m));
      if v == "IMAGE" || v == "TEXT" then Some(v) else None
  }

  /** The modality values `_normalize_response_modalities` keeps, normalised, in order. */
  function Normalized(ms: seq<string>): (r: seq<string>)
    ensures |r| <= |ms|
    ensures forall k :: 0 <= k < |r| ==> r[k] == "IMAGE" || r[k] == "TEXT"
  {
    if ms == [] then []
    else
      var v := Modality(ms[|ms| - 1]);
      Normalized(ms[..|ms| - 1]) + (if v.Some? then [v.value] else [])
  }

  lemma {:induction false} NormalizedAppend(a: seq<string>, b: seq<string>)
    ensures Normalized(a + b) == Normalized(a) + Normalized(b)
    decreases |b|
  {
    if b == [] {
      assert a + b == a;
    } else {
      assert (a + b)[..|a + b| - 1] == a + b[..|b| - 1];
      NormalizedAppend(a, b[..|b| - 1]);
    }
  }

  /** A value is in the result exactly when some input value becomes it. */
  lemma {:induction false} NormalizedMembers(ms: seq<string>, v: string)
    ensures v in Normalized(ms) <==> exists k :: 0 <= k < |ms| && Modality(ms[k]) == Some(v)
    decreases |ms|
  {
    if ms != [] {
      var init := ms[..|ms| - 1];
      NormalizedMembers(init, v);
      assert forall k :: 0 <= k < |init| ==> init[k] == ms[k];
    }
  }

  /** A normalised value is kept as it is. */
  lemma NormalizedKeeps(v: string)
    requires v == "IMAGE" || v == "TEXT"
    ensures Normalized([v]) == [v]
  {
    assert [v][..0] == [];
    StripOfStripped(v);
    assert Upper(v) == v;
  }

  /** Normalising already-normalised modalities changes nothing. */
  lemma {:induction false} NormalizedIdempotent(ms: seq<string>)
    ensures Normalized(Normalized(ms)) == Normalized(ms)
    decreases |ms|
  {
    if ms != [] {
      var init := ms[..|ms| - 1];
      var v := Modality(ms[|ms| - 1]);
      var added := if v.Some? then [v.value] else [];
      NormalizedIdempotent(init);
      NormalizedAppend(Normalized(init), added);
      if v.Some? {
        NormalizedKeeps(v.value);
      }
    }
  }

  /** `_normalize_response_modalities`: the kept values in order, or None when the input or the result is empty. */
  method NormalizeResponseModalities(modalities: Option<seq<string>>) returns (r: Option<seq<string>>)
    ensures modalities.None? || modalities.value == [] ==> r.None?
    ensures modalities.Some? ==> r == if Normalized(modalities.value) == [] then None else Some(Normalized(modalities.value))
  {
    if modalities.None? || modalities.value == [] {
      return None;
    }
    var ms := modalities.value;
    var normalized: seq<string> := [];
    for i := 0 to |ms|
      invariant normalized == Normalized(ms[..i])
    {
      assert ms[..i + 1][..i] == ms[..i];
      var m := ms[i];
      if m == "" {
        continue;
      }
      var val := Upper(Strip(m));
      if val == "IMAGE" || val == "TEXT" {
        normalized := normalized + [val];
      }
    }
    assert ms[..|ms|] == ms;
    if normalized == [] {
      return None;
    }
    return Some(normalized);
  }

  // -------------------------------------------------------------------- tools

  /** An argument of `_merge_tools`: None (or anything falsy), a list of tools, or one tool. */
  datatype ToolArg = NoTool | ToolList(tools: seq<string>) | OneTool(tool: string)

  /** The tools, in argument order, lists flattened one level and falsy arguments dropped. */
  function Merged(args: seq<ToolArg>): seq<string> {
    if args == [] then []
    else
      var a := args[|args| - 1];
      Merged(args[..|args| - 1]) + (match a case NoTool => [] case ToolList(ts) => ts case OneTool(t) => [t])
  }

  /** A tool is merged exactly when some argument is that tool or a list holding it. */
  lemma {:induction false} MergedMembers(args: seq<ToolArg>, t: string)
    ensures t in Merged(args) <==> exists k :: 0 <= k < |args| && (args[k] == OneTool(t) || (args[k].ToolList? && t in args[k].tools))
    decreases |args|
  {
    if args != [] {
      var init := args[..|args| - 1];
      MergedMembers(init, t);
      assert forall k :: 0 <= k < |init| ==> init[k] == args[k];
    }
  }

  /** `_merge_tools`. */
  method MergeTools(args: seq<ToolArg>) returns (r: Option<seq<string>>)
    ensures r == if Merged(args) == [] then None else Some(Merged(args))
  {
    var merged: seq<string> := [];
    for i := 0 to |args|
      invariant merged == Merged(args[..i])
    {
      assert args[..i + 1][..i] == args[..i];
      match args[i] {
        case NoTool =>
        case ToolList(ts) =>
          merged := merged + ts;
        case OneTool(t) =>
          merged := merged + [t];
      }
    }
    assert args[..|args|] == args;
    if merged == [] {
      return None;
    }
    return Some(merged);
  }

  // --------------------------------------------------------- safety settings

  const HarmCategories: seq<string> := [
    "HARM_CATEGORY_HARASSMENT",
    "HARM_CATEGORY_HATE_SPEECH",
    "HARM_CATEGORY_SEXUALLY_EXPLICIT",
    "HARM_CATEGORY_DANGEROUS_CONTENT",
    "HARM_CATEGORY_CIVIC_INTEGRITY"
  ]

  datatype SafetySetting = SafetySetting(category: string, threshold: string)

  /** `_get_safety_settings`: None for an empty threshold, else one setting per category, in order, all at that threshold. */
  function GetSafetySettings(threshold: string): (r: Option<seq<SafetySetting>>)
    ensures threshold == "" <==> r.None?
    ensures r.Some? ==>
      && |r.value| == 5
      && forall k :: 0 <= k < 5 ==> r.value[k] == SafetySetting(HarmCategories[k], threshold)
  {
    if threshold == "" then None
    else Some(seq(|HarmCategories|, k requires 0 <= k < |HarmCategories| => SafetySetting(HarmCategories[k], threshold)))
  }
}
